// Dropping methods with an unreachable primitive subtask: exactly for which vocabularies it loses no plan.
module PruningSafety {
  import opened Prelude
  import opened HddlAst
  import opened Names
  import opened Bindings
  import opened Goals
  import opened Effects
  import opened Grounders
  import opened TypeClosure
  import opened Validation
  import opened Relevance
  import opened Reachability
  import opened Htn
  import opened Addresses
  import opened Preservation
  import opened Pipeline
  import opened Nullary

  function HeadNames(d: Domain): set<Name> {
    set m | m in d.methods :: m.task.name
  }

  ghost predicate GoalSolvable(ir: GroundedIR) {
    exists states, labels :: GoalSolution(ir, states, labels)
  }

  /** If the problem is solvable as grounded without pruning, it is as grounded with reachability pruning. */
  ghost predicate KeepsSolvability(d: Domain, p: Problem) {
    forall lim: Limits, full, lean |
      lim.pruneUnreachable && Grounds(d, p, Unpruned(lim), full) && Grounds(d, p, lim, lean) && GoalSolvable(full) ::
      GoalSolvable(lean)
  }

  /** An accepted input whose actions, decomposed tasks and subtask ids are named from three vocabularies. */
  ghost predicate Speaks(d: Domain, p: Problem, actions: set<Name>, heads: set<Name>, ids: Ids, repeats: bool) {
    && Accepted(d, p) && CleanTaskNames(d, p)
    && ActionNames(d) <= actions && HeadNames(d) <= heads && InputIds(d, p) <= ids
    && (repeats || AllRepeatsAgree(d, p))
  }

  /** Pruning is safe for every such input; `repeats` says whether a repeated id may carry another task. */
  ghost predicate SafeVocabulary(actions: set<Name>, heads: set<Name>, ids: Ids, repeats: bool) {
    forall d, p | Speaks(d, p, actions, heads, ids, repeats) :: KeepsSolvability(d, p)
  }

  // ---- inputs that lose their only plan ----

  const SEEN := Atomic("seen", [])
  const NEVER := Atomic("never", [])

  /**
   * One compound task `head`: method `end` replaces it by the subtasks `end` and records that it was
   * seen, `stop` removes it once it was seen, and each of `goes` moves it down by one id. The one
   * action is never applicable.
   */
  datatype Hazard = Hazard(
    action: Name, head: Name, end: seq<GroundSubtask>, goes: seq<Name>, root: seq<GroundSubtask>)

  ghost predicate GoodHazard(z: Hazard) {
    && '(' !in z.action && '(' !in z.head
    && (forall i | 0 <= i < |z.end| :: z.end[i].task in {z.action, z.head})
    && (exists i :: 0 <= i < |z.end| && z.end[i].task == z.action)
    && z.root != [] && forall i | 0 <= i < |z.root| :: z.root[i].task == z.head
  }

  function MethodsOf(z: Hazard): seq<MethodDef> {
    [MethodDef("end", [], TaskCall(z.head, []), Empty, AddLit(SEEN), Network(z.end)),
     MethodDef("stop", [], TaskCall(z.head, []), Atom(SEEN), NoEffect, Network([]))]
    + seq(|z.goes|, i requires 0 <= i < |z.goes| =>
        MethodDef(GoName(i), [], TaskCall(z.head, []), Empty, NoEffect, Network([GroundSubtask(z.goes[i], z.head)])))
  }

  function DomainOf(z: Hazard): Domain {
    Domain(map[], [], [], [PredicateDef("seen", []), PredicateDef("never", [])], [TaskDef(z.head, [])],
           [ActionDef(z.action, [], Atom(NEVER), NoEffect)], MethodsOf(z))
  }

  function ProblemOf(z: Hazard): Problem {
    Problem([], [], Empty, Network(z.root))
  }

  function GroundEnd(z: Hazard): GroundMethod {
    GroundMethod("end", z.head, GEmpty, GroundBranch({"seen"}, {}, []), z.end, [])
  }

  function GroundStop(z: Hazard): GroundMethod {
    GroundMethod("stop", z.head, GAtom("seen"), EMPTY_BRANCH, [], [])
  }

  function GroundGo(z: Hazard, i: nat): GroundMethod
    requires i < |z.goes|
  {
    GroundMethod(GoName(i), z.head, GEmpty, EMPTY_BRANCH, [GroundSubtask(z.goes[i], z.head)], [])
  }

  function GroundMethodsOf(z: Hazard): seq<GroundMethod> {
    [GroundEnd(z), GroundStop(z)] + seq(|z.goes|, i requires 0 <= i < |z.goes| => GroundGo(z, i))
  }

  function IROf(z: Hazard): GroundedIR {
    GroundedIR([GroundAction(z.action, GAtom("never"), [EMPTY_BRANCH])], GroundMethodsOf(z), [RootNetwork(z.root, [])], {},
               Empty)
  }

  // ---- validation accepts them ----

  lemma CalleeHasNoParameters(z: Hazard, name: Name)
    requires name in {z.action, z.head}
    ensures Callee(DomainOf(z), name) == Some([])
  {
    var d := DomainOf(z);
    var ofTask, ofAction := (t: TaskDef) => t.name == name, (a: ActionDef) => a.name == name;
    FirstKept(d.tasks, ofTask);
    FirstKept(d.actions, ofAction);
    assert d.tasks[0] in Filter(d.tasks, ofTask) <==> name == z.head;
    assert d.actions[0] in Filter(d.actions, ofAction) <==> name == z.action;
  }

  lemma NetworkFits(z: Hazard, sts: seq<GroundSubtask>)
    requires forall i | 0 <= i < |sts| :: sts[i].task in {z.action, z.head}
    ensures forall st | st in Network(sts).subtasks ::
              SubtaskFits(DomainOf(z), map[], st) && RootSubtaskFits(DomainOf(z), ProblemOf(z), st)
    ensures ValidOrder(Network(sts))
  {
    forall st | st in Network(sts).subtasks
      ensures SubtaskFits(DomainOf(z), map[], st) && RootSubtaskFits(DomainOf(z), ProblemOf(z), st)
    {
      var i :| 0 <= i < |sts| && st == Calls(sts)[i];
      CalleeHasNoParameters(z, sts[i].task);
    }
    assert EdgesRanked([], map[]);
  }

  /** Each method decomposes the head, has no parameters, and its subtasks call the head or the action. */
  lemma MethodShape(z: Hazard, k: nat)
    requires GoodHazard(z) && k < |MethodsOf(z)|
    ensures var m, g := MethodsOf(z)[k], GroundMethodsOf(z)[k];
            && m.params == [] && m.task == TaskCall(z.head, []) && m.pre in {Empty, Atom(SEEN)}
            && m.effect in {NoEffect, AddLit(SEEN)} && m.network == Network(g.subtasks)
            && forall i | 0 <= i < |g.subtasks| :: g.subtasks[i].task in {z.action, z.head}
  {
  }

  lemma MethodNamesDistinct(z: Hazard)
    ensures forall i, j | 0 <= i < j < |MethodsOf(z)| :: MethodsOf(z)[i].name != MethodsOf(z)[j].name
  {
    forall i, j | 0 <= i < j < |MethodsOf(z)| ensures MethodsOf(z)[i].name != MethodsOf(z)[j].name {
      if i >= 2 {
        assert |GoName(i - 2)| != |GoName(j - 2)|;
      } else {
        assert "end"[0] != "stop"[0] && "end"[0] != 'g' && "stop"[0] != 'g';
      }
    }
  }

  lemma MethodAccepted(z: Hazard, m: MethodDef)
    requires GoodHazard(z) && m in MethodsOf(z)
    ensures MethodFits(DomainOf(z), m) && ParamsDeclared(DomainOf(z), m.params) && BindersDeclared(DomainOf(z), m.pre)
    ensures AtomsOf(m.pre) + EffectAtoms(m.effect) <= {SEEN}
  {
    var k :| 0 <= k < |MethodsOf(z)| && MethodsOf(z)[k] == m;
    MethodShape(z, k);
    NetworkFits(z, GroundMethodsOf(z)[k].subtasks);
    assert DomainOf(z).tasks[0] == TaskDef(z.head, []);
  }

  lemma NamesAreDistinct(z: Hazard)
    ensures NamesDistinct(DomainOf(z))
  {
    MethodNamesDistinct(z);
    assert "seen"[0] != "never"[0];
    hide MethodsOf;
  }

  lemma AtomsAreDeclared(z: Hazard, atoms: set<Atomic>)
    requires atoms <= {SEEN, NEVER}
    ensures forall a | a in atoms :: AtomDeclared(DomainOf(z), a)
  {
    var d := DomainOf(z);
    assert d.predicates[0].name == "seen" && d.predicates[1].name == "never";
  }

  lemma HazardDomainAccepted(z: Hazard)
    requires GoodHazard(z)
    ensures DomainAccepted(DomainOf(z))
  {
    var d := DomainOf(z);
    NamesAreDistinct(z);
    assert AtomsFit(d) && TypesFit(d) && forall m | m in d.methods :: MethodFits(d, m) by {
      hide MethodFits, MethodsOf, GoodHazard, AtomDeclared;
      assert d.methods == MethodsOf(z);
      forall m | m in MethodsOf(z)
        ensures MethodFits(d, m) && ParamsDeclared(d, m.params) && BindersDeclared(d, m.pre)
        ensures forall a | a in AtomsOf(m.pre) + EffectAtoms(m.effect) :: AtomDeclared(d, a)
      {
        MethodAccepted(z, m);
        AtomsAreDeclared(z, AtomsOf(m.pre) + EffectAtoms(m.effect));
      }
      AtomsAreDeclared(z, {NEVER});
    }
    hide NamesDistinct, AtomsFit, TypesFit, MethodFits;
  }

  lemma HazardAccepted(z: Hazard)
    requires GoodHazard(z)
    ensures Accepted(DomainOf(z), ProblemOf(z))
  {
    HazardDomainAccepted(z);
    NetworkFits(z, z.root);
    hide DomainOf, DomainAccepted, RootSubtaskFits, SubtaskFits, ValidOrder;
    assert ProblemOf(z).htn.subtasks == Calls(z.root);
  }

  lemma MethodSpeaks(z: Hazard, ids: Ids, m: MethodDef)
    requires GoodHazard(z) && IdsWithin(z.end, ids) && Over(z.goes, ids) && m in MethodsOf(z)
    ensures m.task.name == z.head && forall st | st in m.network.subtasks :: '(' !in st.task.name
    ensures forall id | id in SubtaskIds(m.network.subtasks) :: id in ids
  {
    var k :| 0 <= k < |MethodsOf(z)| && MethodsOf(z)[k] == m;
    MethodShape(z, k);
    var sts := GroundMethodsOf(z)[k].subtasks;
    assert IdsWithin(sts, ids) by {
      assert k >= 2 ==> sts == [GroundSubtask(z.goes[k - 2], z.head)];
    }
    hide MethodsOf, GroundMethodsOf;
    assert m.network.subtasks == Calls(sts);
  }

  lemma HazardSpeaks(z: Hazard, ids: Ids)
    requires GoodHazard(z) && IdsWithin(z.end, ids) && IdsWithin(z.root, ids) && Over(z.goes, ids)
    ensures CleanTaskNames(DomainOf(z), ProblemOf(z))
    ensures ActionNames(DomainOf(z)) <= {z.action} && HeadNames(DomainOf(z)) <= {z.head}
    ensures InputIds(DomainOf(z), ProblemOf(z)) <= ids
  {
    var d := DomainOf(z);
    assert d.methods == MethodsOf(z);
    hide MethodsOf, SubtaskIds;
    forall m | m in MethodsOf(z)
      ensures m.task.name == z.head && forall st | st in m.network.subtasks :: '(' !in st.task.name
      ensures forall id | id in SubtaskIds(m.network.subtasks) :: id in ids
    {
      MethodSpeaks(z, ids, m);
    }
    RootSpeaks(z, ids);
  }

  lemma RootSpeaks(z: Hazard, ids: Ids)
    requires GoodHazard(z) && IdsWithin(z.root, ids)
    ensures forall st | st in ProblemOf(z).htn.subtasks :: '(' !in st.task.name
    ensures forall id | id in SubtaskIds(ProblemOf(z).htn.subtasks) :: id in ids
  {
  }

  // ---- grounding them ----

  lemma MethodBuilds(z: Hazard, k: nat, objs: ObjectIndex)
    requires k < |MethodsOf(z)|
    ensures BuildMethod(MethodsOf(z)[k], map[], objs) == Ok(GroundMethodsOf(z)[k])
  {
    var m, g := MethodsOf(z)[k], GroundMethodsOf(z)[k];
    CallsGround(g.subtasks);
    assert m.network == Network(g.subtasks);
    assert OrderOf([]) == [] && BoundArgs([], map[]) == [];
    assert SubstTerms([], map[]) == Ok([]);
    assert SubstAtom(SEEN, map[]) == Ok("seen");
    assert BranchOf(AddLit(SEEN), map[]) == Ok(GroundBranch({"seen"}, {}, []));
  }

  lemma ActionBuilds(z: Hazard, objs: ObjectIndex)
    ensures BuildAction(DomainOf(z).actions[0], map[], objs) == Ok(IROf(z).actions[0])
  {
    assert BoundArgs([], map[]) == [] && SubstTerms([], map[]) == Ok([]);
    assert SubstAtom(NEVER, map[]) == Ok("never");
  }

  lemma MethodsGround(z: Hazard, objs: ObjectIndex, max: nat)
    requires GoodHazard(z) && max >= |MethodsOf(z)|
    ensures FullMethods(DomainOf(z), objs, max) == Ok(GroundMethodsOf(z))
  {
    var ms, cs := MethodsOf(z), MethodCandidates(MethodsOf(z), objs);
    forall k | 0 <= k < |ms|
      ensures ms[k].params == [] && BuildMethod(ms[k], map[], objs) == Ok(GroundMethodsOf(z)[k])
    {
      MethodShape(z, k);
      MethodBuilds(z, k, objs);
    }
    NullaryCandidates(ms, objs);
    CollectAll(cs, MethodBuilder(objs), max, [], GroundMethodsOf(z));
    assert [] + GroundMethodsOf(z) == GroundMethodsOf(z);
  }

  lemma ActionsGround(z: Hazard, objs: ObjectIndex, max: nat)
    requires max >= 1
    ensures FullActions(DomainOf(z), objs, max) == Ok(IROf(z).actions)
  {
    var d := DomainOf(z);
    ActionBuilds(z, objs);
    assert BindingsOf([], objs) == [map[]] && d.actions[1..] == [];
    var cs := [Candidate(d.actions[0], map[])];
    assert ActionCandidates(d.actions, objs) == cs;
    CollectAll(cs, ActionBuilder(objs), max, [], IROf(z).actions);
    assert [] + IROf(z).actions == IROf(z).actions;
  }

  lemma RootsGround(z: Hazard, objs: ObjectIndex)
    ensures RootNetworks(ProblemOf(z), objs) == Ok(IROf(z).roots)
  {
    var bs: seq<Binding> := [map[]];
    CallsGround(z.root);
    assert OrderOf([]) == [] && BindingsOf([], objs) == bs;
    assert bs[0] == map[] && bs[1..] == [] && RootNetworksUnder(Network(z.root), []) == Ok([]);
    assert [RootNetwork(z.root, [])] + [] == IROf(z).roots;
    assert RootNetworksUnder(Network(z.root), bs) == Ok(IROf(z).roots);
  }

  /** Large enough limits, and reachability pruning on. */
  function LimitsFor(z: Hazard): Limits {
    Limits(|MethodsOf(z)|, |MethodsOf(z)|, true, false)
  }

  lemma HazardGrounds(z: Hazard, objs: ObjectIndex)
    requires GoodHazard(z)
    ensures IsGrounding(DomainOf(z), ProblemOf(z), objs, Unpruned(LimitsFor(z)), IROf(z))
  {
    MethodsGround(z, objs, |MethodsOf(z)|);
    ActionsGround(z, objs, |MethodsOf(z)|);
    RootsGround(z, objs);
  }

  // ---- reachability and what it drops ----

  lemma HazardRules(z: Hazard, objs: ObjectIndex, s: Schema, b: Binding)
    requires GoodHazard(z) && IsRule(DomainOf(z), objs, s, b)
    ensures b == map[]
    ensures s == FromAction(DomainOf(z).actions[0]) || exists k :: 0 <= k < |MethodsOf(z)| && s == FromMethod(MethodsOf(z)[k])
  {
    assert BindingsOf([], objs) == [map[]];
    if s.FromMethod? {
      var k :| 0 <= k < |MethodsOf(z)| && s.m == MethodsOf(z)[k];
      MethodShape(z, k);
    }
  }

  lemma MethodAdds(z: Hazard, k: nat, objs: ObjectIndex)
    requires k < |MethodsOf(z)|
    ensures var s := FromMethod(MethodsOf(z)[k]);
            && AddsOf(s, map[]) == Ok(BranchAdds(GroundMethodsOf(z)[k].effect))
            && PreOf(s, map[], objs) == Ok(GroundMethodsOf(z)[k].pre)
            && AddsOf(s, map[]).value <= {"seen"}
  {
    MethodBuilds(z, k, objs);
    assert BranchAdds(EMPTY_BRANCH) == {} && BranchAdds(GroundBranch({"seen"}, {}, [])) == {"seen"};
  }

  /** `seen` is reached through the first method; the action is not. */
  lemma HazardReachability(z: Hazard, objs: ObjectIndex)
    requires GoodHazard(z)
    ensures IsReachability(DomainOf(z), objs, {}, {"seen"}, {})
  {
    var d, facts := DomainOf(z), {"seen"};
    assert "never"[0] != "seen"[0];
    ActionBuilds(z, objs);
    forall s, b | IsRule(d, objs, s, b)
      ensures Satisfied(s, b, objs, facts)
      ensures s.FromAction? ==> !MayFire(s, b, objs, facts)
    {
      HazardRules(z, objs, s, b);
      if s.FromMethod? {
        var k :| 0 <= k < |MethodsOf(z)| && s == FromMethod(MethodsOf(z)[k]);
        MethodAdds(z, k, objs);
      }
    }
    forall c: Facts | {} <= c && ClosedUnderRules(d, objs, c) ensures facts <= c {
      var s := FromMethod(d.methods[0]);
      assert BindingsOf([], objs) == [map[]];
      assert IsRule(d, objs, s, map[]);
      MethodAdds(z, 0, objs);
      assert BranchAdds(GroundBranch({"seen"}, {}, [])) == {"seen"};
      assert Satisfied(s, map[], objs, c);
    }
    assert forall name :: !NamedAction(d, objs, facts, name);
  }

  function Lean(z: Hazard): GroundedIR {
    Pruned(DomainOf(z), IROf(z), Pruning(None, Some({})))
  }

  lemma HazardGroundsLean(z: Hazard, objs: ObjectIndex)
    requires GoodHazard(z)
    ensures IsGrounding(DomainOf(z), ProblemOf(z), objs, LimitsFor(z), Lean(z))
  {
    var d, lim, pr := DomainOf(z), LimitsFor(z), Pruning(None, Some({}));
    MethodsGround(z, objs, |MethodsOf(z)|);
    ActionsGround(z, objs, |MethodsOf(z)|);
    RootsGround(z, objs);
    HazardReachability(z, objs);
    PrunedActionsAreFilter(d, objs, lim.maxActions, pr);
    PrunedMethodsAreFilter(d, objs, lim.maxMethods, pr);
    assert Lean(z).roots == IROf(z).roots && Lean(z).init == {} && Lean(z).goal == Empty;
    assert InitialFacts(ProblemOf(z).init) == Ok({}) && Expand(ProblemOf(z).goal, map[], objs) == Ok(Empty);
    hide FullActions, FullMethods, PrunedActions, PrunedMethods, RootNetworks, IsReachability, IROf, InitialFacts, Expand,
         MethodsOf, DomainOf, ProblemOf, GoodHazard;
    assert IsPruning(d, objs, Lean(z), lim, pr);
  }

  /** No fact is true and something is pending. */
  ghost predicate Stuck(s: Composite) {
    s.facts == {} && s.frontier.pending != map[]
  }

  lemma LeanHasNoEnd(z: Hazard, m: GroundMethod)
    requires GoodHazard(z) && m in Lean(z).methods
    ensures m == GroundStop(z) || exists i :: 0 <= i < |z.goes| && m == GroundGo(z, i)
  {
    assert m in GroundMethodsOf(z) && AllSubtasksUsable(ActionNames(DomainOf(z)), Some({}), m.subtasks);
    EndIsDropped(z);
    hide AllSubtasksUsable, DomainOf, Lean, GoodHazard;
    var k :| 0 <= k < |GroundMethodsOf(z)| && GroundMethodsOf(z)[k] == m;
    if k >= 2 {
      assert m == GroundGo(z, k - 2);
    }
  }

  lemma EndIsDropped(z: Hazard)
    requires GoodHazard(z)
    ensures !AllSubtasksUsable(ActionNames(DomainOf(z)), Some({}), z.end)
  {
    var i :| 0 <= i < |z.end| && z.end[i].task == z.action;
    BaseNameInvertsKey(z.action, []);
    assert DomainOf(z).actions[0].name == z.action;
    assert z.action in ActionNames(DomainOf(z));
    hide TaskBaseName, DomainOf, GoodHazard, ActionNames;
    assert UnreachablePrimitive(ActionNames(DomainOf(z)), Some({}), z.end[i].task);
  }

  lemma LeanHasNoAction(z: Hazard)
    ensures Lean(z).actions == []
  {
    FilterNone(IROf(z).actions, WantsAction(Pruning(None, Some({}))));
  }

  lemma LeanStaysStuck(z: Hazard, s: Composite, l: Label, s': Composite)
    requires GoodHazard(z) && Stuck(s) && Step(Lean(z), s, l, s')
    ensures Stuck(s')
  {
    match l
    case Decompose(a, m) =>
      LeanHasNoEnd(z, m);
      ChildPendingKeys(a, m.subtasks);
      if m != GroundStop(z) {
        assert ChildAddr(a, m.subtasks[0].id) in ChildAddrs(a, m.subtasks);
        assert ChildAddr(a, m.subtasks[0].id) in s'.frontier.pending;
        assert s.facts - {} + {} == s.facts;
      }
    case Execute(_, act, _) =>
      LeanHasNoAction(z);
  }

  lemma {:induction false} LeanRunIsStuck(z: Hazard, states: seq<Composite>, labels: seq<Label>, i: nat)
    requires GoodHazard(z) && Run(Lean(z), states, labels) && i <= |labels|
    ensures Stuck(states[i])
  {
    hide Lean, Step, GoodHazard;
    if i == 0 {
      LeanStartsStuck(z, states[0]);
    } else {
      LeanRunIsStuck(z, states, labels, i - 1);
      LeanStaysStuck(z, states[i - 1], labels[i - 1], states[i]);
    }
  }

  lemma LeanStartsStuck(z: Hazard, s: Composite)
    requires GoodHazard(z) && exists net :: net in Lean(z).roots && s == InitialState(Lean(z).init, net)
    ensures Stuck(s)
  {
    ChildPendingKeys("r", z.root);
    assert ChildAddr("r", z.root[0].id) in ChildAddrs("r", z.root);
    assert ChildAddr("r", z.root[0].id) in s.frontier.pending;
  }

  lemma LeanIsUnsolvable(z: Hazard)
    requires GoodHazard(z)
    ensures !GoalSolvable(Lean(z))
  {
    forall states, labels | Run(Lean(z), states, labels) ensures !Solution(Lean(z), states, labels) {
      LeanRunIsStuck(z, states, labels, |labels|);
    }
  }

  /** A solvable hazard within the vocabulary shows that pruning is not safe for it. */
  lemma HazardBreaks(z: Hazard, actions: set<Name>, heads: set<Name>, ids: Ids, repeats: bool)
    requires GoodHazard(z) && GoalSolvable(IROf(z))
    requires z.action in actions && z.head in heads
    requires IdsWithin(z.end, ids) && IdsWithin(z.root, ids) && Over(z.goes, ids)
    requires repeats || AllRepeatsAgree(DomainOf(z), ProblemOf(z))
    ensures !SafeVocabulary(actions, heads, ids, repeats)
  {
    hide *;
    HazardSpeaks(z, ids);
    HazardAccepted(z);
    LosesSolvability(z);
    OneLostInputIsUnsafe(DomainOf(z), ProblemOf(z), actions, heads, ids, repeats, z);
  }

  lemma OneLostInputIsUnsafe(
    d: Domain, p: Problem, actions: set<Name>, heads: set<Name>, ids: Ids, repeats: bool, z: Hazard)
    requires Accepted(d, p) && CleanTaskNames(d, p) && (repeats || AllRepeatsAgree(d, p)) && !KeepsSolvability(d, p)
    requires ActionNames(d) <= {z.action} <= actions && HeadNames(d) <= {z.head} <= heads && InputIds(d, p) <= ids
    ensures !SafeVocabulary(actions, heads, ids, repeats)
  {
    hide Accepted, CleanTaskNames, AllRepeatsAgree, KeepsSolvability, ActionNames, HeadNames, InputIds;
    assert Speaks(d, p, actions, heads, ids, repeats);
  }

  lemma LosesSolvability(z: Hazard)
    requires GoodHazard(z) && GoalSolvable(IROf(z))
    ensures !KeepsSolvability(DomainOf(z), ProblemOf(z))
  {
    var d, p := DomainOf(z), ProblemOf(z);
    var c := HazardClosure(z);
    var objs := IndexObjects(d, p, c);
    HazardGrounds(z, objs);
    HazardGroundsLean(z, objs);
    LeanIsUnsolvable(z);
    hide IsGrounding, IsClosure, IROf, Lean, DomainOf, ProblemOf, GoalSolvable, GoodHazard, IndexObjects;
    assert Grounds(d, p, Unpruned(LimitsFor(z)), IROf(z)) && Grounds(d, p, LimitsFor(z), Lean(z));
  }

  lemma HazardClosure(z: Hazard) returns (c: map<Name, set<Name>>)
    requires GoodHazard(z)
    ensures IsClosure(DomainOf(z), c)
  {
    var d := DomainOf(z);
    forall m | m in d.methods ensures m.params == [] {
      var k :| 0 <= k < |MethodsOf(z)| && MethodsOf(z)[k] == m;
      MethodShape(z, k);
    }
    assert KnownTypes(d) == {OBJECT};
    c := map[OBJECT := {OBJECT}];
  }

  // ---- their plans ----

  lemma EndStep(z: Hazard, states: seq<Composite>, labels: seq<Label>, a: Addr)
    returns (states': seq<Composite>, labels': seq<Label>)
    requires Run(IROf(z), states, labels)
    requires states[|labels|].facts == {} && states[|labels|].frontier.order == {}
    requires a in states[|labels|].frontier.pending && states[|labels|].frontier.pending[a] == z.head
    ensures Run(IROf(z), states', labels') && |states'| == |labels'| + 1
    ensures states'[|labels'|] == Composite(
              {"seen"}, Frontier(states[|labels|].frontier.pending - {a} + ChildPending(a, z.end), {}))
  {
    var s, m := states[|labels|], GroundEnd(z);
    var l, s' := Decompose(a, m), AfterMethod(s, a, m);
    assert GroundMethodsOf(z)[0] == m;
    assert ChildOrder(a, []) == {} && Predecessors({}, a) == {} && Successors({}, a) == {};
    assert s'.frontier.order == {};
    assert s'.facts == {"seen"};
    RunSnoc(IROf(z), states, labels, l, s');
    states', labels' := states + [s'], labels + [l];
  }

  lemma StopStep(z: Hazard, states: seq<Composite>, labels: seq<Label>, a: Addr)
    requires Run(IROf(z), states, labels)
    requires states[|labels|].facts == {"seen"} && states[|labels|].frontier == Frontier(map[a := z.head], {})
    ensures GoalSolvable(IROf(z))
  {
    var s, m := states[|labels|], GroundStop(z);
    var l, s' := Decompose(a, m), AfterMethod(s, a, m);
    assert GroundMethodsOf(z)[1] == m;
    assert ChildPending(a, []) == map[];
    assert s'.frontier.pending == map[];
    RunSnoc(IROf(z), states, labels, l, s');
    var states', labels' := states + [s'], labels + [l];
    assert GoalHolds(Empty, s'.facts);
    assert GoalSolution(IROf(z), states', labels');
  }

  lemma StartRun(z: Hazard)
    ensures Run(IROf(z), [InitialState({}, RootNetwork(z.root, []))], [])
    ensures InitialState({}, RootNetwork(z.root, [])) == Composite({}, Frontier(ChildPending("r", z.root), {}))
  {
    assert ChildOrder("r", []) == {};
    assert IROf(z).roots[0] == RootNetwork(z.root, []);
  }

  /** One root subtask, whose replacement leaves one node with the head: decompose by `end`, then by `stop`. */
  lemma OneNodeSolves(z: Hazard, s: Name)
    requires z.root == [GroundSubtask(s, z.head)]
    requires ChildPending(ChildAddr("r", s), z.end) == map[ChildAddr(ChildAddr("r", s), s) := z.head]
    ensures GoalSolvable(IROf(z))
  {
    var a := ChildAddr("r", s);
    assert z.root[..0] == [];
    assert ChildPending("r", z.root) == map[a := z.head];
    StartRun(z);
    var states, labels := EndStep(z, [InitialState({}, RootNetwork(z.root, []))], [], a);
    assert map[a := z.head] - {a} == map[];
    StopStep(z, states, labels, ChildAddr(a, s));
  }

  /** The action and the compound task have one name. */
  function SharedName(n: Name, s: Name): Hazard {
    Hazard(n, n, [GroundSubtask(s, n)], [], [GroundSubtask(s, n)])
  }

  /** The action's subtask shares its id with a later one, which takes its place. */
  function RepeatedId(a: Name, h: Name, s: Name): Hazard {
    Hazard(a, h, [GroundSubtask(s, a), GroundSubtask(s, h)], [], [GroundSubtask(s, h)])
  }

  lemma OneIdRepeatsAgree(z: Hazard, s: Name)
    requires z.end == [GroundSubtask(s, z.head)] && z.goes == [] && z.root == [GroundSubtask(s, z.head)]
    ensures AllRepeatsAgree(DomainOf(z), ProblemOf(z))
  {
  }

  /** Of the subtasks with one id the last is pending. */
  lemma LastHasHead(z: Hazard, a: Addr, s: Name)
    requires z == SharedName(z.head, s) || z == RepeatedId(z.action, z.head, s)
    ensures ChildPending(a, z.end) == map[ChildAddr(a, s) := z.head]
  {
    assert z.end[..0] == [];
    if |z.end| == 2 {
      assert z.end[..1] == [GroundSubtask(s, z.action)] && z.end[..1][..0] == [];
      assert ChildPending(a, z.end[..1]) == map[ChildAddr(a, s) := z.action];
    }
  }

  lemma HazardIsGood(z: Hazard)
    requires '(' !in z.action && '(' !in z.head && z.end != [] && z.end[0].task == z.action
    requires |z.end| == 2 ==> z.end[1].task == z.head
    requires |z.end| <= 2 && 1 <= |z.root| <= 2 && z.root[0].task == z.head
    requires |z.root| == 2 ==> z.root[1].task == z.head
    ensures GoodHazard(z)
  {
  }

  /** A name that serves as an action and as a decomposed task loses the only plan of an accepted problem. */
  lemma SharedNameLosesPlans(n: Name, s: Name, actions: set<Name>, heads: set<Name>, ids: Ids, repeats: bool)
    requires '(' !in n && n in actions && n in heads && s in ids
    ensures !SafeVocabulary(actions, heads, ids, repeats)
  {
    hide GoalSolvable, SafeVocabulary, AllRepeatsAgree, IROf, DomainOf;
    var z := SharedName(n, s);
    LastHasHead(z, ChildAddr("r", s), s);
    HazardIsGood(z);
    OneNodeSolves(z, s);
    OneIdRepeatsAgree(z, s);
    HazardBreaks(z, actions, heads, ids, repeats);
  }

  /** So does an id repeated with different tasks. */
  lemma RepeatedIdsLosePlans(act: Name, h: Name, s: Name, actions: set<Name>, heads: set<Name>, ids: Ids)
    requires '(' !in act && '(' !in h && act in actions && h in heads && s in ids
    ensures !SafeVocabulary(actions, heads, ids, true)
  {
    hide GoalSolvable, SafeVocabulary, AllRepeatsAgree, IROf, DomainOf;
    var z := RepeatedId(act, h, s);
    LastHasHead(z, ChildAddr("r", s), s);
    HazardIsGood(z);
    OneNodeSolves(z, s);
    HazardBreaks(z, actions, heads, ids, true);
  }

  /** Two root subtasks that can walk down clashing paths; `end` replaces the head by the action. */
  function AmbiguousIds(act: Name, h: Name, p: seq<Name>, q: seq<Name>): Hazard
    requires p != [] && q != []
  {
    Hazard(act, h, [GroundSubtask(p[0], act)], p + q, [GroundSubtask(p[0], h), GroundSubtask(q[0], h)])
  }

  lemma AmbiguousGoes(act: Name, h: Name, p: seq<Name>, q: seq<Name>)
    requires p != [] && q != []
    ensures HasGoes(IROf(AmbiguousIds(act, h, p, q)), h, p) && HasGoes(IROf(AmbiguousIds(act, h, p, q)), h, q + [p[0]])
  {
    var z := AmbiguousIds(act, h, p, q);
    forall i | 0 <= i < |p + q| ensures CanGo(IROf(z), h, (p + q)[i]) {
      assert GroundMethodsOf(z)[i + 2] == GroundGo(z, i) && IsGo(GroundGo(z, i), h, (p + q)[i]);
    }
    forall i | 0 <= i < |p| ensures CanGo(IROf(z), h, p[i]) {
      assert (p + q)[i] == p[i];
    }
    forall i | 0 <= i < |q| ensures CanGo(IROf(z), h, q[i]) {
      assert (p + q)[|p| + i] == q[i];
    }
  }

  lemma AmbiguousStarts(act: Name, h: Name, p: seq<Name>, q: seq<Name>)
    requires p != [] && q != [] && p[0] != q[0]
    ensures ChildPending("r", AmbiguousIds(act, h, p, q).root) == map[AddrOf(p[..1]) := h, AddrOf(q[..1]) := h]
    ensures AddrOf(p[..1]) != AddrOf(q[..1])
  {
    var sts := AmbiguousIds(act, h, p, q).root;
    assert sts[..1][..0] == [] && sts[..1] == [GroundSubtask(p[0], h)];
    assert p[..1] == [] + [p[0]] && q[..1] == [] + [q[0]];
    AddrSnoc([], p[0]);
    AddrSnoc([], q[0]);
    if AddrOf(p[..1]) == AddrOf(q[..1]) {
      ChildAddrInjective("r", p[0], q[0]);
    }
    assert ChildPending("r", sts[..1]) == map[AddrOf(p[..1]) := h];
  }

  /** The walk of the second root past the end of its path, to the node where the action waits. */
  lemma SecondWalkIsClear(p: seq<Name>, q: seq<Name>, pending: map<Addr, string>)
    requires Clash(p, q) && pending.Keys == {AddrOf(q[..1]), AddrOf(p + [p[0]])}
    ensures ClearAhead(pending, q + [p[0]], 1)
  {
    var path := q + [p[0]];
    AddrSnoc(p, p[0]);
    forall j | 1 < j < |path| ensures AddrOf(path[..j]) !in pending {
      assert path[..j] == q[..j];
      ProperPrefixDiffers(q, 1, j);
      if j < |q| {
        PrefixIsShorter(q, j);
      } else {
        assert q[..j] == q;
      }
    }
  }

  /** Where the walks start and end. */
  lemma AmbiguousNodes(p: seq<Name>, q: seq<Name>)
    requires Clash(p, q) && |q| > 1
    ensures var path := q + [p[0]];
            && path[..1] == q[..1] && AddrOf(path) == AddrOf(p + [p[0]]) == ChildAddr(AddrOf(p), p[0])
            && AddrOf(p) != AddrOf(q[..1]) && AddrOf(q[..1]) != AddrOf(path)
  {
    var path := q + [p[0]];
    ClashApart(p, q, 1);
    AddrSnoc(p, p[0]);
    AddrSnoc(q, p[0]);
    assert path[..1] == q[..1] && path[..|path|] == path;
    ProperPrefixDiffers(path, 1, |path|);
  }

  /** The pending nodes as the first root walks down and is replaced, and as the second walks down. */
  lemma AmbiguousMoves(first: Addr, start: Addr, mid: Addr, node: Addr, act: string, h: string)
    requires first != start && mid != start && start != node
    ensures MoveDown(map[first := h, start := h], first, mid, h) == map[mid := h, start := h]
    ensures map[mid := h, start := h] - {mid} + map[node := act] == map[start := h, node := act]
    ensures MoveDown(map[start := h, node := act], start, node, h) == map[node := h]
  {
  }

  lemma AmbiguousEnd(z: Hazard, p: seq<Name>, q: seq<Name>, a: Addr)
    requires p != [] && q != [] && z == AmbiguousIds(z.action, z.head, p, q)
    ensures ChildPending(a, z.end) == map[ChildAddr(a, p[0]) := z.action]
  {
    assert z.end == [GroundSubtask(p[0], z.action)] && z.end[..0] == [];
  }

  /** The first root ends in the action. */
  lemma FirstRootEnds(z: Hazard, p: seq<Name>, q: seq<Name>) returns (states: seq<Composite>, labels: seq<Label>)
    requires Clash(p, q) && |q| > 1 && z == AmbiguousIds(z.action, z.head, p, q)
    ensures Run(IROf(z), states, labels) && |states| == |labels| + 1
    ensures states[|labels|] == Composite(
              {"seen"}, Frontier(map[AddrOf(q[..1]) := z.head, AddrOf(p + [p[0]]) := z.action], {}))
  {
    assert p != [] && q != [] && p[0] != q[0];
    hide *;
    StartRun(z);
    AmbiguousStarts(z.action, z.head, p, q);
    AmbiguousGoes(z.action, z.head, p, q);
    AmbiguousNodes(p, q);
    AmbiguousEnd(z, p, q, AddrOf(p));
    FirstWalkIsClear(p, q, ChildPending("r", z.root));
    AmbiguousMoves(AddrOf(p[..1]), AddrOf(q[..1]), AddrOf(p), AddrOf(p + [p[0]]), z.action, z.head);
    states, labels := WalkDown(IROf(z), [InitialState({}, RootNetwork(z.root, []))], [], p, 1, z.head);
    states, labels := EndStep(z, states, labels, AddrOf(p));
  }

  /** The second then walks onto it and is stopped there. */
  lemma AmbiguousSolves(act: Name, h: Name, p: seq<Name>, q: seq<Name>)
    requires Clash(p, q) && |q| > 1
    ensures GoalSolvable(IROf(AmbiguousIds(act, h, p, q)))
  {
    assert p != [] && q != [];
    var z := AmbiguousIds(act, h, p, q);
    assert z.action == act && z.head == h;
    hide *;
    AmbiguousGoes(act, h, p, q);
    AmbiguousNodes(p, q);
    AmbiguousStarts(act, h, p, q);
    AmbiguousMoves(AddrOf(p[..1]), AddrOf(q[..1]), AddrOf(p), AddrOf(p + [p[0]]), act, h);
    var states, labels := FirstRootEnds(z, p, q);
    SecondWalkIsClear(p, q, states[|labels|].frontier.pending);
    states, labels := WalkDown(IROf(z), states, labels, q + [p[0]], 1, h);
    StopStep(z, states, labels, AddrOf(p + [p[0]]));
  }

  lemma FirstWalkIsClear(p: seq<Name>, q: seq<Name>, pending: map<Addr, string>)
    requires Clash(p, q) && pending.Keys == {AddrOf(p[..1]), AddrOf(q[..1])}
    ensures ClearAhead(pending, p, 1)
  {
    forall j | 1 < j < |p| ensures AddrOf(p[..j]) !in pending {
      ProperPrefixDiffers(p, 1, j);
    }
  }

  /** So do ids that join ambiguously, even if no id is repeated. */
  lemma AmbiguousIdsLosePlans(act: Name, h: Name, actions: set<Name>, heads: set<Name>, ids: Ids, repeats: bool)
    requires '(' !in act && '(' !in h && act in actions && h in heads && !Unambiguous(ids)
    ensures !SafeVocabulary(actions, heads, ids, repeats)
  {
    hide *;
    var p, q := SomeClash(ids);
    var z := AmbiguousIds(act, h, p, q);
    AmbiguousNames(act, h, p, q);
    AmbiguousIsGood(z, p, q, ids);
    AmbiguousSolves(act, h, p, q);
    HazardBreaks(z, actions, heads, ids, repeats);
  }

  lemma AmbiguousNames(act: Name, h: Name, p: seq<Name>, q: seq<Name>)
    requires p != [] && q != []
    ensures AmbiguousIds(act, h, p, q).action == act && AmbiguousIds(act, h, p, q).head == h
  {
  }

  lemma SomeClash(ids: Ids) returns (p: seq<Name>, q: seq<Name>)
    requires !Unambiguous(ids)
    ensures Over(p, ids) && Over(q, ids) && Clash(p, q) && p != [] && |q| > 1 && p[0] != q[0]
  {
    var p0, q0 :| Over(p0, ids) && Over(q0, ids) && AddrOf(p0) == AddrOf(q0) && p0 != q0;
    hide AddrOf;
    p, q := FindClash(ids, p0, q0);
    ClashIsLong(p, q);
    if |q| == 1 {
      p, q := q, p;
    }
  }

  lemma AmbiguousIsGood(z: Hazard, p: seq<Name>, q: seq<Name>, ids: Ids)
    requires p != [] && q != [] && p[0] != q[0] && z == AmbiguousIds(z.action, z.head, p, q)
    requires '(' !in z.action && '(' !in z.head && Over(p, ids) && Over(q, ids)
    ensures GoodHazard(z) && IdsWithin(z.end, ids) && IdsWithin(z.root, ids) && Over(z.goes, ids)
    ensures AllRepeatsAgree(DomainOf(z), ProblemOf(z))
  {
    HazardIsGood(z);
    hide GoodHazard;
  }

  // ---- the theorem ----

  lemma SafeInputsKeepSolvability(d: Domain, p: Problem)
    requires CleanTaskNames(d, p) && SafeToDrop(d, p)
    ensures KeepsSolvability(d, p)
  {
    hide IsGrounding, IsClosure, CleanTaskNames, SafeToDrop, GoalSolution, IndexObjects;
    forall lim: Limits, full, lean |
      lim.pruneUnreachable && Grounds(d, p, Unpruned(lim), full) && Grounds(d, p, lim, lean) && GoalSolvable(full)
      ensures GoalSolvable(lean)
    {
      var c :| IsClosure(d, c) && IsGrounding(d, p, IndexObjects(d, p, c), Unpruned(lim), full);
      var c' :| IsClosure(d, c') && IsGrounding(d, p, IndexObjects(d, p, c'), lim, lean);
      ClosureIsUnique(d, c, c');
      var states, labels :| GoalSolution(full, states, labels);
      FlagsPreserveProblem(d, p, IndexObjects(d, p, c), lim, full, lean, states, labels, 0);
    }
  }

  /** What an input over a safe vocabulary looks like. */
  lemma SpeakersAreSafe(
    d: Domain, p: Problem, actions: set<Name>, heads: set<Name>, ids: Ids, repeats: bool)
    requires Speaks(d, p, actions, heads, ids, repeats)
    requires actions == {} || heads == {} || ids == iset{} || (actions !! heads && Unambiguous(ids) && !repeats)
    ensures SafeToDrop(d, p)
  {
    hide Accepted, CleanTaskNames, Unambiguous, AllRepeatsAgree;
    if actions == {} {
      NoNamesNoActions(d);
    } else if heads == {} {
      NoHeadsNoMethods(d);
    } else if ids == iset{} {
      RootHasId(d, p);
    } else {
      FewerIdsAreUnambiguous(ids, InputIds(d, p));
      forall m | m in d.methods ensures m.task.name !in ActionNames(d) {
        assert m.task.name in HeadNames(d);
      }
    }
  }

  lemma NoNamesNoActions(d: Domain)
    ensures ActionNames(d) == {} ==> d.actions == []
  {
    if d.actions != [] {
      assert d.actions[0].name in ActionNames(d);
    }
  }

  lemma NoHeadsNoMethods(d: Domain)
    ensures HeadNames(d) == {} ==> d.methods == []
  {
    if d.methods != [] {
      assert d.methods[0].task.name in HeadNames(d);
    }
  }

  lemma RootHasId(d: Domain, p: Problem)
    requires Accepted(d, p)
    ensures p.htn.subtasks[0].id in InputIds(d, p)
  {
    assert p.htn.subtasks[0].id in SubtaskIds(p.htn.subtasks);
  }

  /**
   * Dropping methods with an unreachable primitive subtask keeps every solvable accepted problem over
   * a vocabulary solvable exactly when there is nothing to name, or no name serves both as an action
   * and as a decomposed task, subtask ids join unambiguously, and a repeated id repeats its task.
   */
  lemma SafeVocabularyIff(actions: set<Name>, heads: set<Name>, ids: Ids, repeats: bool)
    requires forall n | n in actions + heads :: '(' !in n
    ensures SafeVocabulary(actions, heads, ids, repeats)
       <==> actions == {} || heads == {} || ids == iset{} || (actions !! heads && Unambiguous(ids) && !repeats)
  {
    hide Speaks, KeepsSolvability, Unambiguous;
    if actions == {} || heads == {} || ids == iset{} || (actions !! heads && Unambiguous(ids) && !repeats) {
      forall d, p | Speaks(d, p, actions, heads, ids, repeats) ensures KeepsSolvability(d, p) {
        SpeakersAreSafe(d, p, actions, heads, ids, repeats);
        SpeakersAreClean(d, p, actions, heads, ids, repeats);
        SafeInputsKeepSolvability(d, p);
      }
    } else {
      hide SafeVocabulary;
      var act :| act in actions;
      var h :| h in heads;
      var s :| s in ids;
      if !Unambiguous(ids) {
        AmbiguousIdsLosePlans(act, h, actions, heads, ids, repeats);
      } else if repeats {
        RepeatedIdsLosePlans(act, h, s, actions, heads, ids);
      } else {
        var n :| n in actions && n in heads;
        SharedNameLosesPlans(n, s, actions, heads, ids, repeats);
      }
    }
  }

  lemma SpeakersAreClean(d: Domain, p: Problem, actions: set<Name>, heads: set<Name>, ids: Ids, repeats: bool)
    requires Speaks(d, p, actions, heads, ids, repeats)
    ensures CleanTaskNames(d, p)
  {
  }
}
