// Pruning before exploration: what relevance and reachability filtering preserve.
module Preservation {
  import opened Prelude
  import opened HddlAst
  import opened Names
  import opened Bindings
  import opened Goals
  import opened Effects
  import opened Grounders
  import opened Relevance
  import opened Reachability
  import opened Htn
  import opened Addresses
  import opened Validation

  /** A problem grounded without pruning, over a fixed object universe. */
  ghost predicate IsFullGrounding(d: Domain, p: Problem, objs: ObjectIndex, maxA: nat, maxM: nat, ir: GroundedIR) {
    && FullActions(d, objs, maxA) == Ok(ir.actions)
    && FullMethods(d, objs, maxM) == Ok(ir.methods)
    && RootNetworks(p, objs) == Ok(ir.roots)
  }

  /** The same problem with the pruned action and method lists. */
  function Pruned(d: Domain, ir: GroundedIR, pr: Pruning): GroundedIR {
    ir.(actions := Filter(ir.actions, WantsAction(pr)), methods := Filter(ir.methods, WantsMethod(pr, ActionNames(d))))
  }

  // ---- every ground instance comes from a schema instance ----

  lemma {:induction false} CollectMembers<C(!new), G(!new)>(
    cs: seq<C>, build: C -> Result<G, GroundError>, max: nat, out: seq<G>, g: G) returns (c: C)
    requires Collect(cs, KeepAll(), build, max, out).Ok?
    requires g in Collect(cs, KeepAll(), build, max, out).value && g !in out
    ensures c in cs && build(c) == Ok(g)
    decreases |cs|
  {
    if build(cs[0]) == Ok(g) {
      c := cs[0];
    } else {
      c := CollectMembers(cs[1..], build, max, out + [build(cs[0]).value], g);
    }
  }

  lemma {:induction false} ActionCandidateIsInstance(actions: seq<ActionDef>, objs: ObjectIndex, c: Candidate<ActionDef>)
    requires c in ActionCandidates(actions, objs)
    ensures c.schema in actions && c.b in BindingsOf(c.schema.params, objs)
  {
    if c !in CandidatesOf(actions[0], BindingsOf(actions[0].params, objs)) {
      ActionCandidateIsInstance(actions[1..], objs, c);
    }
  }

  lemma {:induction false} MethodCandidateIsInstance(methods: seq<MethodDef>, objs: ObjectIndex, c: Candidate<MethodDef>)
    requires c in MethodCandidates(methods, objs)
    ensures c.schema in methods && c.b in BindingsOf(c.schema.params, objs)
  {
    if c !in CandidatesOf(methods[0], BindingsOf(methods[0].params, objs)) {
      MethodCandidateIsInstance(methods[1..], objs, c);
    }
  }

  lemma ActionSource(d: Domain, objs: ObjectIndex, max: nat, g: GroundAction) returns (a: ActionDef, b: Binding)
    requires FullActions(d, objs, max).Ok? && g in FullActions(d, objs, max).value
    ensures a in d.actions && b in BindingsOf(a.params, objs) && BuildAction(a, b, objs) == Ok(g)
  {
    var c := CollectMembers(ActionCandidates(d.actions, objs), ActionBuilder(objs), max, [], g);
    ActionCandidateIsInstance(d.actions, objs, c);
    a, b := c.schema, c.b;
  }

  lemma MethodSource(d: Domain, objs: ObjectIndex, max: nat, g: GroundMethod) returns (m: MethodDef, b: Binding)
    requires FullMethods(d, objs, max).Ok? && g in FullMethods(d, objs, max).value
    ensures m in d.methods && b in BindingsOf(m.params, objs) && BuildMethod(m, b, objs) == Ok(g)
  {
    var c := CollectMembers(MethodCandidates(d.methods, objs), MethodBuilder(objs), max, [], g);
    MethodCandidateIsInstance(d.methods, objs, c);
    m, b := c.schema, c.b;
  }

  // ---- relevance: nothing off the decomposition paths is ever pending ----

  ghost predicate AllPendingRelevant(s: Composite, relevant: set<string>) {
    forall a | a in s.frontier.pending :: s.frontier.pending[a] in relevant
  }

  lemma {:induction false} ChildTasks(parent: Addr, sts: seq<GroundSubtask>, a: Addr)
    requires a in ChildPending(parent, sts)
    ensures ChildPending(parent, sts)[a] in TasksOf(sts)
  {
    var n := |sts| - 1;
    if a == ChildAddr(parent, sts[n].id) {
      assert sts[n].task in TasksOf(sts);
    } else {
      ChildTasks(parent, sts[..n], a);
      var i :| 0 <= i < n && sts[..n][i].task == ChildPending(parent, sts)[a];
      assert sts[i].task == ChildPending(parent, sts)[a];
    }
  }

  /** A ground method for a relevant task has only relevant subtasks. */
  lemma SubtasksOfRelevant(
    d: Domain, objs: ObjectIndex, max: nat, g: GroundMethod, relevant: set<string>)
    requires FullMethods(d, objs, max).Ok? && g in FullMethods(d, objs, max).value
    requires ClosedUnderDemand(d, objs, relevant) && g.task in relevant
    ensures TasksOf(g.subtasks) <= relevant
  {
    var m, b := MethodSource(d, objs, max, g);
    forall t | t in TasksOf(g.subtasks) ensures t in relevant {
      assert t in SubtaskNames(m, b);
      assert t in DemandedBy(m, objs, g.task);
      assert t in Demanded(d, objs, g.task);
    }
  }

  lemma StepKeepsRelevant(
    d: Domain, p: Problem, objs: ObjectIndex, maxA: nat, maxM: nat, ir: GroundedIR, relevant: set<string>,
    s: Composite, l: Label, s': Composite)
    requires IsFullGrounding(d, p, objs, maxA, maxM, ir) && ClosedUnderDemand(d, objs, relevant)
    requires Step(ir, s, l, s') && AllPendingRelevant(s, relevant)
    ensures AllPendingRelevant(s', relevant)
  {
    match l
    case Decompose(a, m) =>
      SubtasksOfRelevant(d, objs, maxM, m, relevant);
      forall x | x in s'.frontier.pending ensures s'.frontier.pending[x] in relevant {
        if x in ChildPending(a, m.subtasks) {
          ChildTasks(a, m.subtasks, x);
        }
      }
    case Execute(_, _, _) =>
  }

  lemma RootsAreRelevant(ir: GroundedIR, net: RootNetwork, relevant: set<string>)
    requires net in ir.roots && RootTasks(ir.roots) <= relevant
    ensures AllPendingRelevant(InitialState(ir.init, net), relevant)
  {
    var pending := ChildPending("r", net.subtasks);
    var k :| 0 <= k < |ir.roots| && ir.roots[k] == net;
    forall x | x in pending ensures pending[x] in relevant {
      ChildTasks("r", net.subtasks, x);
      assert pending[x] in TasksOf(ir.roots[k].subtasks);
    }
  }

  lemma {:induction false} RunStaysRelevant(
    d: Domain, p: Problem, objs: ObjectIndex, maxA: nat, maxM: nat, ir: GroundedIR, relevant: set<string>,
    states: seq<Composite>, labels: seq<Label>, i: nat)
    requires IsFullGrounding(d, p, objs, maxA, maxM, ir)
    requires RootTasks(ir.roots) <= relevant && ClosedUnderDemand(d, objs, relevant)
    requires Run(ir, states, labels) && i <= |labels|
    ensures AllPendingRelevant(states[i], relevant)
  {
    hide IsFullGrounding, ClosedUnderDemand, Step, AllPendingRelevant, RootTasks, InitialState;
    if i == 0 {
      var net :| net in ir.roots && states[0] == InitialState(ir.init, net);
      RootsAreRelevant(ir, net, relevant);
    } else {
      RunStaysRelevant(d, p, objs, maxA, maxM, ir, relevant, states, labels, i - 1);
      StepKeepsRelevant(d, p, objs, maxA, maxM, ir, relevant, states[i - 1], labels[i - 1], states[i]);
    }
  }

  lemma {:induction false} FilterTwice<T(!new)>(s: seq<T>, wanted: T -> bool, mine: T -> bool)
    requires forall x | x in s && mine(x) :: wanted(x)
    ensures Filter(Filter(s, wanted), mine) == Filter(s, mine)
  {
    if s != [] {
      FilterTwice(s[1..], wanted, mine);
      FilterAppend([s[0]], Filter(s[1..], wanted), mine);
      FilterOne(s[0], mine);
    }
  }

  /** For a relevant task the pruned lists offer the same methods and actions, in the same order. */
  lemma RelevantTaskKeepsMoves(
    d: Domain, ir: GroundedIR, relevant: set<string>, s: Composite, a: Addr, maxDepth: nat)
    requires a in s.frontier.pending && s.frontier.pending[a] in relevant
    ensures var pr := Pruning(Some(relevant), None);
            MovesAt(Pruned(d, ir, pr), s, a, maxDepth) == MovesAt(ir, s, a, maxDepth)
  {
    var pr, t := Pruning(Some(relevant), None), s.frontier.pending[a];
    FilterTwice(ir.methods, WantsMethod(pr, ActionNames(d)), ForTask(t));
    FilterTwice(ir.actions, WantsAction(pr), Named(t));
  }

  /** Any step of a pruned problem is a step of the full one. */
  lemma PrunedStepIsStep(d: Domain, ir: GroundedIR, pr: Pruning, s: Composite, l: Label, s': Composite)
    requires Step(Pruned(d, ir, pr), s, l, s')
    ensures Step(ir, s, l, s')
  {
  }

  lemma PrunedRunIsRun(d: Domain, ir: GroundedIR, pr: Pruning, states: seq<Composite>, labels: seq<Label>)
    requires Run(Pruned(d, ir, pr), states, labels)
    ensures Run(ir, states, labels)
  {
    forall i | 0 <= i < |labels| ensures Step(ir, states[i], labels[i], states[i + 1]) {
      PrunedStepIsStep(d, ir, pr, states[i], labels[i], states[i + 1]);
    }
  }

  /**
   * Relevance pruning leaves the explored problem unchanged: the runs are the same, and at the end
   * of every run each enabled node offers the same moves in the same order, or the same refusal.
   */
  lemma RelevancePreservesProblem(
    d: Domain, p: Problem, objs: ObjectIndex, maxA: nat, maxM: nat, ir: GroundedIR, relevant: set<string>,
    states: seq<Composite>, labels: seq<Label>, maxDepth: nat)
    requires IsFullGrounding(d, p, objs, maxA, maxM, ir)
    requires IsRelevance(d, objs, RootTasks(ir.roots), relevant)
    ensures var lean := Pruned(d, ir, Pruning(Some(relevant), None));
            && (Run(ir, states, labels) <==> Run(lean, states, labels))
            && (Run(ir, states, labels) ==>
                  forall a | a in Enabled(states[|labels|].frontier) ::
                    MovesAt(lean, states[|labels|], a, maxDepth) == MovesAt(ir, states[|labels|], a, maxDepth))
  {
    var pr := Pruning(Some(relevant), None);
    var lean := Pruned(d, ir, pr);
    if Run(lean, states, labels) {
      PrunedRunIsRun(d, ir, pr, states, labels);
    }
    if Run(ir, states, labels) {
      forall i | 0 <= i <= |labels| ensures AllPendingRelevant(states[i], relevant) {
        RunStaysRelevant(d, p, objs, maxA, maxM, ir, relevant, states, labels, i);
      }
      forall i | 0 <= i < |labels| ensures Step(lean, states[i], labels[i], states[i + 1]) {
        assert Step(ir, states[i], labels[i], states[i + 1]);
        assert states[i].frontier.pending[labels[i].addr] in relevant;
      }
      forall a | a in Enabled(states[|labels|].frontier)
        ensures MovesAt(lean, states[|labels|], a, maxDepth) == MovesAt(ir, states[|labels|], a, maxDepth)
      {
        RelevantTaskKeepsMoves(d, ir, relevant, states[|labels|], a, maxDepth);
      }
    }
  }

  // ---- reachability: the relaxation covers every state ----

  /** One change of the facts: an applicable action with any outcome, or an applicable method's effect. */
  ghost predicate FactStep(ir: GroundedIR, facts: Facts, facts': Facts) {
    || (exists a, i :: a in ir.actions && Eval(a.pre, facts) == Ok(true) && 0 <= i < |a.outcomes|
                       && facts' == Apply(facts, a.outcomes[i]))
    || (exists m :: m in ir.methods && Eval(m.pre, facts) == Ok(true) && facts' == Apply(facts, m.effect))
  }

  ghost predicate FactRun(ir: GroundedIR, history: seq<Facts>) {
    && history != [] && history[0] == ir.init
    && forall i | 0 <= i < |history| - 1 :: FactStep(ir, history[i], history[i + 1])
  }

  lemma ApplyWithinAdds(facts: Facts, x: GroundBranch)
    ensures Apply(facts, x) <= facts + BranchAdds(x)
  {
    forall f | f in Apply(facts, x) ensures f in facts + BranchAdds(x) {
      ApplyAddsOnly(facts, x, f);
      InConditionalAdds(x.conditional, f);
    }
  }

  lemma {:induction false} OutcomeAddsCover(xs: seq<GroundBranch>, i: nat)
    requires i < |xs|
    ensures BranchAdds(xs[i]) <= OutcomeAdds(xs)
  {
    if i > 0 {
      OutcomeAddsCover(xs[1..], i - 1);
    }
  }

  /** An applicable ground action is one that may fire in any superset, and its name is recorded. */
  lemma ApplicableActionIsReachable(
    d: Domain, objs: ObjectIndex, maxA: nat, init: Facts, reach: Facts, names: set<string>, g: GroundAction,
    facts: Facts)
    requires FullActions(d, objs, maxA).Ok? && g in FullActions(d, objs, maxA).value
    requires IsReachability(d, objs, init, reach, names)
    requires facts <= reach && Eval(g.pre, facts) == Ok(true)
    ensures g.name in names
    ensures forall i | 0 <= i < |g.outcomes| :: Apply(facts, g.outcomes[i]) <= reach
  {
    var a, b := ActionSource(d, objs, maxA, g);
    EvalFaithful(g.pre, facts, 1, DEFAULT_MAX_GOAL_DEPTH);
    ExactImpliesRelaxed(g.pre, facts, reach);
    assert IsRule(d, objs, FromAction(a), b) && MayFire(FromAction(a), b, objs, reach);
    assert NamedAction(d, objs, reach, g.name);
    assert Satisfied(FromAction(a), b, objs, reach);
    forall i | 0 <= i < |g.outcomes| ensures Apply(facts, g.outcomes[i]) <= reach {
      ApplyWithinAdds(facts, g.outcomes[i]);
      OutcomeAddsCover(g.outcomes, i);
    }
  }

  lemma ApplicableMethodStaysWithin(
    d: Domain, objs: ObjectIndex, maxM: nat, init: Facts, reach: Facts, names: set<string>, g: GroundMethod,
    facts: Facts)
    requires FullMethods(d, objs, maxM).Ok? && g in FullMethods(d, objs, maxM).value
    requires IsReachability(d, objs, init, reach, names)
    requires facts <= reach && Eval(g.pre, facts) == Ok(true)
    ensures Apply(facts, g.effect) <= reach
  {
    var m, b := MethodSource(d, objs, maxM, g);
    EvalFaithful(g.pre, facts, 1, DEFAULT_MAX_GOAL_DEPTH);
    ExactImpliesRelaxed(g.pre, facts, reach);
    assert IsRule(d, objs, FromMethod(m), b) && MayFire(FromMethod(m), b, objs, reach);
    assert Satisfied(FromMethod(m), b, objs, reach);
    ApplyWithinAdds(facts, g.effect);
  }

  /**
   * The relaxation is sound over whole histories: every fact that is ever true is relaxed-reachable,
   * and every ground action applicable in such a state is recorded.
   */
  lemma {:induction false} RelaxationCoversHistories(
    d: Domain, p: Problem, objs: ObjectIndex, maxA: nat, maxM: nat, ir: GroundedIR, reach: Facts,
    names: set<string>, history: seq<Facts>, i: nat)
    requires IsFullGrounding(d, p, objs, maxA, maxM, ir)
    requires IsReachability(d, objs, ir.init, reach, names)
    requires FactRun(ir, history) && i < |history|
    ensures history[i] <= reach
    ensures forall a | a in ir.actions && Eval(a.pre, history[i]) == Ok(true) :: a.name in names
  {
    if i > 0 {
      RelaxationCoversHistories(d, p, objs, maxA, maxM, ir, reach, names, history, i - 1);
      var facts, facts' := history[i - 1], history[i];
      assert FactStep(ir, facts, facts');
      if a, k :| a in ir.actions && Eval(a.pre, facts) == Ok(true) && 0 <= k < |a.outcomes|
                 && facts' == Apply(facts, a.outcomes[k])
      {
        ApplicableActionIsReachable(d, objs, maxA, ir.init, reach, names, a, facts);
      } else {
        var m :| m in ir.methods && Eval(m.pre, facts) == Ok(true) && facts' == Apply(facts, m.effect);
        ApplicableMethodStaysWithin(d, objs, maxM, ir.init, reach, names, m, facts);
      }
    }
    forall a | a in ir.actions && Eval(a.pre, history[i]) == Ok(true) ensures a.name in names {
      ApplicableActionIsReachable(d, objs, maxA, ir.init, reach, names, a, history[i]);
    }
  }

  /** A run of the transition system is a fact history with its task networks forgotten. */
  lemma RunIsHistory(ir: GroundedIR, states: seq<Composite>, labels: seq<Label>)
    requires Run(ir, states, labels)
    ensures FactRun(ir, seq(|states|, i requires 0 <= i < |states| => states[i].facts))
  {
    var history := seq(|states|, i requires 0 <= i < |states| => states[i].facts);
    forall i | 0 <= i < |history| - 1 ensures FactStep(ir, history[i], history[i + 1]) {
      assert Step(ir, states[i], labels[i], states[i + 1]);
    }
  }

  // ---- both filters: no plan is lost ----

  /** No method decomposes a task that has the name of an action. */
  predicate ActionsAreNotTasks(d: Domain) {
    forall m | m in d.methods :: m.task.name !in ActionNames(d)
  }

  /** Every id that a subtask of the problem or of a method carries. */
  ghost function InputIds(d: Domain, p: Problem): Ids {
    iset id | id in SubtaskIds(p.htn.subtasks) || exists m :: m in d.methods && id in SubtaskIds(m.network.subtasks)
  }

  /** A repeated id repeats its task. */
  ghost predicate RepeatsAgree(sts: seq<Subtask>) {
    forall i, j | 0 <= i < j < |sts| && sts[i].id == sts[j].id :: sts[i].task == sts[j].task
  }

  ghost predicate AllRepeatsAgree(d: Domain, p: Problem) {
    RepeatsAgree(p.htn.subtasks) && forall m | m in d.methods :: RepeatsAgree(m.network.subtasks)
  }

  /** Every position in the decomposition tree has an address of its own, and every subtask a pending node. */
  ghost predicate IdsTellApart(d: Domain, p: Problem) {
    Unambiguous(InputIds(d, p)) && AllRepeatsAgree(d, p)
  }

  ghost predicate CleanGrounding(ir: GroundedIR, ids: Ids) {
    && Unambiguous(ids) && DrawsFrom(ir, ids)
    && (forall m | m in ir.methods :: Consistent(m.subtasks))
    && (forall net | net in ir.roots :: Consistent(net.subtasks))
  }

  lemma NetworkGroundsCleanly(sts: seq<Subtask>, b: Binding, ids: Ids)
    requires GroundSubtasks(sts, b).Ok? && RepeatsAgree(sts) && forall id | id in SubtaskIds(sts) :: id in ids
    ensures IdsWithin(GroundSubtasks(sts, b).value, ids) && Consistent(GroundSubtasks(sts, b).value)
  {
    SubtasksPointwise(sts, b);
    forall i | 0 <= i < |sts| ensures sts[i].id in ids {
      assert sts[i].id in SubtaskIds(sts);
    }
  }

  lemma {:induction false} RootGroundsCleanly(net: TaskNetwork, bs: seq<Binding>, root: RootNetwork, ids: Ids)
    requires RepeatsAgree(net.subtasks) && forall id | id in SubtaskIds(net.subtasks) :: id in ids
    requires RootNetworksUnder(net, bs).Ok? && root in RootNetworksUnder(net, bs).value
    ensures IdsWithin(root.subtasks, ids) && Consistent(root.subtasks)
  {
    if root.subtasks == GroundSubtasks(net.subtasks, bs[0]).value {
      NetworkGroundsCleanly(net.subtasks, bs[0], ids);
    } else {
      RootGroundsCleanly(net, bs[1..], root, ids);
    }
  }

  /** Grounding keeps subtask ids, and gives equal tasks equal names. */
  lemma GroundingKeepsIds(d: Domain, p: Problem, objs: ObjectIndex, maxA: nat, maxM: nat, ir: GroundedIR)
    requires IsFullGrounding(d, p, objs, maxA, maxM, ir) && IdsTellApart(d, p)
    ensures CleanGrounding(ir, InputIds(d, p))
  {
    var ids := InputIds(d, p);
    forall g | g in ir.methods ensures IdsWithin(g.subtasks, ids) && Consistent(g.subtasks) {
      var m, b := MethodSource(d, objs, maxM, g);
      NetworkGroundsCleanly(m.network.subtasks, b, ids);
    }
    forall net | net in ir.roots ensures IdsWithin(net.subtasks, ids) && Consistent(net.subtasks) {
      RootGroundsCleanly(p.htn, BindingsOf(p.htn.params, objs), net, ids);
    }
  }

  ghost predicate PrimitivesReachable(d: Domain, s: Composite, names: set<string>) {
    forall a | a in s.frontier.pending && TaskBaseName(s.frontier.pending[a]) in ActionNames(d) ::
      s.frontier.pending[a] in names
  }

  /** The node consumed by a step of a run is reachable if it is primitive. */
  lemma ConsumedPrimitiveIsReachable(
    d: Domain, p: Problem, objs: ObjectIndex, maxA: nat, maxM: nat, ir: GroundedIR, reach: Facts,
    names: set<string>, states: seq<Composite>, labels: seq<Label>, i: nat)
    requires IsFullGrounding(d, p, objs, maxA, maxM, ir) && CleanTaskNames(d, p) && ActionsAreNotTasks(d)
    requires IsReachability(d, objs, ir.init, reach, names)
    requires Run(ir, states, labels) && i < |labels|
    ensures Step(ir, states[i], labels[i], states[i + 1])
    ensures var t := states[i].frontier.pending[labels[i].addr];
            TaskBaseName(t) in ActionNames(d) ==> labels[i].Execute? && t in names
  {
    hide IsReachability, CleanTaskNames, ActionNames;
    assert Step(ir, states[i], labels[i], states[i + 1]);
    match labels[i]
    case Decompose(_, m) => HeadIsNoAction(d, p, objs, maxM, m);
    case Execute(_, a, _) =>
      RunIsHistory(ir, states, labels);
      RelaxationCoversHistories(d, p, objs, maxA, maxM, ir, reach, names,
                                seq(|states|, k requires 0 <= k < |states| => states[k].facts), i);
  }

  lemma HeadIsNoAction(d: Domain, p: Problem, objs: ObjectIndex, maxM: nat, m: GroundMethod)
    requires FullMethods(d, objs, maxM).Ok? && m in FullMethods(d, objs, maxM).value
    requires CleanTaskNames(d, p) && ActionsAreNotTasks(d)
    ensures TaskBaseName(m.task) !in ActionNames(d)
  {
    var md, b := MethodSource(d, objs, maxM, m);
    BaseNameInvertsKey(md.task.name, SubstTerms(md.task.args, b).value);
  }

  /** Before the end of a plan every pending primitive is reachable: it is still to be executed. */
  lemma {:induction false} PendingPrimitivesAreReachable(
    d: Domain, p: Problem, objs: ObjectIndex, maxA: nat, maxM: nat, ir: GroundedIR, reach: Facts,
    names: set<string>, states: seq<Composite>, labels: seq<Label>, i: nat)
    requires IsFullGrounding(d, p, objs, maxA, maxM, ir) && CleanTaskNames(d, p)
    requires ActionsAreNotTasks(d) && IdsTellApart(d, p)
    requires IsReachability(d, objs, ir.init, reach, names)
    requires Solution(ir, states, labels) && i <= |labels|
    ensures PrimitivesReachable(d, states[i], names)
    decreases |labels| - i
  {
    hide IsReachability, CleanTaskNames, ActionNames, Step, FullActions, FullMethods, NoneBelow, Unambiguous, IdsTellApart,
         InputIds;
    if i < |labels| {
      var ids := InputIds(d, p);
      GroundingKeepsIds(d, p, objs, maxA, maxM, ir);
      PendingPrimitivesAreReachable(d, p, objs, maxA, maxM, ir, reach, names, states, labels, i + 1);
      RunKeepsNoneBelow(ids, ir, states, labels, i);
      ConsumedPrimitiveIsReachable(d, p, objs, maxA, maxM, ir, reach, names, states, labels, i);
      StepKeepsNoneBelow(ids, ir, states[i], labels[i], states[i + 1]);
    }
  }

  predicate NothingToDrop(d: Domain) {
    d.actions == [] || d.methods == []
  }

  /** What makes dropping methods with an unreachable primitive subtask safe. */
  ghost predicate SafeToDrop(d: Domain, p: Problem) {
    NothingToDrop(d) || (ActionsAreNotTasks(d) && IdsTellApart(d, p))
  }

  /** After a decomposition every subtask is pending, so a plan only uses methods whose primitives are reachable. */
  lemma UsedMethodIsKept(
    d: Domain, p: Problem, objs: ObjectIndex, maxA: nat, maxM: nat, ir: GroundedIR,
    reach: Facts, names: set<string>, states: seq<Composite>, labels: seq<Label>, i: nat)
    requires IsFullGrounding(d, p, objs, maxA, maxM, ir) && CleanTaskNames(d, p)
    requires ActionsAreNotTasks(d) && IdsTellApart(d, p)
    requires IsReachability(d, objs, ir.init, reach, names)
    requires Solution(ir, states, labels) && i < |labels| && labels[i].Decompose?
    ensures AllSubtasksUsable(ActionNames(d), Some(names), labels[i].m.subtasks)
  {
    hide IsReachability, IsFullGrounding, CleanTaskNames, ActionNames, NoneBelow, Unambiguous, IdsTellApart, InputIds,
         ActionsAreNotTasks;
    var ids, a, sts := InputIds(d, p), labels[i].addr, labels[i].m.subtasks;
    assert Step(ir, states[i], labels[i], states[i + 1]);
    GroundingKeepsIds(d, p, objs, maxA, maxM, ir);
    PendingPrimitivesAreReachable(d, p, objs, maxA, maxM, ir, reach, names, states, labels, i + 1);
    RunKeepsNoneBelow(ids, ir, states, labels, i);
    RefineKeepsNoneBelow(ids, states[i].frontier, a, labels[i].m);
    forall k | 0 <= k < |sts| ensures !UnreachablePrimitive(ActionNames(d), Some(names), sts[k].task) {
      LastTaskWins(a, sts, k);
      var c := ChildAddr(a, sts[k].id);
      assert c in ChildAddrs(a, sts);
      assert states[i + 1].frontier.pending[c] == sts[k].task;
    }
  }

  lemma NothingDropped(d: Domain, objs: ObjectIndex, maxM: nat, m: GroundMethod, names: set<string>)
    requires FullMethods(d, objs, maxM).Ok? && m in FullMethods(d, objs, maxM).value && NothingToDrop(d)
    ensures AllSubtasksUsable(ActionNames(d), Some(names), m.subtasks)
  {
    var md, b := MethodSource(d, objs, maxM, m);
    assert ActionNames(d) == {};
  }

  /** Each step of a plan survives both filters. */
  lemma PlanStepSurvives(
    d: Domain, p: Problem, objs: ObjectIndex, maxA: nat, maxM: nat, ir: GroundedIR, relevant: Option<set<string>>,
    reach: Facts, names: set<string>, states: seq<Composite>, labels: seq<Label>, i: nat)
    requires IsFullGrounding(d, p, objs, maxA, maxM, ir) && CleanTaskNames(d, p) && SafeToDrop(d, p)
    requires relevant.Some? ==> IsRelevance(d, objs, RootTasks(ir.roots), relevant.value)
    requires IsReachability(d, objs, ir.init, reach, names)
    requires Solution(ir, states, labels) && i < |labels|
    ensures Step(Pruned(d, ir, Pruning(relevant, Some(names))), states[i], labels[i], states[i + 1])
  {
    hide IsReachability, CleanTaskNames, ActionNames, ActionsAreNotTasks, IdsTellApart, NothingToDrop;
    var pr, l, s := Pruning(relevant, Some(names)), labels[i], states[i];
    assert Step(ir, s, l, states[i + 1]);
    assert Allows(relevant, s.frontier.pending[l.addr]) by {
      if relevant.Some? {
        RunStaysRelevant(d, p, objs, maxA, maxM, ir, relevant.value, states, labels, i);
      }
    }
    match l
    case Decompose(a, m) =>
      if NothingToDrop(d) {
        NothingDropped(d, objs, maxM, m, names);
      } else {
        UsedMethodIsKept(d, p, objs, maxA, maxM, ir, reach, names, states, labels, i);
      }
      assert WantsMethod(pr, ActionNames(d))(m);
    case Execute(_, a, _) =>
      RunIsHistory(ir, states, labels);
      RelaxationCoversHistories(d, p, objs, maxA, maxM, ir, reach, names,
                                seq(|states|, k requires 0 <= k < |states| => states[k].facts), i);
      assert WantsAction(pr)(a);
  }

  /**
   * Both filters together lose no plan and invent none: a run empties the task network, and ends in
   * the goal, over the full grounding exactly when it does over the pruned one.
   */
  lemma BothFiltersKeepPlans(
    d: Domain, p: Problem, objs: ObjectIndex, maxA: nat, maxM: nat, ir: GroundedIR, relevant: Option<set<string>>,
    reach: Facts, names: set<string>, states: seq<Composite>, labels: seq<Label>)
    requires IsFullGrounding(d, p, objs, maxA, maxM, ir) && CleanTaskNames(d, p) && SafeToDrop(d, p)
    requires relevant.Some? ==> IsRelevance(d, objs, RootTasks(ir.roots), relevant.value)
    requires IsReachability(d, objs, ir.init, reach, names)
    ensures var lean := Pruned(d, ir, Pruning(relevant, Some(names)));
            && (Solution(ir, states, labels) <==> Solution(lean, states, labels))
            && (GoalSolution(ir, states, labels) <==> GoalSolution(lean, states, labels))
  {
    hide IsReachability, IsRelevance, IsFullGrounding, CleanTaskNames, SafeToDrop, Step;
    var pr := Pruning(relevant, Some(names));
    if Solution(ir, states, labels) {
      forall i | 0 <= i < |labels| ensures Step(Pruned(d, ir, pr), states[i], labels[i], states[i + 1]) {
        PlanStepSurvives(d, p, objs, maxA, maxM, ir, relevant, reach, names, states, labels, i);
      }
    }
    if Solution(Pruned(d, ir, pr), states, labels) {
      PrunedRunIsRun(d, ir, pr, states, labels);
    }
  }

  // ---- policies ----

  /** What an agent chooses: a decomposition, or an execution whose outcome is not chosen. */
  datatype Choice = ChooseMethod(addr: Addr, m: GroundMethod) | ChooseAction(addr: Addr, a: GroundAction)

  function ChoiceOf(l: Label): Choice {
    match l
    case Decompose(a, m) => ChooseMethod(a, m)
    case Execute(a, act, _) => ChooseAction(a, act)
  }

  type Policy = Composite -> Choice

  ghost predicate Follows(policy: Policy, states: seq<Composite>, labels: seq<Label>)
    requires |states| == |labels| + 1
  {
    forall i | 0 <= i < |labels| :: ChoiceOf(labels[i]) == policy(states[i])
  }

  /** However outcomes fall, a run that follows the policy can be continued by it to an empty network in a goal state. */
  ghost predicate StrongCyclic(ir: GroundedIR, policy: Policy) {
    forall states, labels | Run(ir, states, labels) && Follows(policy, states, labels) ::
      Continues(ir, policy, states, labels)
  }

  ghost predicate Continues(ir: GroundedIR, policy: Policy, states: seq<Composite>, labels: seq<Label>) {
    exists states', labels' :: GoalSolution(ir, states', labels') && Follows(policy, states', labels')
                               && states <= states' && labels <= labels'
  }

  /** One run of a strong cyclic policy is a run of the pruned problem and can be completed there. */
  lemma PolicyRunSurvives(
    d: Domain, p: Problem, objs: ObjectIndex, maxA: nat, maxM: nat, ir: GroundedIR, relevant: Option<set<string>>,
    reach: Facts, names: set<string>, policy: Policy, states: seq<Composite>, labels: seq<Label>)
    requires IsFullGrounding(d, p, objs, maxA, maxM, ir) && CleanTaskNames(d, p) && SafeToDrop(d, p)
    requires relevant.Some? ==> IsRelevance(d, objs, RootTasks(ir.roots), relevant.value)
    requires IsReachability(d, objs, ir.init, reach, names)
    requires |states| == |labels| + 1 && Continues(ir, policy, states, labels)
    ensures var lean := Pruned(d, ir, Pruning(relevant, Some(names)));
            Run(lean, states, labels) && Continues(lean, policy, states, labels)
  {
    hide IsReachability, IsRelevance, IsFullGrounding, CleanTaskNames, SafeToDrop, Pruned, Step, Follows;
    var lean := Pruned(d, ir, Pruning(relevant, Some(names)));
    var states', labels' :| GoalSolution(ir, states', labels') && Follows(policy, states', labels')
                            && states <= states' && labels <= labels';
    BothFiltersKeepPlans(d, p, objs, maxA, maxM, ir, relevant, reach, names, states', labels');
    RunPrefix(lean, states', labels', |labels|);
    assert states'[..|labels| + 1] == states && labels'[..|labels|] == labels;
  }

  /** Where the pruned problem has a step with some choice, every step of the full problem with that choice is one of its own. */
  lemma ChosenStepIsPruned(
    d: Domain, ir: GroundedIR, pr: Pruning, s: Composite, l: Label, s': Composite, l0: Label, s0: Composite)
    requires Step(ir, s, l, s') && Step(Pruned(d, ir, pr), s, l0, s0) && ChoiceOf(l) == ChoiceOf(l0)
    ensures Step(Pruned(d, ir, pr), s, l, s')
  {
  }

  /** The next step of a completion that has not reached its end. */
  lemma NextOfCompletion(
    ir: GroundedIR, policy: Policy, states: seq<Composite>, labels: seq<Label>) returns (l: Label, s: Composite)
    requires |states| == |labels| + 1 && Continues(ir, policy, states, labels)
    requires states[|labels|].frontier.pending != map[]
    ensures Step(ir, states[|labels|], l, s) && ChoiceOf(l) == policy(states[|labels|])
  {
    var n := |labels|;
    var states', labels' :| GoalSolution(ir, states', labels') && Follows(policy, states', labels')
                            && states <= states' && labels <= labels';
    assert states'[n] == states[n];
    assert Step(ir, states'[n], labels'[n], states'[n + 1]);
    l, s := labels'[n], states'[n + 1];
  }

  lemma StepHasPending(ir: GroundedIR, s: Composite, l: Label, s': Composite)
    requires Step(ir, s, l, s')
    ensures s.frontier.pending != map[]
  {
    assert l.addr in s.frontier.pending;
  }

  /** The prefix of a run that follows a policy follows it too. */
  lemma PrefixFollows(ir: GroundedIR, policy: Policy, states: seq<Composite>, labels: seq<Label>, n: nat)
    requires Run(ir, states, labels) && Follows(policy, states, labels) && n <= |labels|
    ensures Run(ir, states[..n + 1], labels[..n]) && Follows(policy, states[..n + 1], labels[..n])
  {
    RunPrefix(ir, states, labels, n);
  }

  /** Runs of the full problem that follow a policy of the pruned one never leave the pruned problem. */
  lemma {:induction false} PolicyStaysPruned(
    d: Domain, ir: GroundedIR, pr: Pruning, policy: Policy, states: seq<Composite>, labels: seq<Label>)
    requires StrongCyclic(Pruned(d, ir, pr), policy) && Run(ir, states, labels) && Follows(policy, states, labels)
    ensures Run(Pruned(d, ir, pr), states, labels)
    decreases |labels|
  {
    hide *;
    var lean := Pruned(d, ir, pr);
    if labels == [] {
      PrunedStart(d, ir, pr, states);
    } else {
      var n := |labels| - 1;
      LastChoice(ir, policy, states, labels);
      PrefixFollows(ir, policy, states, labels, n);
      PolicyStaysPruned(d, ir, pr, policy, states[..n + 1], labels[..n]);
      StepHasPending(ir, states[n], labels[n], states[n + 1]);
      CanContinue(lean, policy, states[..n + 1], labels[..n]);
      var l0, s0 := NextOfCompletion(lean, policy, states[..n + 1], labels[..n]);
      ChosenStepIsPruned(d, ir, pr, states[n], labels[n], states[n + 1], l0, s0);
      RunSnoc(lean, states[..n + 1], labels[..n], labels[n], states[n + 1]);
      assert states[..n + 1] + [states[n + 1]] == states && labels[..n] + [labels[n]] == labels;
    }
  }

  lemma PrunedStart(d: Domain, ir: GroundedIR, pr: Pruning, states: seq<Composite>)
    requires Run(ir, states, [])
    ensures Run(Pruned(d, ir, pr), states, [])
  {
  }

  lemma LastChoice(ir: GroundedIR, policy: Policy, states: seq<Composite>, labels: seq<Label>)
    requires Run(ir, states, labels) && Follows(policy, states, labels) && labels != []
    ensures |states| == |labels| + 1
    ensures var n := |labels| - 1; Step(ir, states[n], labels[n], states[n + 1]) && ChoiceOf(labels[n]) == policy(states[n])
  {
    var n := |labels| - 1;
    assert Step(ir, states[n], labels[n], states[n + 1]);
  }

  lemma CanContinue(ir: GroundedIR, policy: Policy, states: seq<Composite>, labels: seq<Label>)
    requires StrongCyclic(ir, policy) && Run(ir, states, labels) && Follows(policy, states, labels)
    ensures Continues(ir, policy, states, labels)
  {
  }

  /** A strong cyclic policy of the pruned problem is one of the full problem, whatever was pruned. */
  lemma PrunedPoliciesLift(d: Domain, ir: GroundedIR, pr: Pruning, policy: Policy)
    requires StrongCyclic(Pruned(d, ir, pr), policy)
    ensures StrongCyclic(ir, policy)
  {
    var lean := Pruned(d, ir, pr);
    assert lean.goal == ir.goal;
    hide Pruned, Step, Follows, Run, GoalHolds;
    forall states, labels | Run(ir, states, labels) && Follows(policy, states, labels)
      ensures Continues(ir, policy, states, labels)
    {
      PolicyStaysPruned(d, ir, pr, policy, states, labels);
      var states', labels' :| GoalSolution(lean, states', labels') && Follows(policy, states', labels')
                              && states <= states' && labels <= labels';
      PrunedRunIsRun(d, ir, pr, states', labels');
      assert GoalSolution(ir, states', labels');
    }
  }

  /**
   * The strong cyclic policies of the full problem are those of the pruned one, and they have the same
   * runs in both.
   */
  lemma StrongCyclicPoliciesSurvive(
    d: Domain, p: Problem, objs: ObjectIndex, maxA: nat, maxM: nat, ir: GroundedIR, relevant: Option<set<string>>,
    reach: Facts, names: set<string>, policy: Policy)
    requires IsFullGrounding(d, p, objs, maxA, maxM, ir) && CleanTaskNames(d, p) && SafeToDrop(d, p)
    requires relevant.Some? ==> IsRelevance(d, objs, RootTasks(ir.roots), relevant.value)
    requires IsReachability(d, objs, ir.init, reach, names)
    ensures var lean := Pruned(d, ir, Pruning(relevant, Some(names)));
            && (StrongCyclic(ir, policy) <==> StrongCyclic(lean, policy))
            && (StrongCyclic(ir, policy) ==>
                  forall states, labels | |states| == |labels| + 1 && Follows(policy, states, labels) ::
                    Run(ir, states, labels) <==> Run(lean, states, labels))
  {
    hide IsReachability, IsRelevance, IsFullGrounding, CleanTaskNames, SafeToDrop, Pruned, Step, Follows, Continues;
    var pr := Pruning(relevant, Some(names));
    var lean := Pruned(d, ir, pr);
    forall states, labels | Run(lean, states, labels) ensures Run(ir, states, labels) {
      PrunedRunIsRun(d, ir, pr, states, labels);
    }
    if StrongCyclic(ir, policy) {
      forall states, labels | Run(ir, states, labels) && Follows(policy, states, labels)
        ensures Run(lean, states, labels) && Continues(lean, policy, states, labels)
      {
        PolicyRunSurvives(d, p, objs, maxA, maxM, ir, relevant, reach, names, policy, states, labels);
      }
    }
    if StrongCyclic(lean, policy) {
      PrunedPoliciesLift(d, ir, pr, policy);
    }
  }
}
