// Grounding a whole problem, with or without the two pruning passes.
module Pipeline {
  import opened Prelude
  import opened HddlAst
  import opened Names
  import opened Bindings
  import opened Goals
  import opened Effects
  import opened Grounders
  import opened Relevance
  import opened Reachability
  import opened TypeClosure
  import opened Htn
  import opened Preservation
  import opened Instances

  datatype Limits = Limits(maxActions: nat, maxMethods: nat, pruneUnreachable: bool, pruneIrrelevant: bool)

  /** Initial facts are ground: a variable is refused. */
  function InitialFacts(init: seq<Atomic>): Result<Facts, GroundError> {
    if init == [] then Ok({})
    else
      var k :- SubstAtom(init[0], map[]);
      var rest :- InitialFacts(init[1..]);
      Ok({k} + rest)
  }

  /** The initial facts are exactly the strings of the initial atoms; a variable among them is refused. */
  lemma {:induction false} InitialFactsAreTheAtoms(init: seq<Atomic>)
    ensures InitialFacts(init).Ok? <==> forall a | a in init :: forall t | t in a.args :: t.Const?
    ensures InitialFacts(init).Ok? ==>
              InitialFacts(init).value == FactsOf(set a | a in init :: GroundAtom(a.pred, Denotations(a.args, map[])))
  {
    if init != [] {
      var a, rest := init[0], init[1..];
      InitialFactsAreTheAtoms(rest);
      assert forall x :: x in init <==> x == a || x in rest;
      ConstantsOnly(a.args);
      if InitialFacts(init).Ok? {
        SubstTermsDenote(a.args, map[]);
        var one := GroundAtom(a.pred, Denotations(a.args, map[]));
        var here := set x | x in init :: GroundAtom(x.pred, Denotations(x.args, map[]));
        var there := set x | x in rest :: GroundAtom(x.pred, Denotations(x.args, map[]));
        assert here == {one} + there;
        assert FactsOf(here) == {AtomKey(one.pred, one.args)} + FactsOf(there);
      }
    }
  }

  lemma {:induction false} ConstantsOnly(ts: seq<Term>)
    ensures SubstTerms(ts, map[]).Ok? <==> forall t | t in ts :: t.Const?
  {
    if ts != [] {
      ConstantsOnly(ts[1..]);
      assert ts[0] in ts;
      assert forall t | t in ts[1..] :: t in ts;
      assert forall t | t in ts :: t == ts[0] || t in ts[1..];
      var none: Binding := map[];
      assert SubstTerm(ts[0], none).Ok? <==> ts[0].Const?;
    }
  }

  /** The pruning sets that a run of the pipeline computes for its flags. */
  ghost predicate IsPruning(d: Domain, objs: ObjectIndex, ir: GroundedIR, lim: Limits, pr: Pruning) {
    && (pr.relevant.Some? <==> lim.pruneIrrelevant)
    && (pr.reachable.Some? <==> lim.pruneUnreachable)
    && (pr.relevant.Some? ==> IsRelevance(d, objs, RootTasks(ir.roots), pr.relevant.value))
    && (pr.reachable.Some? ==> exists reach :: IsReachability(d, objs, ir.init, reach, pr.reachable.value))
  }

  /** `ir` is the problem grounded over `objs` with the limits and flags of `lim`. */
  ghost predicate IsGrounding(d: Domain, p: Problem, objs: ObjectIndex, lim: Limits, ir: GroundedIR) {
    && RootNetworks(p, objs) == Ok(ir.roots)
    && InitialFacts(p.init) == Ok(ir.init)
    && Expand(p.goal, map[], objs) == Ok(ir.goal)
    && if lim.pruneIrrelevant || lim.pruneUnreachable then
         exists pr :: IsPruning(d, objs, ir, lim, pr)
                      && PrunedActions(d, objs, lim.maxActions, pr) == Ok(ir.actions)
                      && PrunedMethods(d, objs, lim.maxMethods, pr) == Ok(ir.methods)
       else
         FullActions(d, objs, lim.maxActions) == Ok(ir.actions) && FullMethods(d, objs, lim.maxMethods) == Ok(ir.methods)
  }

  /** The problem grounds without pruning. */
  ghost predicate GroundsUnpruned(d: Domain, p: Problem, objs: ObjectIndex, lim: Limits) {
    && RootNetworks(p, objs).Ok? && InitialFacts(p.init).Ok? && Expand(p.goal, map[], objs).Ok?
    && FullActions(d, objs, lim.maxActions).Ok? && FullMethods(d, objs, lim.maxMethods).Ok?
  }

  /** The problem grounds without pruning, and reachability pruning meets no precondition too deep for it. */
  ghost predicate GroundsAnyway(d: Domain, p: Problem, objs: ObjectIndex, lim: Limits) {
    GroundsUnpruned(d, p, objs, lim) && (lim.pruneUnreachable ==> !RuleTooDeep(d, objs))
  }

  lemma ClosureIsUnique(d: Domain, c: map<Name, set<Name>>, c': map<Name, set<Name>>)
    requires IsClosure(d, c) && IsClosure(d, c')
    ensures c == c'
  {
    forall t | t in c ensures c[t] == c'[t] {
      forall u ensures u in c[t] <==> u in c'[t] {
        assert u in c[t] <==> u in KnownTypes(d) && IsSubtype(d.parents, u, t);
        assert u in c'[t] <==> u in KnownTypes(d) && IsSubtype(d.parents, u, t);
      }
    }
  }

  /** If every method instance grounds, every subtask can be rendered. */
  lemma FullMethodsRenderSubtasks(d: Domain, objs: ObjectIndex, max: nat)
    requires FullMethods(d, objs, max).Ok?
    ensures !SomeSubtaskUnbound(d, objs)
  {
    FullMethodsIff(d, objs, max);
    hide FullMethods, BindingsOf, GroundSubtasks, CallName, Ground, BranchOf;
    forall m, b | IsInstance(d, objs, m, b) ensures GroundSubtasks(m.network.subtasks, b).Ok? {
    }
  }

  /** If every instance grounds, no rule of the relaxed fixpoint fails. */
  lemma FullInstancesAreRules(d: Domain, objs: ObjectIndex, lim: Limits, e: GroundError)
    requires FullActions(d, objs, lim.maxActions).Ok? && FullMethods(d, objs, lim.maxMethods).Ok?
    ensures !RuleFails(d, objs, e)
  {
    FullActionsIff(d, objs, lim.maxActions);
    FullMethodsIff(d, objs, lim.maxMethods);
    hide FullActions, FullMethods, BindingsOf, GroundSubtasks, CallName, Ground, BranchOf, OutcomesOf;
    forall s, b | IsRule(d, objs, s, b) ensures PreOf(s, b, objs).Ok? && AddsOf(s, b).Ok? {
    }
  }

  /** Preconditions of few enough levels, an antecedent counting twice, are never too deep. */
  lemma ShallowRulesFit(d: Domain, objs: ObjectIndex)
    requires forall a | a in d.actions :: LevelsAtMost(a.pre, DEFAULT_MAX_GOAL_DEPTH)
    requires forall m | m in d.methods :: LevelsAtMost(m.pre, DEFAULT_MAX_GOAL_DEPTH)
    ensures !RuleTooDeep(d, objs)
  {
    hide BindingsOf, LevelsAtMost, HeightAtMost, FitsBudget, Ground;
    forall s, b | IsRule(d, objs, s, b) && PreOf(s, b, objs).Ok? ensures FitsBudget(PreOf(s, b, objs).value) {
      var pre := if s.FromAction? then s.a.pre else s.m.pre;
      GroundedLevels(pre, DEFAULT_MAX_GOAL_DEPTH, b, objs);
      RelaxedTest(PreOf(s, b, objs).value, {});
    }
  }

  /**
   * Grounds a problem. A successful result is the grounding described by the flags over the
   * typed object universe. A cyclic hierarchy is refused; otherwise pruning never turns a success into
   * a failure, unless reachability meets a precondition deeper than its budget.
   */
  method GroundProblem(d: Domain, p: Problem, lim: Limits) returns (r: Result<GroundedIR, GroundError>)
    requires CleanTaskNames(d, p) && forall a | a in d.actions :: '(' !in a.name
    ensures r.Ok? ==> exists c :: IsClosure(d, c) && IsGrounding(d, p, IndexObjects(d, p, c), lim, r.value)
    ensures !IsAcyclic(d) ==> r.Err? && r.error.TypeCycle?
    ensures forall c :: IsAcyclic(d) && IsClosure(d, c) && GroundsAnyway(d, p, IndexObjects(d, p, c), lim) ==> r.Ok?
  {
    hide IsAcyclic, GroundsAnyway, IsGrounding, IsClosure, IndexObjects, FullActions, FullMethods, PrunedActions,
         PrunedMethods, IsRelevance, IsReachability,
         RootNetworks, InitialFacts, Expand, SomeSubtaskUnbound, CleanTaskNames;
    var closure := BuildTypeClosure(d);
    if closure.Err? {
      return Err(closure.error);
    }
    forall c | IsClosure(d, c) ensures c == closure.value {
      ClosureIsUnique(d, c, closure.value);
    }
    var objs := IndexObjects(d, p, closure.value);
    r := GroundOver(d, p, objs, lim);
  }

  /** Grounding over a fixed object universe. */
  method GroundOver(d: Domain, p: Problem, objs: ObjectIndex, lim: Limits) returns (r: Result<GroundedIR, GroundError>)
    requires CleanTaskNames(d, p) && forall a | a in d.actions :: '(' !in a.name
    ensures r.Ok? ==> IsGrounding(d, p, objs, lim, r.value)
    ensures GroundsAnyway(d, p, objs, lim) ==> r.Ok?
  {
    hide FullActions, FullMethods, PrunedActions, PrunedMethods, IsRelevance, IsReachability,
         RootNetworks, InitialFacts, Expand, SomeSubtaskUnbound, CleanTaskNames, Pruned, RuleTooDeep, RuleFails;
    var init :- InitialFacts(p.init);
    var actions: seq<GroundAction>;
    var methods: seq<GroundMethod>;
    ghost var pr := Pruning(None, None);
    if FullMethods(d, objs, lim.maxMethods).Ok? {
      FullMethodsRenderSubtasks(d, objs, lim.maxMethods);
    }
    if GroundsAnyway(d, p, objs, lim) {
      forall e ensures !RuleFails(d, objs, e) {
        FullInstancesAreRules(d, objs, lim, e);
      }
    }
    if lim.pruneIrrelevant {
      var relevant :- ComputeTaskRelevance(d, p, objs);
      var reachable: Option<set<string>> := None;
      if lim.pruneUnreachable {
        var reached :- ComputeReachability(d, objs, init);
        reachable := Some(reached.1);
      }
      pr := Pruning(Some(relevant), reachable);
      FiltersSucceed(d, objs, lim, pr);
      actions :- GroundActionsRelevant(d, objs, lim.maxActions, relevant, reachable);
      methods :- GroundMethodsRelevant(d, objs, lim.maxMethods, relevant, reachable);
    } else if lim.pruneUnreachable {
      var reached :- ComputeReachability(d, objs, init);
      pr := Pruning(None, Some(reached.1));
      FiltersSucceed(d, objs, lim, pr);
      actions :- GroundActionsReachable(d, objs, lim.maxActions, reached.1);
      methods :- GroundMethodsReachable(d, objs, lim.maxMethods, reached.1);
    } else {
      var as', _ := GroundActions(d, objs, lim.maxActions);
      actions :- as';
      var ms, _ := GroundMethods(d, objs, lim.maxMethods);
      methods :- ms;
    }
    var roots :- RootNetworks(p, objs);
    var goal :- Expand(p.goal, map[], objs);
    r := Ok(GroundedIR(actions, methods, roots, init, goal));
    assert lim.pruneIrrelevant || lim.pruneUnreachable ==> IsPruning(d, objs, r.value, lim, pr);
  }

  lemma FiltersSucceed(d: Domain, objs: ObjectIndex, lim: Limits, pr: Pruning)
    ensures FullActions(d, objs, lim.maxActions).Ok? ==> PrunedActions(d, objs, lim.maxActions, pr).Ok?
    ensures FullMethods(d, objs, lim.maxMethods).Ok? ==> PrunedMethods(d, objs, lim.maxMethods, pr).Ok?
  {
    if FullActions(d, objs, lim.maxActions).Ok? {
      PrunedActionsAreFilter(d, objs, lim.maxActions, pr);
    }
    if FullMethods(d, objs, lim.maxMethods).Ok? {
      PrunedMethodsAreFilter(d, objs, lim.maxMethods, pr);
    }
  }

  /**
   * Two groundings of one problem, without and with pruning: the second is the filtered first.
   * Relevance alone leaves every run and every offered move as it was; with reachability too,
   * exactly the same runs complete the task network and exactly the same runs end in the goal.
   */
  lemma FlagsPreserveProblem(
    d: Domain, p: Problem, objs: ObjectIndex, lim: Limits, full: GroundedIR, lean: GroundedIR,
    states: seq<Composite>, labels: seq<Label>, maxDepth: nat)
    requires lim.pruneUnreachable ==> CleanTaskNames(d, p) && SafeToDrop(d, p)
    requires IsGrounding(d, p, objs, Limits(lim.maxActions, lim.maxMethods, false, false), full)
    requires IsGrounding(d, p, objs, lim, lean)
    ensures Solution(full, states, labels) <==> Solution(lean, states, labels)
    ensures GoalSolution(full, states, labels) <==> GoalSolution(lean, states, labels)
    ensures !lim.pruneUnreachable ==> (Run(full, states, labels) <==> Run(lean, states, labels))
    ensures !lim.pruneUnreachable && Run(full, states, labels) ==>
              forall a | a in Enabled(states[|labels|].frontier) ::
                MovesAt(lean, states[|labels|], a, maxDepth) == MovesAt(full, states[|labels|], a, maxDepth)
  {
    hide IsRelevance, IsReachability, CleanTaskNames, SafeToDrop, Run, Solution, GoalSolution, MovesAt, FullActions, FullMethods,
         PrunedActions, PrunedMethods, RootNetworks, InitialFacts, Expand;
    if lim.pruneIrrelevant || lim.pruneUnreachable {
      var pr :| IsPruning(d, objs, lean, lim, pr)
                && PrunedActions(d, objs, lim.maxActions, pr) == Ok(lean.actions)
                && PrunedMethods(d, objs, lim.maxMethods, pr) == Ok(lean.methods);
      PrunedActionsAreFilter(d, objs, lim.maxActions, pr);
      PrunedMethodsAreFilter(d, objs, lim.maxMethods, pr);
      assert lean == Pruned(d, full, pr);
      if lim.pruneUnreachable {
        var reach :| IsReachability(d, objs, lean.init, reach, pr.reachable.value);
        BothFiltersKeepPlans(d, p, objs, lim.maxActions, lim.maxMethods, full, pr.relevant, reach,
                             pr.reachable.value, states, labels);
      } else {
        RelevancePreservesProblem(d, p, objs, lim.maxActions, lim.maxMethods, full, pr.relevant.value, states, labels,
                                  maxDepth);
        RunsDecideSolutions(full, lean, states, labels);
      }
    }
  }

  /**
   * What pruning drops: with the flag for relevance, exactly the actions and methods whose task no chain of
   * decompositions leads to from a root; with the flag for reachability, exactly the actions that can never
   * fire in the relaxed problem and the methods with such an action among their subtasks.
   */
  lemma PruningDrops(d: Domain, p: Problem, objs: ObjectIndex, lim: Limits, full: GroundedIR, lean: GroundedIR)
    returns (reach: Facts, names: set<string>)
    requires IsGrounding(d, p, objs, Limits(lim.maxActions, lim.maxMethods, false, false), full)
    requires IsGrounding(d, p, objs, lim, lean)
    ensures lim.pruneUnreachable ==> IsReachability(d, objs, lean.init, reach, names)
    ensures forall g :: g in lean.actions <==>
              && g in full.actions && (lim.pruneIrrelevant ==> EndsChain(d, objs, RootTasks(lean.roots), g.name))
              && (lim.pruneUnreachable ==> g.name in names)
    ensures forall g :: g in lean.methods <==>
              && g in full.methods && (lim.pruneIrrelevant ==> EndsChain(d, objs, RootTasks(lean.roots), g.task))
              && (lim.pruneUnreachable ==> OnlyReachable(ActionNames(d), names, g.subtasks))
    ensures lean.roots == full.roots && lean.init == full.init && lean.goal == full.goal
  {
    reach, names := {}, {};
    if lim.pruneIrrelevant || lim.pruneUnreachable {
      hide IsRelevance, IsReachability, FullActions, FullMethods, PrunedActions, PrunedMethods, RootNetworks, InitialFacts,
           Expand, EndsChain, Filter, WantsAction, WantsMethod, OnlyReachable;
      var pr :| IsPruning(d, objs, lean, lim, pr)
                && PrunedActions(d, objs, lim.maxActions, pr) == Ok(lean.actions)
                && PrunedMethods(d, objs, lim.maxMethods, pr) == Ok(lean.methods);
      PrunedActionsAreFilter(d, objs, lim.maxActions, pr);
      PrunedMethodsAreFilter(d, objs, lim.maxMethods, pr);
      if lim.pruneUnreachable {
        names := pr.reachable.value;
        reach :| IsReachability(d, objs, lean.init, reach, names);
      }
      if lim.pruneIrrelevant {
        forall t ensures t in pr.relevant.value <==> EndsChain(d, objs, RootTasks(lean.roots), t) {
          RelevantIff(d, objs, RootTasks(lean.roots), pr.relevant.value, t);
        }
      }
      FilteredActions(full.actions, lean.actions, pr);
      FilteredMethods(full.methods, lean.methods, pr, ActionNames(d));
    }
  }

  lemma FilteredActions(all: seq<GroundAction>, kept: seq<GroundAction>, pr: Pruning)
    requires kept == Filter(all, WantsAction(pr))
    ensures forall g :: g in kept <==>
              && g in all && (pr.relevant.Some? ==> g.name in pr.relevant.value)
              && (pr.reachable.Some? ==> g.name in pr.reachable.value)
  {
  }

  lemma FilteredMethods(all: seq<GroundMethod>, kept: seq<GroundMethod>, pr: Pruning, actionNames: set<Name>)
    requires kept == Filter(all, WantsMethod(pr, actionNames))
    ensures forall g :: g in kept <==>
              && g in all && (pr.relevant.Some? ==> g.task in pr.relevant.value)
              && (pr.reachable.Some? ==> OnlyReachable(actionNames, pr.reachable.value, g.subtasks))
  {
    if pr.reachable.Some? {
      forall g: GroundMethod ensures AllSubtasksUsable(actionNames, pr.reachable, g.subtasks)
                                <==> OnlyReachable(actionNames, pr.reachable.value, g.subtasks) {
      }
    }
  }

  /** No subtask is named after an action that is not among `names`. */
  ghost predicate OnlyReachable(actionNames: set<Name>, names: set<string>, sts: seq<GroundSubtask>) {
    forall i | 0 <= i < |sts| && TaskBaseName(sts[i].task) in actionNames :: sts[i].task in names
  }

  lemma RunsDecideSolutions(full: GroundedIR, lean: GroundedIR, states: seq<Composite>, labels: seq<Label>)
    requires full.goal == lean.goal && (Run(full, states, labels) <==> Run(lean, states, labels))
    ensures Solution(full, states, labels) <==> Solution(lean, states, labels)
    ensures GoalSolution(full, states, labels) <==> GoalSolution(lean, states, labels)
  {
  }
}
