// Instantiating action and method schemas: the unpruned loops and the two kinds of pruned loops.
module Grounders {
  import opened Prelude
  import opened HddlAst
  import opened Names
  import opened Bindings
  import opened Goals
  import opened Effects

  datatype GroundAction = GroundAction(name: string, pre: GroundGoal, outcomes: seq<GroundBranch>)

  datatype GroundSubtask = GroundSubtask(id: Name, task: string)

  datatype GroundMethod = GroundMethod(
    name: string, task: string, pre: GroundGoal, effect: GroundBranch,
    subtasks: seq<GroundSubtask>, order: seq<(Name, Name)>)

  datatype RootNetwork = RootNetwork(subtasks: seq<GroundSubtask>, order: seq<(Name, Name)>)

  // ---- one instance ----

  /** The objects bound to the parameters; every enumerated binding binds them all. */
  function BoundArgs(params: seq<TypedParam>, b: Binding): seq<Name> {
    seq(|params|, i requires 0 <= i < |params| => Denotation(Var(params[i].v), b))
  }

  function ActionName(a: ActionDef, b: Binding): string {
    AtomKey(a.name, BoundArgs(a.params, b))
  }

  function BuildAction(a: ActionDef, b: Binding, objs: ObjectIndex): Result<GroundAction, GroundError> {
    var pre :- Ground(a.pre, b, objs);
    var outcomes :- OutcomesOf(a.effect, b);
    Ok(GroundAction(ActionName(a, b), pre, outcomes))
  }

  function CallName(call: TaskCall, b: Binding): Result<string, GroundError> {
    var args :- SubstTerms(call.args, b);
    Ok(AtomKey(call.name, args))
  }

  function GroundSubtasks(sts: seq<Subtask>, b: Binding): Result<seq<GroundSubtask>, GroundError> {
    if sts == [] then Ok([])
    else
      var task :- CallName(sts[0].task, b);
      var rest :- GroundSubtasks(sts[1..], b);
      Ok([GroundSubtask(sts[0].id, task)] + rest)
  }

  function OrderOf(edges: seq<OrderEdge>): seq<(Name, Name)> {
    seq(|edges|, i requires 0 <= i < |edges| => (edges[i].before, edges[i].after))
  }

  function MethodName(m: MethodDef, b: Binding): string {
    AtomKey(m.name, BoundArgs(m.params, b))
  }

  function BuildMethod(m: MethodDef, b: Binding, objs: ObjectIndex): Result<GroundMethod, GroundError> {
    var task :- CallName(m.task, b);
    var subtasks :- GroundSubtasks(m.network.subtasks, b);
    var pre :- Ground(m.pre, b, objs);
    var effect :- BranchOf(m.effect, b);
    Ok(GroundMethod(MethodName(m, b), task, pre, effect, subtasks, OrderOf(m.network.order)))
  }

  // ---- specification of a grounding loop ----

  datatype Candidate<+S> = Candidate(schema: S, b: Binding)

  function CandidatesOf<S>(schema: S, bs: seq<Binding>): seq<Candidate<S>> {
    seq(|bs|, i requires 0 <= i < |bs| => Candidate(schema, bs[i]))
  }

  /** Every schema with every binding of its parameters, in enumeration order. */
  function ActionCandidates(actions: seq<ActionDef>, objs: ObjectIndex): seq<Candidate<ActionDef>> {
    if actions == [] then []
    else CandidatesOf(actions[0], BindingsOf(actions[0].params, objs)) + ActionCandidates(actions[1..], objs)
  }

  function MethodCandidates(methods: seq<MethodDef>, objs: ObjectIndex): seq<Candidate<MethodDef>> {
    if methods == [] then []
    else CandidatesOf(methods[0], BindingsOf(methods[0].params, objs)) + MethodCandidates(methods[1..], objs)
  }

  /** Builds the kept candidates in order, refusing one more than `max`; errors stop the loop. */
  function Collect<C, G>(
    cs: seq<C>, keep: C -> Result<bool, GroundError>, build: C -> Result<G, GroundError>, max: nat, out: seq<G>)
    : Result<seq<G>, GroundError>
    decreases |cs|
  {
    if cs == [] then Ok(out)
    else
      var kept :- keep(cs[0]);
      if !kept then Collect(cs[1..], keep, build, max, out)
      else if |out| >= max then Err(LimitExceeded)
      else
        var g :- build(cs[0]);
        Collect(cs[1..], keep, build, max, out + [g])
  }

  function KeepAll<C>(): C -> Result<bool, GroundError> {
    c => Ok(true)
  }

  function ActionBuilder(objs: ObjectIndex): Candidate<ActionDef> -> Result<GroundAction, GroundError> {
    (c: Candidate<ActionDef>) => BuildAction(c.schema, c.b, objs)
  }

  function MethodBuilder(objs: ObjectIndex): Candidate<MethodDef> -> Result<GroundMethod, GroundError> {
    (c: Candidate<MethodDef>) => BuildMethod(c.schema, c.b, objs)
  }

  function FullActions(d: Domain, objs: ObjectIndex, max: nat): Result<seq<GroundAction>, GroundError> {
    Collect(ActionCandidates(d.actions, objs), KeepAll(), ActionBuilder(objs), max, [])
  }

  function FullMethods(d: Domain, objs: ObjectIndex, max: nat): Result<seq<GroundMethod>, GroundError> {
    Collect(MethodCandidates(d.methods, objs), KeepAll(), MethodBuilder(objs), max, [])
  }

  /** A pruning filter: the relevant task names and the reachable action names, each if computed. */
  datatype Pruning = Pruning(relevant: Option<set<string>>, reachable: Option<set<string>>)

  predicate Allows(names: Option<set<string>>, name: string) {
    names.Some? ==> name in names.value
  }

  predicate KeepsAction(pr: Pruning, name: string) {
    Allows(pr.relevant, name) && Allows(pr.reachable, name)
  }

  function ActionFilter(pr: Pruning): Candidate<ActionDef> -> Result<bool, GroundError> {
    (c: Candidate<ActionDef>) => Ok(KeepsAction(pr, ActionName(c.schema, c.b)))
  }

  /** A subtask named like an action that is not among the reachable ones. */
  predicate UnreachablePrimitive(actionNames: set<Name>, reachable: Option<set<string>>, task: string) {
    TaskBaseName(task) in actionNames && !Allows(reachable, task)
  }

  predicate AllSubtasksUsable(actionNames: set<Name>, reachable: Option<set<string>>, sts: seq<GroundSubtask>) {
    forall i | 0 <= i < |sts| :: !UnreachablePrimitive(actionNames, reachable, sts[i].task)
  }

  predicate KeepsMethod(pr: Pruning, actionNames: set<Name>, task: string, sts: seq<GroundSubtask>) {
    Allows(pr.relevant, task) && AllSubtasksUsable(actionNames, pr.reachable, sts)
  }

  /** The head name first; the subtasks are rendered only for a relevant head. */
  function MethodKept(pr: Pruning, actionNames: set<Name>, m: MethodDef, b: Binding): Result<bool, GroundError> {
    var task :- CallName(m.task, b);
    if !Allows(pr.relevant, task) then Ok(false)
    else
      var sts :- GroundSubtasks(m.network.subtasks, b);
      Ok(AllSubtasksUsable(actionNames, pr.reachable, sts))
  }

  function MethodFilter(pr: Pruning, actionNames: set<Name>): Candidate<MethodDef> -> Result<bool, GroundError> {
    (c: Candidate<MethodDef>) => MethodKept(pr, actionNames, c.schema, c.b)
  }

  function ActionNames(d: Domain): set<Name> {
    set a | a in d.actions :: a.name
  }

  function PrunedActions(d: Domain, objs: ObjectIndex, max: nat, pr: Pruning)
    : Result<seq<GroundAction>, GroundError>
  {
    Collect(ActionCandidates(d.actions, objs), ActionFilter(pr), ActionBuilder(objs), max, [])
  }

  function PrunedMethods(d: Domain, objs: ObjectIndex, max: nat, pr: Pruning)
    : Result<seq<GroundMethod>, GroundError>
  {
    Collect(MethodCandidates(d.methods, objs), MethodFilter(pr, ActionNames(d)), MethodBuilder(objs), max, [])
  }

  // ---- pruning is filtering ----

  /** When the unpruned loop succeeds, the pruned one succeeds and its output is the filtered output. */
  lemma {:induction false} CollectIsFilter<C, G(!new)>(
    cs: seq<C>, keep: C -> Result<bool, GroundError>, build: C -> Result<G, GroundError>, max: nat,
    all: seq<G>, out: seq<G>, wanted: G -> bool)
    requires Collect(cs, KeepAll(), build, max, all).Ok?
    requires out == Filter(all, wanted)
    requires forall c | c in cs && build(c).Ok? :: keep(c) == Ok(wanted(build(c).value))
    ensures Collect(cs, keep, build, max, out)
         == Ok(Filter(Collect(cs, KeepAll(), build, max, all).value, wanted))
    decreases |cs|
  {
    if cs != [] {
      var g := build(cs[0]).value;
      FilterAppend(all, [g], wanted);
      FilterOne(g, wanted);
      FilterLength(all, wanted);
      CollectIsFilter(cs[1..], keep, build, max, all + [g], if wanted(g) then out + [g] else out, wanted);
    }
  }

  lemma FilterOne<T(!new)>(x: T, keep: T -> bool)
    ensures Filter([x], keep) == if keep(x) then [x] else []
  {
    assert [x][1..] == [];
  }

  lemma {:induction false} FilterLength<T(!new)>(s: seq<T>, keep: T -> bool)
    ensures |Filter(s, keep)| <= |s|
  {
    if s != [] {
      FilterLength(s[1..], keep);
    }
  }

  function WantsAction(pr: Pruning): GroundAction -> bool {
    (a: GroundAction) => KeepsAction(pr, a.name)
  }

  function WantsMethod(pr: Pruning, actionNames: set<Name>): GroundMethod -> bool {
    (m: GroundMethod) => KeepsMethod(pr, actionNames, m.task, m.subtasks)
  }

  /** Pruned grounding of actions is the order-preserving filter of unpruned grounding. */
  lemma PrunedActionsAreFilter(d: Domain, objs: ObjectIndex, max: nat, pr: Pruning)
    requires FullActions(d, objs, max).Ok?
    ensures PrunedActions(d, objs, max, pr) == Ok(Filter(FullActions(d, objs, max).value, WantsAction(pr)))
  {
    CollectIsFilter(ActionCandidates(d.actions, objs), ActionFilter(pr), ActionBuilder(objs), max, [], [],
                    WantsAction(pr));
  }

  lemma NothingFiltered<G(!new)>(wanted: G -> bool)
    ensures Filter([], wanted) == []
  {
  }

  lemma MethodKeptIfWanted(pr: Pruning, actionNames: set<Name>, m: MethodDef, b: Binding, objs: ObjectIndex)
    requires BuildMethod(m, b, objs).Ok?
    ensures MethodKept(pr, actionNames, m, b) == Ok(WantsMethod(pr, actionNames)(BuildMethod(m, b, objs).value))
  {
  }

  /** Pruned grounding of methods is the order-preserving filter of unpruned grounding. */
  lemma PrunedMethodsAreFilter(d: Domain, objs: ObjectIndex, max: nat, pr: Pruning)
    requires FullMethods(d, objs, max).Ok?
    ensures PrunedMethods(d, objs, max, pr)
         == Ok(Filter(FullMethods(d, objs, max).value, WantsMethod(pr, ActionNames(d))))
  {
    hide BuildMethod, MethodKept, WantsMethod, Collect, Filter, MethodCandidates, ActionNames;
    forall c: Candidate<MethodDef> | MethodBuilder(objs)(c).Ok?
      ensures MethodFilter(pr, ActionNames(d))(c) == Ok(WantsMethod(pr, ActionNames(d))(MethodBuilder(objs)(c).value))
    {
      MethodKeptIfWanted(pr, ActionNames(d), c.schema, c.b, objs);
    }
    NothingFiltered(WantsMethod(pr, ActionNames(d)));
    CollectIsFilter(MethodCandidates(d.methods, objs), MethodFilter(pr, ActionNames(d)), MethodBuilder(objs), max,
                    [], [], WantsMethod(pr, ActionNames(d)));
  }

  // ---- skipping whole action schemas ----

  function RelevantBases(relevant: set<string>): set<Name> {
    set t | t in relevant :: TaskBaseName(t)
  }

  /** The candidates left when every schema whose name is not a base name of `relevant` is skipped. */
  function UnskippedCandidates(actions: seq<ActionDef>, objs: ObjectIndex, bases: set<Name>)
    : seq<Candidate<ActionDef>>
  {
    if actions == [] then []
    else
      (if actions[0].name in bases then CandidatesOf(actions[0], BindingsOf(actions[0].params, objs)) else [])
      + UnskippedCandidates(actions[1..], objs, bases)
  }

  lemma {:induction false} CollectSkips<C, G>(
    skipped: seq<C>, cs: seq<C>, keep: C -> Result<bool, GroundError>, build: C -> Result<G, GroundError>,
    max: nat, out: seq<G>)
    requires forall c | c in skipped :: keep(c) == Ok(false)
    ensures Collect(skipped + cs, keep, build, max, out) == Collect(cs, keep, build, max, out)
    decreases |skipped|
  {
    if skipped == [] {
      assert skipped + cs == cs;
    } else {
      assert (skipped + cs)[1..] == skipped[1..] + cs;
      CollectSkips(skipped[1..], cs, keep, build, max, out);
    }
  }

  lemma {:induction false} CollectAppend<C, G>(
    xs: seq<C>, cs: seq<C>, ds: seq<C>, keep: C -> Result<bool, GroundError>,
    build: C -> Result<G, GroundError>, max: nat, out: seq<G>)
    requires forall o :: Collect(cs, keep, build, max, o) == Collect(ds, keep, build, max, o)
    ensures Collect(xs + cs, keep, build, max, out) == Collect(xs + ds, keep, build, max, out)
    decreases |xs|
  {
    if xs == [] {
      assert xs + cs == cs && xs + ds == ds;
    } else {
      assert (xs + cs)[1..] == xs[1..] + cs && (xs + ds)[1..] == xs[1..] + ds;
      if keep(xs[0]) == Ok(false) {
        CollectAppend(xs[1..], cs, ds, keep, build, max, out);
      } else if keep(xs[0]).Ok? && |out| < max && build(xs[0]).Ok? {
        CollectAppend(xs[1..], cs, ds, keep, build, max, out + [build(xs[0]).value]);
      }
    }
  }

  /** Skipping a schema whose name no relevant task has as its base changes nothing. */
  lemma {:induction false} SkippingSchemasIsSound(
    actions: seq<ActionDef>, objs: ObjectIndex, relevant: set<string>, pr: Pruning, max: nat, out: seq<GroundAction>)
    requires pr.relevant == Some(relevant)
    requires forall a | a in actions :: '(' !in a.name
    ensures Collect(UnskippedCandidates(actions, objs, RelevantBases(relevant)), ActionFilter(pr),
                    ActionBuilder(objs), max, out)
         == Collect(ActionCandidates(actions, objs), ActionFilter(pr), ActionBuilder(objs), max, out)
    decreases |actions|
  {
    if actions != [] {
      var a, rest, bases := actions[0], actions[1..], RelevantBases(relevant);
      var mine := CandidatesOf(a, BindingsOf(a.params, objs));
      forall o {
        SkippingSchemasIsSound(rest, objs, relevant, pr, max, o);
      }
      if a.name in bases {
        CollectAppend(mine, UnskippedCandidates(rest, objs, bases), ActionCandidates(rest, objs), ActionFilter(pr),
                      ActionBuilder(objs), max, out);
      } else {
        forall c | c in mine ensures ActionFilter(pr)(c) == Ok(false) {
          BaseNameInvertsKey(a.name, BoundArgs(a.params, c.b));
          assert ActionName(c.schema, c.b) in relevant ==> a.name in bases;
        }
        CollectSkips(mine, ActionCandidates(rest, objs), ActionFilter(pr), ActionBuilder(objs), max, out);
        assert [] + UnskippedCandidates(rest, objs, bases) == UnskippedCandidates(rest, objs, bases);
      }
    }
  }

  // ---- the loops ----

  /** Takes one drawn binding off the front of the remaining candidates. */
  lemma DrawCandidate<S>(schema: S, bs: seq<Binding>, later: seq<Candidate<S>>)
    requires bs != []
    ensures (CandidatesOf(schema, bs) + later)[0] == Candidate(schema, bs[0])
    ensures (CandidatesOf(schema, bs) + later)[1..] == CandidatesOf(schema, bs[1..]) + later
  {
  }

  lemma CollectNone<C, G>(
    keep: C -> Result<bool, GroundError>, build: C -> Result<G, GroundError>, max: nat, out: seq<G>)
    ensures Collect([], keep, build, max, out) == Ok(out)
  {
  }

  /** One turn of a grounding loop. */
  lemma CollectStep<C, G>(
    cs: seq<C>, keep: C -> Result<bool, GroundError>, build: C -> Result<G, GroundError>, max: nat, out: seq<G>)
    requires cs != []
    ensures keep(cs[0]).Err? ==> Collect(cs, keep, build, max, out) == Err(keep(cs[0]).error)
    ensures keep(cs[0]) == Ok(false) ==> Collect(cs, keep, build, max, out) == Collect(cs[1..], keep, build, max, out)
    ensures keep(cs[0]) == Ok(true) && |out| >= max ==> Collect(cs, keep, build, max, out) == Err(LimitExceeded)
    ensures keep(cs[0]) == Ok(true) && |out| < max && build(cs[0]).Err? ==>
              Collect(cs, keep, build, max, out) == Err(build(cs[0]).error)
    ensures keep(cs[0]) == Ok(true) && |out| < max && build(cs[0]).Ok? ==>
              Collect(cs, keep, build, max, out) == Collect(cs[1..], keep, build, max, out + [build(cs[0]).value])
  {
  }

  /**
   * Every instance of every action schema, refused past `max`.
   * The generator is drawn from at most `max + 1` times, whatever the size of the product.
   */
  method GroundActions(d: Domain, objs: ObjectIndex, max: nat)
    returns (r: Result<seq<GroundAction>, GroundError>, ghost draws: nat)
    ensures r == FullActions(d, objs, max)
    ensures draws <= max + 1
  {
    hide BindingIter.Remaining, BindingIter.Valid, Product, Collect, BindingsOf, Ground, OutcomesOf, ActionName,
         TaskBaseName;
    var out: seq<GroundAction> := [];
    draws := 0;
    ghost var keep: Candidate<ActionDef> -> Result<bool, GroundError> := KeepAll();
    ghost var build := ActionBuilder(objs);
    ghost var target := FullActions(d, objs, max);
    for i := 0 to |d.actions|
      invariant draws == |out| <= max
      invariant Collect(ActionCandidates(d.actions[i..], objs), keep, build, max, out) == target
    {
      var action := d.actions[i];
      ghost var later := ActionCandidates(d.actions[i + 1..], objs);
      assert d.actions[i..][1..] == d.actions[i + 1..];
      var it := new BindingIter(action.params, objs);
      var done := false;
      while !done
        invariant it.Valid() && fresh(it) && fresh(it.idx)
        invariant draws == |out| <= max
        invariant Collect(CandidatesOf(action, it.Remaining()) + later, keep, build, max, out) == target
        invariant done ==> it.Remaining() == []
        decreases |it.Remaining()|, !done
      {
        ghost var bs := it.Remaining();
        var next := it.Next();
        if next.None? {
          done := true;
          continue;
        }
        DrawCandidate(action, bs, later);
        CollectStep(CandidatesOf(action, bs) + later, keep, build, max, out);
        draws := draws + 1;
        if |out| >= max {
          return Err(LimitExceeded), draws;
        }
        var pre := Ground(action.pre, next.value, objs);
        if pre.Err? {
          return Err(pre.error), draws;
        }
        var outcomes := OutcomesOf(action.effect, next.value);
        if outcomes.Err? {
          return Err(outcomes.error), draws;
        }
        out := out + [GroundAction(ActionName(action, next.value), pre.value, outcomes.value)];
      }
      assert CandidatesOf(action, []) + later == later;
    }
    CollectNone(keep, build, max, out);
    r := Ok(out);
  }

  method GroundActionsReachable(d: Domain, objs: ObjectIndex, max: nat, reachable: set<string>)
    returns (r: Result<seq<GroundAction>, GroundError>)
    ensures r == PrunedActions(d, objs, max, Pruning(None, Some(reachable)))
  {
    ghost var pr := Pruning(None, Some(reachable));
    hide BindingIter.Remaining, BindingIter.Valid, Product, Collect, BindingsOf, Ground, OutcomesOf, ActionName,
         TaskBaseName;
    var out: seq<GroundAction> := [];
    ghost var keep: Candidate<ActionDef> -> Result<bool, GroundError> := ActionFilter(pr);
    ghost var build := ActionBuilder(objs);
    ghost var target := PrunedActions(d, objs, max, pr);
    for i := 0 to |d.actions|
      invariant Collect(ActionCandidates(d.actions[i..], objs), keep, build, max, out) == target
    {
      var action := d.actions[i];
      ghost var later := ActionCandidates(d.actions[i + 1..], objs);
      assert d.actions[i..][1..] == d.actions[i + 1..];
      var it := new BindingIter(action.params, objs);
      var done := false;
      while !done
        invariant it.Valid() && fresh(it) && fresh(it.idx)
        invariant Collect(CandidatesOf(action, it.Remaining()) + later, keep, build, max, out) == target
        invariant done ==> it.Remaining() == []
        decreases |it.Remaining()|, !done
      {
        ghost var bs := it.Remaining();
        var next := it.Next();
        if next.None? {
          done := true;
          continue;
        }
        DrawCandidate(action, bs, later);
        CollectStep(CandidatesOf(action, bs) + later, keep, build, max, out);
        var name := ActionName(action, next.value);
        if name in reachable {
          if |out| >= max {
            return Err(LimitExceeded);
          }
          var pre :- Ground(action.pre, next.value, objs);
          var outcomes :- OutcomesOf(action.effect, next.value);
          out := out + [GroundAction(name, pre, outcomes)];
        }
      }
      assert CandidatesOf(action, []) + later == later;
    }
    CollectNone(keep, build, max, out);
    r := Ok(out);
  }

  method GroundActionsRelevant(
    d: Domain, objs: ObjectIndex, max: nat, relevant: set<string>, reachable: Option<set<string>>)
    returns (r: Result<seq<GroundAction>, GroundError>)
    requires forall a | a in d.actions :: '(' !in a.name
    ensures r == PrunedActions(d, objs, max, Pruning(Some(relevant), reachable))
  {
    hide BindingIter.Remaining, BindingIter.Valid, Product, Collect, RelevantBases, BindingsOf, Ground, OutcomesOf,
         ActionName, TaskBaseName;
    ghost var pr := Pruning(Some(relevant), reachable);
    var bases := RelevantBases(relevant);
    SkippingSchemasIsSound(d.actions, objs, relevant, pr, max, []);
    var out: seq<GroundAction> := [];
    ghost var keep: Candidate<ActionDef> -> Result<bool, GroundError> := ActionFilter(pr);
    ghost var build := ActionBuilder(objs);
    ghost var target := PrunedActions(d, objs, max, pr);
    for i := 0 to |d.actions|
      invariant Collect(UnskippedCandidates(d.actions[i..], objs, bases), keep, build, max, out) == target
    {
      var action := d.actions[i];
      ghost var later := UnskippedCandidates(d.actions[i + 1..], objs, bases);
      assert d.actions[i..][1..] == d.actions[i + 1..];
      if action.name !in bases {
        assert [] + later == later;
        continue;
      }
      var it := new BindingIter(action.params, objs);
      var done := false;
      while !done
        invariant it.Valid() && fresh(it) && fresh(it.idx)
        invariant Collect(CandidatesOf(action, it.Remaining()) + later, keep, build, max, out) == target
        invariant done ==> it.Remaining() == []
        decreases |it.Remaining()|, !done
      {
        ghost var bs := it.Remaining();
        var next := it.Next();
        if next.None? {
          done := true;
          continue;
        }
        DrawCandidate(action, bs, later);
        CollectStep(CandidatesOf(action, bs) + later, keep, build, max, out);
        var name := ActionName(action, next.value);
        if name in relevant && (reachable.Some? ==> name in reachable.value) {
          if |out| >= max {
            return Err(LimitExceeded);
          }
          var pre :- Ground(action.pre, next.value, objs);
          var outcomes :- OutcomesOf(action.effect, next.value);
          out := out + [GroundAction(name, pre, outcomes)];
        }
      }
      assert CandidatesOf(action, []) + later == later;
    }
    CollectNone(keep, build, max, out);
    r := Ok(out);
  }

  method GroundMethods(d: Domain, objs: ObjectIndex, max: nat)
    returns (r: Result<seq<GroundMethod>, GroundError>, ghost draws: nat)
    ensures r == FullMethods(d, objs, max)
    ensures draws <= max + 1
  {
    hide BindingIter.Remaining, BindingIter.Valid, Product, Collect, BindingsOf, Ground, BranchOf, CallName,
         GroundSubtasks, MethodName, OrderOf, TaskBaseName;
    var out: seq<GroundMethod> := [];
    draws := 0;
    ghost var keep: Candidate<MethodDef> -> Result<bool, GroundError> := KeepAll();
    ghost var build := MethodBuilder(objs);
    ghost var target := FullMethods(d, objs, max);
    for i := 0 to |d.methods|
      invariant draws == |out| <= max
      invariant Collect(MethodCandidates(d.methods[i..], objs), keep, build, max, out) == target
    {
      var m := d.methods[i];
      ghost var later := MethodCandidates(d.methods[i + 1..], objs);
      assert d.methods[i..][1..] == d.methods[i + 1..];
      var it := new BindingIter(m.params, objs);
      var done := false;
      while !done
        invariant it.Valid() && fresh(it) && fresh(it.idx)
        invariant draws == |out| <= max
        invariant Collect(CandidatesOf(m, it.Remaining()) + later, keep, build, max, out) == target
        invariant done ==> it.Remaining() == []
        decreases |it.Remaining()|, !done
      {
        ghost var bs := it.Remaining();
        var next := it.Next();
        if next.None? {
          done := true;
          continue;
        }
        DrawCandidate(m, bs, later);
        CollectStep(CandidatesOf(m, bs) + later, keep, build, max, out);
        draws := draws + 1;
        if |out| >= max {
          return Err(LimitExceeded), draws;
        }
        var built := BuildMethod(m, next.value, objs);
        if built.Err? {
          return Err(built.error), draws;
        }
        out := out + [built.value];
      }
      assert CandidatesOf(m, []) + later == later;
    }
    CollectNone(keep, build, max, out);
    r := Ok(out);
  }

  method GroundMethodsReachable(d: Domain, objs: ObjectIndex, max: nat, reachable: set<string>)
    returns (r: Result<seq<GroundMethod>, GroundError>)
    ensures r == PrunedMethods(d, objs, max, Pruning(None, Some(reachable)))
  {
    ghost var pr := Pruning(None, Some(reachable));
    var actionNames := ActionNames(d);
    hide BindingIter.Remaining, BindingIter.Valid, Product, Collect, BindingsOf, Ground, BranchOf, CallName,
         GroundSubtasks, MethodName, OrderOf, AllSubtasksUsable;
    var out: seq<GroundMethod> := [];
    ghost var keep: Candidate<MethodDef> -> Result<bool, GroundError> := MethodFilter(pr, actionNames);
    ghost var build := MethodBuilder(objs);
    ghost var target := PrunedMethods(d, objs, max, pr);
    for i := 0 to |d.methods|
      invariant Collect(MethodCandidates(d.methods[i..], objs), keep, build, max, out) == target
    {
      var m := d.methods[i];
      ghost var later := MethodCandidates(d.methods[i + 1..], objs);
      assert d.methods[i..][1..] == d.methods[i + 1..];
      var it := new BindingIter(m.params, objs);
      var done := false;
      while !done
        invariant it.Valid() && fresh(it) && fresh(it.idx)
        invariant Collect(CandidatesOf(m, it.Remaining()) + later, keep, build, max, out) == target
        invariant done ==> it.Remaining() == []
        decreases |it.Remaining()|, !done
      {
        ghost var bs := it.Remaining();
        var next := it.Next();
        if next.None? {
          done := true;
          continue;
        }
        DrawCandidate(m, bs, later);
        CollectStep(CandidatesOf(m, bs) + later, keep, build, max, out);
        var task :- CallName(m.task, next.value);
        var sts :- GroundSubtasks(m.network.subtasks, next.value);
        if AllSubtasksUsable(actionNames, Some(reachable), sts) {
          if |out| >= max {
            return Err(LimitExceeded);
          }
          var pre :- Ground(m.pre, next.value, objs);
          var effect :- BranchOf(m.effect, next.value);
          out := out + [GroundMethod(MethodName(m, next.value), task, pre, effect, sts, OrderOf(m.network.order))];
        }
      }
      assert CandidatesOf(m, []) + later == later;
    }
    CollectNone(keep, build, max, out);
    r := Ok(out);
  }

  method GroundMethodsRelevant(
    d: Domain, objs: ObjectIndex, max: nat, relevant: set<string>, reachable: Option<set<string>>)
    returns (r: Result<seq<GroundMethod>, GroundError>)
    ensures r == PrunedMethods(d, objs, max, Pruning(Some(relevant), reachable))
  {
    ghost var pr := Pruning(Some(relevant), reachable);
    var actionNames := ActionNames(d);
    hide BindingIter.Remaining, BindingIter.Valid, Product, Collect, BindingsOf, Ground, BranchOf, CallName,
         GroundSubtasks, MethodName, OrderOf, AllSubtasksUsable;
    var out: seq<GroundMethod> := [];
    ghost var keep: Candidate<MethodDef> -> Result<bool, GroundError> := MethodFilter(pr, actionNames);
    ghost var build := MethodBuilder(objs);
    ghost var target := PrunedMethods(d, objs, max, pr);
    for i := 0 to |d.methods|
      invariant Collect(MethodCandidates(d.methods[i..], objs), keep, build, max, out) == target
    {
      var m := d.methods[i];
      ghost var later := MethodCandidates(d.methods[i + 1..], objs);
      assert d.methods[i..][1..] == d.methods[i + 1..];
      var it := new BindingIter(m.params, objs);
      var done := false;
      while !done
        invariant it.Valid() && fresh(it) && fresh(it.idx)
        invariant Collect(CandidatesOf(m, it.Remaining()) + later, keep, build, max, out) == target
        invariant done ==> it.Remaining() == []
        decreases |it.Remaining()|, !done
      {
        ghost var bs := it.Remaining();
        var next := it.Next();
        if next.None? {
          done := true;
          continue;
        }
        DrawCandidate(m, bs, later);
        CollectStep(CandidatesOf(m, bs) + later, keep, build, max, out);
        var task :- CallName(m.task, next.value);
        if task !in relevant {
          continue;
        }
        var sts :- GroundSubtasks(m.network.subtasks, next.value);
        if AllSubtasksUsable(actionNames, reachable, sts) {
          if |out| >= max {
            return Err(LimitExceeded);
          }
          var pre :- Ground(m.pre, next.value, objs);
          var effect :- BranchOf(m.effect, next.value);
          out := out + [GroundMethod(MethodName(m, next.value), task, pre, effect, sts, OrderOf(m.network.order))];
        }
      }
      assert CandidatesOf(m, []) + later == later;
    }
    CollectNone(keep, build, max, out);
    r := Ok(out);
  }

  // ---- the root networks ----

  /** One root network per binding of the network's own parameters. */
  function RootNetworks(p: Problem, objs: ObjectIndex): Result<seq<RootNetwork>, GroundError> {
    RootNetworksUnder(p.htn, BindingsOf(p.htn.params, objs))
  }

  function RootNetworksUnder(net: TaskNetwork, bs: seq<Binding>): Result<seq<RootNetwork>, GroundError> {
    if bs == [] then Ok([])
    else
      var sts :- GroundSubtasks(net.subtasks, bs[0]);
      var rest :- RootNetworksUnder(net, bs[1..]);
      Ok([RootNetwork(sts, OrderOf(net.order))] + rest)
  }

  /** The i-th root network has the source's subtasks under the i-th binding and the source's order. */
  lemma {:induction false} RootNetworksAt(net: TaskNetwork, bs: seq<Binding>, i: nat)
    requires RootNetworksUnder(net, bs).Ok? && i < |bs|
    ensures var roots := RootNetworksUnder(net, bs).value;
            && |roots| == |bs|
            && GroundSubtasks(net.subtasks, bs[i]) == Ok(roots[i].subtasks) && roots[i].order == OrderOf(net.order)
  {
    if i > 0 {
      RootNetworksAt(net, bs[1..], i - 1);
    } else if |bs| > 1 {
      RootNetworksAt(net, bs[1..], 0);
    }
  }
}
