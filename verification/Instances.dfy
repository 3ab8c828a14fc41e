// What grounding lists, in terms of the objects that parameters are bound to, and when it refuses.
module Instances {
  import opened Prelude
  import opened HddlAst
  import opened Names
  import opened Bindings
  import opened Goals
  import opened Effects
  import opened Grounders
  import opened Relevance
  import opened Preservation

  // ---- instances ----

  /** The binding gives these objects to the parameters, in order. */
  ghost predicate GivesArgs(params: seq<TypedParam>, b: Binding, os: seq<Name>) {
    |os| == |params| && forall i | 0 <= i < |params| :: params[i].v in b && b[params[i].v] == os[i]
  }

  /** The ground action that `a` becomes under `b`, which binds its parameters to `os`. */
  ghost predicate IsActionInstance(a: ActionDef, b: Binding, os: seq<Name>, objs: ObjectIndex, g: GroundAction) {
    && GivesArgs(a.params, b, os) && g.name == AtomKey(a.name, os)
    && Ground(a.pre, b, objs) == Ok(g.pre) && OutcomesOf(a.effect, b) == Ok(g.outcomes)
  }

  /** The task that a call names under a binding of its variables. */
  ghost predicate CallMeans(call: TaskCall, b: Binding, task: string) {
    && (forall t | t in call.args && t.Var? :: t.v in b)
    && task == AtomKey(call.name, Denotations(call.args, b))
  }

  /** Each subtask with its own id, and the task that its call names. */
  ghost predicate SubtasksMean(sts: seq<Subtask>, b: Binding, gs: seq<GroundSubtask>) {
    |gs| == |sts| && forall k | 0 <= k < |sts| :: gs[k].id == sts[k].id && CallMeans(sts[k].task, b, gs[k].task)
  }

  ghost predicate OrderMeans(edges: seq<OrderEdge>, order: seq<(Name, Name)>) {
    |order| == |edges| && forall k | 0 <= k < |edges| :: order[k] == (edges[k].before, edges[k].after)
  }

  ghost predicate IsMethodInstance(m: MethodDef, b: Binding, os: seq<Name>, objs: ObjectIndex, g: GroundMethod) {
    && GivesArgs(m.params, b, os) && g.name == AtomKey(m.name, os) && CallMeans(m.task, b, g.task)
    && Ground(m.pre, b, objs) == Ok(g.pre) && BranchOf(m.effect, b) == Ok(g.effect)
    && SubtasksMean(m.network.subtasks, b, g.subtasks) && OrderMeans(m.network.order, g.order)
  }

  lemma EnumeratedBindsAll(params: seq<TypedParam>, objs: ObjectIndex, b: Binding)
    requires b in BindingsOf(params, objs)
    ensures GivesArgs(params, b, BoundArgs(params, b))
    ensures forall os | GivesArgs(params, b, os) :: os == BoundArgs(params, b)
  {
    ProductKeys(VarsOf(params), ChoicesOf(params, objs), b);
    VarsAre(params);
    hide Product;
    assert forall i | 0 <= i < |params| :: params[i] in params;
  }

  lemma {:induction false} TermsSubstitute(ts: seq<Term>, b: Binding)
    ensures SubstTerms(ts, b).Ok? <==> forall t | t in ts && t.Var? :: t.v in b
  {
    if ts != [] {
      TermsSubstitute(ts[1..], b);
      assert ts[0] in ts;
      assert forall t :: t in ts <==> t == ts[0] || t in ts[1..];
    }
  }

  /** The refusal names the first variable without a binding. */
  lemma {:induction false} FirstUnbound(ts: seq<Term>, b: Binding, i: nat)
    requires i < |ts| && ts[i].Var? && ts[i].v !in b && forall j | 0 <= j < i :: ts[j].Const? || ts[j].v in b
    ensures SubstTerms(ts, b) == Err(UnboundVariable(ts[i].v))
  {
    if i > 0 {
      assert forall j | 0 <= j < i - 1 :: ts[1..][j] == ts[j + 1];
      FirstUnbound(ts[1..], b, i - 1);
    }
  }

  lemma CallIsMeant(call: TaskCall, b: Binding, task: string)
    ensures CallName(call, b) == Ok(task) <==> CallMeans(call, b, task)
  {
    TermsSubstitute(call.args, b);
    if SubstTerms(call.args, b).Ok? {
      SubstTermsDenote(call.args, b);
    }
    hide SubstTerms, Denotations, AtomKey;
  }

  lemma ActionIsInstance(a: ActionDef, b: Binding, objs: ObjectIndex, g: GroundAction)
    requires b in BindingsOf(a.params, objs)
    ensures BuildAction(a, b, objs) == Ok(g) <==> exists os :: IsActionInstance(a, b, os, objs, g)
  {
    EnumeratedBindsAll(a.params, objs, b);
    hide BindingsOf, Ground, OutcomesOf, AtomKey, GivesArgs, BoundArgs;
    if BuildAction(a, b, objs) == Ok(g) {
      assert IsActionInstance(a, b, BoundArgs(a.params, b), objs, g);
    }
  }

  lemma SubtasksAreMeant(sts: seq<Subtask>, b: Binding, gs: seq<GroundSubtask>)
    ensures GroundSubtasks(sts, b) == Ok(gs) <==> SubtasksMean(sts, b, gs)
  {
    SubtasksPointwise(sts, b);
    hide GroundSubtasks, CallName, CallMeans;
    forall k, task | 0 <= k < |sts| ensures CallName(sts[k].task, b) == Ok(task) <==> CallMeans(sts[k].task, b, task) {
      CallIsMeant(sts[k].task, b, task);
    }
    if SubtasksMean(sts, b, gs) {
      forall k | 0 <= k < |sts|
        ensures gs[k] == GroundSubtask(sts[k].id, gs[k].task) && CallName(sts[k].task, b) == Ok(gs[k].task)
      {
      }
      assert gs == GroundSubtasks(sts, b).value;
    }
  }

  lemma OrderIsMeant(edges: seq<OrderEdge>, order: seq<(Name, Name)>)
    ensures order == OrderOf(edges) <==> OrderMeans(edges, order)
  {
  }

  lemma MethodIsInstance(m: MethodDef, b: Binding, objs: ObjectIndex, g: GroundMethod)
    requires b in BindingsOf(m.params, objs)
    ensures BuildMethod(m, b, objs) == Ok(g) <==> exists os :: IsMethodInstance(m, b, os, objs, g)
  {
    EnumeratedBindsAll(m.params, objs, b);
    CallIsMeant(m.task, b, g.task);
    SubtasksAreMeant(m.network.subtasks, b, g.subtasks);
    OrderIsMeant(m.network.order, g.order);
    hide BindingsOf, Ground, BranchOf, AtomKey, GivesArgs, BoundArgs, CallMeans, CallName, SubtasksMean, GroundSubtasks,
         OrderMeans, OrderOf;
    if BuildMethod(m, b, objs) == Ok(g) {
      assert IsMethodInstance(m, b, BoundArgs(m.params, b), objs, g);
    }
  }

  // ---- the grounding loop ----

  /** With nothing filtered, the loop succeeds exactly when the candidates fit the limit and all build, and lists them in order. */
  lemma {:induction false} CollectAllIff<C(!new), G(!new)>(
    cs: seq<C>, build: C -> Result<G, GroundError>, max: nat, out: seq<G>)
    ensures var r := Collect(cs, KeepAll(), build, max, out);
            && (r.Ok? <==> (cs == [] || |out| + |cs| <= max) && forall c | c in cs :: build(c).Ok?)
            && (r.Ok? ==> |r.value| == |out| + |cs| && r.value[..|out|] == out
                          && forall i | 0 <= i < |cs| :: build(cs[i]) == Ok(r.value[|out| + i]))
    decreases |cs|
  {
    if cs != [] {
      assert cs[0] in cs && forall c :: c in cs <==> c == cs[0] || c in cs[1..];
      if |out| < max && build(cs[0]).Ok? {
        CollectAllIff(cs[1..], build, max, out + [build(cs[0]).value]);
        var r := Collect(cs, KeepAll(), build, max, out);
        if r.Ok? {
          assert r.value[..|out| + 1][..|out|] == r.value[..|out|];
          forall i | 0 <= i < |cs| ensures build(cs[i]) == Ok(r.value[|out| + i]) {
            if i == 0 {
              assert r.value[..|out| + 1][|out|] == r.value[|out|];
            } else {
              assert cs[i] == cs[1..][i - 1];
            }
          }
        }
      }
    }
  }

  /** The first candidate that is one too many or does not build decides the refusal. */
  lemma {:induction false} CollectAllFails<C(!new), G>(
    cs: seq<C>, build: C -> Result<G, GroundError>, max: nat, out: seq<G>) returns (i: nat)
    requires Collect(cs, KeepAll(), build, max, out).Err?
    ensures i < |cs| && (forall j | 0 <= j < i :: build(cs[j]).Ok? && |out| + j < max)
    ensures if |out| + i >= max then Collect(cs, KeepAll(), build, max, out).error == LimitExceeded
            else build(cs[i]) == Err(Collect(cs, KeepAll(), build, max, out).error)
    decreases |cs|
  {
    if |out| >= max || build(cs[0]).Err? {
      i := 0;
    } else {
      var k := CollectAllFails(cs[1..], build, max, out + [build(cs[0]).value]);
      i := k + 1;
      forall j | 0 <= j < i ensures build(cs[j]).Ok? && |out| + j < max {
        if j > 0 {
          assert cs[j] == cs[1..][j - 1];
        }
      }
    }
  }

  function KeptBy<C(!new)>(keep: C -> Result<bool, GroundError>): C -> bool {
    c => keep(c) == Ok(true)
  }

  /** Filtering first: the loop is the unfiltered one over what is kept, if the filter always has an answer. */
  lemma {:induction false} CollectKept<C(!new), G>(
    cs: seq<C>, keep: C -> Result<bool, GroundError>, build: C -> Result<G, GroundError>, max: nat, out: seq<G>)
    requires forall c | c in cs :: keep(c).Ok?
    ensures Collect(cs, keep, build, max, out) == Collect(Filter(cs, KeptBy(keep)), KeepAll(), build, max, out)
    decreases |cs|
  {
    if cs != [] {
      assert cs[0] in cs;
      var kept := KeptBy(keep);
      if keep(cs[0]).value {
        assert Filter(cs, kept) == [cs[0]] + Filter(cs[1..], kept);
        assert Filter(cs, kept)[1..] == Filter(cs[1..], kept);
        if |out| < max && build(cs[0]).Ok? {
          CollectKept(cs[1..], keep, build, max, out + [build(cs[0]).value]);
        }
      } else {
        CollectKept(cs[1..], keep, build, max, out);
      }
    }
  }

  lemma {:induction false} ActionInstanceIsCandidate(actions: seq<ActionDef>, objs: ObjectIndex, c: Candidate<ActionDef>)
    ensures c in ActionCandidates(actions, objs) <==> c.schema in actions && c.b in BindingsOf(c.schema.params, objs)
  {
    if actions != [] {
      ActionInstanceIsCandidate(actions[1..], objs, c);
      InCandidates(actions[0], BindingsOf(actions[0].params, objs), c);
      hide BindingsOf;
      assert forall a :: a in actions <==> a == actions[0] || a in actions[1..];
    }
  }

  lemma {:induction false} MethodInstanceIsCandidate(methods: seq<MethodDef>, objs: ObjectIndex, c: Candidate<MethodDef>)
    ensures c in MethodCandidates(methods, objs) <==> c.schema in methods && c.b in BindingsOf(c.schema.params, objs)
  {
    if methods != [] {
      MethodInstanceIsCandidate(methods[1..], objs, c);
      InCandidates(methods[0], BindingsOf(methods[0].params, objs), c);
      hide BindingsOf;
      assert forall m :: m in methods <==> m == methods[0] || m in methods[1..];
    }
  }

  lemma InCandidates<S>(schema: S, bs: seq<Binding>, c: Candidate<S>)
    ensures c in CandidatesOf(schema, bs) <==> c.schema == schema && c.b in bs
  {
    if c.schema == schema && c.b in bs {
      var i :| 0 <= i < |bs| && bs[i] == c.b;
      assert CandidatesOf(schema, bs)[i] == c;
    }
  }

  /** The number of instances of the first schemas with these parameter lists: the sizes of their products added up. */
  function InstanceCount(params: seq<seq<TypedParam>>, objs: ObjectIndex): nat {
    if params == [] then 0
    else InstanceCount(params[..|params| - 1], objs) + Combinations(params[|params| - 1], objs)
  }

  /** One choice of an object for each parameter. */
  function Combinations(params: seq<TypedParam>, objs: ObjectIndex): nat {
    if params == [] then 1 else |ObjectsOf(objs, params[0].ty)| * Combinations(params[1..], objs)
  }

  lemma {:induction false} CombinationsSnoc(params: seq<TypedParam>, x: TypedParam, objs: ObjectIndex)
    ensures Combinations(params + [x], objs) == Combinations(params, objs) * |ObjectsOf(objs, x.ty)|
  {
    if params == [] {
      assert [] + [x] == [x] && [x][1..] == [];
    } else {
      assert (params + [x])[1..] == params[1..] + [x];
      CombinationsSnoc(params[1..], x, objs);
      Associate(|ObjectsOf(objs, params[0].ty)|, Combinations(params[1..], objs), |ObjectsOf(objs, x.ty)|);
    }
  }

  lemma Associate(a: nat, b: nat, c: nat)
    ensures a * (b * c) == (a * b) * c
  {
  }

  lemma {:induction false} CombinationsAreBindings(params: seq<TypedParam>, objs: ObjectIndex)
    ensures |BindingsOf(params, objs)| == Combinations(params, objs)
  {
    ProductLength(VarsOf(params), ChoicesOf(params, objs));
    CombinationsAreTuples(params, objs);
  }

  lemma {:induction false} CombinationsAreTuples(params: seq<TypedParam>, objs: ObjectIndex)
    ensures Size(ChoicesOf(params, objs)) == Combinations(params, objs)
  {
    if params != [] {
      var n := |params| - 1;
      CombinationsAreTuples(params[..n], objs);
      CombinationsSnoc(params[..n], params[n], objs);
      assert params == params[..n] + [params[n]];
      assert ChoicesOf(params, objs)[..n] == ChoicesOf(params[..n], objs);
    }
  }

  function ActionParams(actions: seq<ActionDef>): seq<seq<TypedParam>> {
    seq(|actions|, i requires 0 <= i < |actions| => actions[i].params)
  }

  function MethodParams(methods: seq<MethodDef>): seq<seq<TypedParam>> {
    seq(|methods|, i requires 0 <= i < |methods| => methods[i].params)
  }

  lemma {:induction false} CountCons(p: seq<TypedParam>, ps: seq<seq<TypedParam>>, objs: ObjectIndex)
    ensures InstanceCount([p] + ps, objs) == Combinations(p, objs) + InstanceCount(ps, objs)
  {
    hide Combinations;
    if ps == [] {
      assert [p] + ps == [p] && [p][..0] == [];
    } else {
      var n := |ps| - 1;
      CountCons(p, ps[..n], objs);
      assert ([p] + ps)[..n + 1] == [p] + ps[..n];
    }
  }

  lemma FirstCandidates<S>(schema: S, bs: seq<Binding>, k: nat)
    ensures |CandidatesOf(schema, bs)| == |bs|
    ensures k < |bs| ==> CandidatesOf(schema, bs)[k] == Candidate(schema, bs[k])
  {
  }

  lemma NothingCounted(objs: ObjectIndex)
    ensures InstanceCount([], objs) == 0
  {
  }

  lemma {:induction false} ActionCandidateCount(actions: seq<ActionDef>, objs: ObjectIndex)
    ensures |ActionCandidates(actions, objs)| == InstanceCount(ActionParams(actions), objs)
  {
    if actions != [] {
      ActionCandidateCount(actions[1..], objs);
      CombinationsAreBindings(actions[0].params, objs);
      CountCons(actions[0].params, ActionParams(actions[1..]), objs);
      assert ActionParams(actions) == [actions[0].params] + ActionParams(actions[1..]);
      hide BindingsOf, Combinations, InstanceCount;
    }
  }

  lemma ActionParamsPrefix(actions: seq<ActionDef>, i: nat)
    requires i <= |actions|
    ensures |ActionParams(actions)| == |actions|
    ensures i == 0 ==> ActionParams(actions)[..i] == []
    ensures i > 0 ==> ActionParams(actions)[..i] == [actions[0].params] + ActionParams(actions[1..])[..i - 1]
  {
  }

  lemma ActionCandidatesCons(actions: seq<ActionDef>, objs: ObjectIndex)
    requires actions != []
    ensures ActionCandidates(actions, objs)
         == CandidatesOf(actions[0], BindingsOf(actions[0].params, objs)) + ActionCandidates(actions[1..], objs)
  {
  }

  /** Declaration by declaration, and within one in the order of the bindings. */
  lemma {:induction false} ActionCandidateAt(actions: seq<ActionDef>, objs: ObjectIndex, i: nat, k: nat)
    requires i < |actions| && k < |BindingsOf(actions[i].params, objs)|
    ensures |ActionParams(actions)| == |actions|
    ensures var n := InstanceCount(ActionParams(actions)[..i], objs) + k;
            && n < |ActionCandidates(actions, objs)|
            && ActionCandidates(actions, objs)[n] == Candidate(actions[i], BindingsOf(actions[i].params, objs)[k])
  {
    hide *;
    var p, rest := actions[0].params, actions[1..];
    CombinationsAreBindings(p, objs);
    ActionCandidatesCons(actions, objs);
    ActionParamsPrefix(actions, i);
    FirstCandidates(actions[0], BindingsOf(p, objs), k);
    if i > 0 {
      ActionParamsPrefix(rest, i - 1);
      ActionCandidateAt(rest, objs, i - 1, k);
      CountCons(p, ActionParams(rest)[..i - 1], objs);
      assert actions[i] == rest[i - 1];
    } else {
      NothingCounted(objs);
    }
  }

  lemma {:induction false} MethodCandidateCount(methods: seq<MethodDef>, objs: ObjectIndex)
    ensures |MethodCandidates(methods, objs)| == InstanceCount(MethodParams(methods), objs)
  {
    if methods != [] {
      MethodCandidateCount(methods[1..], objs);
      CombinationsAreBindings(methods[0].params, objs);
      CountCons(methods[0].params, MethodParams(methods[1..]), objs);
      assert MethodParams(methods) == [methods[0].params] + MethodParams(methods[1..]);
      hide BindingsOf, Combinations, InstanceCount;
    }
  }

  lemma MethodParamsPrefix(methods: seq<MethodDef>, i: nat)
    requires i <= |methods|
    ensures |MethodParams(methods)| == |methods|
    ensures i == 0 ==> MethodParams(methods)[..i] == []
    ensures i > 0 ==> MethodParams(methods)[..i] == [methods[0].params] + MethodParams(methods[1..])[..i - 1]
  {
  }

  lemma MethodCandidatesCons(methods: seq<MethodDef>, objs: ObjectIndex)
    requires methods != []
    ensures MethodCandidates(methods, objs)
         == CandidatesOf(methods[0], BindingsOf(methods[0].params, objs)) + MethodCandidates(methods[1..], objs)
  {
  }

  /** Declaration by declaration, and within one in the order of the bindings. */
  lemma {:induction false} MethodCandidateAt(methods: seq<MethodDef>, objs: ObjectIndex, i: nat, k: nat)
    requires i < |methods| && k < |BindingsOf(methods[i].params, objs)|
    ensures |MethodParams(methods)| == |methods|
    ensures var n := InstanceCount(MethodParams(methods)[..i], objs) + k;
            && n < |MethodCandidates(methods, objs)|
            && MethodCandidates(methods, objs)[n] == Candidate(methods[i], BindingsOf(methods[i].params, objs)[k])
  {
    hide *;
    var p, rest := methods[0].params, methods[1..];
    CombinationsAreBindings(p, objs);
    MethodCandidatesCons(methods, objs);
    MethodParamsPrefix(methods, i);
    FirstCandidates(methods[0], BindingsOf(p, objs), k);
    if i > 0 {
      MethodParamsPrefix(rest, i - 1);
      MethodCandidateAt(rest, objs, i - 1, k);
      CountCons(p, MethodParams(rest)[..i - 1], objs);
      assert methods[i] == rest[i - 1];
    } else {
      NothingCounted(objs);
    }
  }

  // ---- what the unpruned loops list ----

  /** Unpruned grounding of actions lists exactly the instances of the declared actions. */
  lemma ActionsAreInstances(d: Domain, objs: ObjectIndex, max: nat, g: GroundAction)
    requires FullActions(d, objs, max).Ok?
    ensures g in FullActions(d, objs, max).value <==>
              exists a, b, os :: a in d.actions && b in BindingsOf(a.params, objs) && IsActionInstance(a, b, os, objs, g)
  {
    var cs := ActionCandidates(d.actions, objs);
    CollectAllIff(cs, ActionBuilder(objs), max, []);
    var gs := FullActions(d, objs, max).value;
    if g in gs {
      var a, b := ActionSource(d, objs, max, g);
      ActionIsInstance(a, b, objs, g);
    }
    if a, b, os :| a in d.actions && b in BindingsOf(a.params, objs) && IsActionInstance(a, b, os, objs, g) {
      ActionIsInstance(a, b, objs, g);
      ActionInstanceIsCandidate(d.actions, objs, Candidate(a, b));
      var i :| 0 <= i < |cs| && cs[i] == Candidate(a, b);
      assert ActionBuilder(objs)(cs[i]) == Ok(gs[i]);
    }
  }

  lemma MethodsAreInstances(d: Domain, objs: ObjectIndex, max: nat, g: GroundMethod)
    requires FullMethods(d, objs, max).Ok?
    ensures g in FullMethods(d, objs, max).value <==>
              exists m, b, os :: m in d.methods && b in BindingsOf(m.params, objs) && IsMethodInstance(m, b, os, objs, g)
  {
    var cs := MethodCandidates(d.methods, objs);
    CollectAllIff(cs, MethodBuilder(objs), max, []);
    var gs := FullMethods(d, objs, max).value;
    if g in gs {
      var m, b := MethodSource(d, objs, max, g);
      MethodIsInstance(m, b, objs, g);
    }
    if m, b, os :| m in d.methods && b in BindingsOf(m.params, objs) && IsMethodInstance(m, b, os, objs, g) {
      MethodIsInstance(m, b, objs, g);
      MethodInstanceIsCandidate(d.methods, objs, Candidate(m, b));
      var i :| 0 <= i < |cs| && cs[i] == Candidate(m, b);
      assert MethodBuilder(objs)(cs[i]) == Ok(gs[i]);
    }
  }

  /** The objects suit the parameters' types. */
  ghost predicate Suits(params: seq<TypedParam>, objs: ObjectIndex, os: seq<Name>) {
    |os| == |params| && forall i | 0 <= i < |params| :: os[i] in ObjectsOf(objs, params[i].ty)
  }

  /** The binding of distinct parameters to given objects. */
  lemma {:induction false} BindingTo(params: seq<TypedParam>, os: seq<Name>) returns (b: Binding)
    requires DistinctVars(params) && |os| == |params|
    ensures b.Keys == (set x | x in params :: x.v) && GivesArgs(params, b, os)
  {
    if params == [] {
      b := map[];
    } else {
      var n := |params| - 1;
      var c := BindingTo(params[..n], os[..n]);
      b := c[params[n].v := os[n]];
      assert params == params[..n] + [params[n]];
      forall i | 0 <= i < |params| ensures params[i].v in b && b[params[i].v] == os[i] {
        if i < n {
          assert params[..n][i].v in c && c[params[..n][i].v] == os[..n][i];
        }
      }
    }
  }

  /** Distinct parameters are bound to given objects of their types by exactly one enumerated binding. */
  lemma TupleIsBound(params: seq<TypedParam>, objs: ObjectIndex, os: seq<Name>) returns (b: Binding)
    requires DistinctVars(params) && Suits(params, objs, os)
    ensures b in BindingsOf(params, objs) && GivesArgs(params, b, os)
    ensures forall c | c in BindingsOf(params, objs) && GivesArgs(params, c, os) :: c == b
  {
    b := BindingTo(params, os);
    assert forall i | 0 <= i < |params| :: params[i] in params;
    BindingsAreTyped(params, objs, b);
    forall c | c in BindingsOf(params, objs) && GivesArgs(params, c, os) ensures c == b {
      BindingsAreTyped(params, objs, c);
      SameBinding(params, os, b, c);
    }
  }

  lemma SameBinding(params: seq<TypedParam>, os: seq<Name>, b: Binding, c: Binding)
    requires b.Keys == (set x | x in params :: x.v) == c.Keys && GivesArgs(params, b, os) && GivesArgs(params, c, os)
    ensures b == c
  {
    forall v | v in b ensures b[v] == c[v] {
      var x :| x in params && x.v == v;
      var i :| 0 <= i < |params| && params[i] == x;
    }
  }

  /** Every action, with every choice of objects for its parameters, has its instance in the output. */
  lemma EveryChoiceHasAction(d: Domain, objs: ObjectIndex, max: nat, a: ActionDef, os: seq<Name>)
    returns (b: Binding, g: GroundAction)
    requires FullActions(d, objs, max).Ok? && a in d.actions && DistinctVars(a.params) && Suits(a.params, objs, os)
    ensures b.Keys == (set x | x in a.params :: x.v) && IsActionInstance(a, b, os, objs, g)
    ensures g in FullActions(d, objs, max).value
  {
    b := TupleIsBound(a.params, objs, os);
    BindingsAreTyped(a.params, objs, b);
    var cs := ActionCandidates(d.actions, objs);
    CollectAllIff(cs, ActionBuilder(objs), max, []);
    ActionInstanceIsCandidate(d.actions, objs, Candidate(a, b));
    g := BuildAction(a, b, objs).value;
    assert ActionBuilder(objs)(Candidate(a, b)).Ok?;
    EnumeratedBindsAll(a.params, objs, b);
    hide Ground, OutcomesOf, GivesArgs, BindingsOf, Collect;
    assert IsActionInstance(a, b, os, objs, g);
    ActionsAreInstances(d, objs, max, g);
  }

  lemma EveryChoiceHasMethod(d: Domain, objs: ObjectIndex, max: nat, m: MethodDef, os: seq<Name>)
    returns (b: Binding, g: GroundMethod)
    requires FullMethods(d, objs, max).Ok? && m in d.methods && DistinctVars(m.params) && Suits(m.params, objs, os)
    ensures b.Keys == (set x | x in m.params :: x.v) && IsMethodInstance(m, b, os, objs, g)
    ensures g in FullMethods(d, objs, max).value
  {
    b := TupleIsBound(m.params, objs, os);
    BindingsAreTyped(m.params, objs, b);
    var cs := MethodCandidates(d.methods, objs);
    CollectAllIff(cs, MethodBuilder(objs), max, []);
    MethodInstanceIsCandidate(d.methods, objs, Candidate(m, b));
    g := BuildMethod(m, b, objs).value;
    assert MethodBuilder(objs)(Candidate(m, b)).Ok?;
    MethodIsInstance(m, b, objs, g);
    EnumeratedBindsAll(m.params, objs, b);
    hide Ground, BranchOf, GivesArgs, BindingsOf, Collect, BuildMethod;
    var os' :| IsMethodInstance(m, b, os', objs, g);
    assert os' == os;
    MethodsAreInstances(d, objs, max, g);
  }

  /** Where an instance stands: after those of the earlier declarations, in the order of the bindings. */
  lemma FullActionAt(d: Domain, objs: ObjectIndex, max: nat, i: nat, k: nat) returns (os: seq<Name>)
    requires FullActions(d, objs, max).Ok? && i < |d.actions| && k < |BindingsOf(d.actions[i].params, objs)|
    ensures |ActionParams(d.actions)| == |d.actions|
    ensures var n := InstanceCount(ActionParams(d.actions)[..i], objs) + k;
            && n < |FullActions(d, objs, max).value|
            && IsActionInstance(d.actions[i], BindingsOf(d.actions[i].params, objs)[k], os, objs,
                                FullActions(d, objs, max).value[n])
  {
    ActionCandidateAt(d.actions, objs, i, k);
    CollectAllIff(ActionCandidates(d.actions, objs), ActionBuilder(objs), max, []);
    var b, n := BindingsOf(d.actions[i].params, objs)[k], InstanceCount(ActionParams(d.actions)[..i], objs) + k;
    var g := FullActions(d, objs, max).value[n];
    hide BindingsOf, ActionCandidates, Collect, InstanceCount, ActionParams, BuildAction;
    assert BuildAction(d.actions[i], b, objs) == Ok(g);
    ActionIsInstance(d.actions[i], b, objs, g);
    os :| IsActionInstance(d.actions[i], b, os, objs, g);
  }

  lemma FullMethodAt(d: Domain, objs: ObjectIndex, max: nat, i: nat, k: nat) returns (os: seq<Name>)
    requires FullMethods(d, objs, max).Ok? && i < |d.methods| && k < |BindingsOf(d.methods[i].params, objs)|
    ensures |MethodParams(d.methods)| == |d.methods|
    ensures var n := InstanceCount(MethodParams(d.methods)[..i], objs) + k;
            && n < |FullMethods(d, objs, max).value|
            && IsMethodInstance(d.methods[i], BindingsOf(d.methods[i].params, objs)[k], os, objs,
                                FullMethods(d, objs, max).value[n])
  {
    MethodCandidateAt(d.methods, objs, i, k);
    CollectAllIff(MethodCandidates(d.methods, objs), MethodBuilder(objs), max, []);
    var b, n := BindingsOf(d.methods[i].params, objs)[k], InstanceCount(MethodParams(d.methods)[..i], objs) + k;
    var g := FullMethods(d, objs, max).value[n];
    hide BindingsOf, MethodCandidates, Collect, InstanceCount, MethodParams, BuildMethod;
    assert BuildMethod(d.methods[i], b, objs) == Ok(g);
    MethodIsInstance(d.methods[i], b, objs, g);
    os :| IsMethodInstance(d.methods[i], b, os, objs, g);
  }

  /** A call renders to the name of an instance exactly when it names the schema and its arguments denote the objects bound. */
  lemma CallNamesInstance(call: TaskCall, c: Binding, name: Name, os: seq<Name>, task: string)
    requires CallMeans(call, c, task) && '(' !in call.name && '(' !in name
    requires CleanArgs(os) && CleanArgs(Denotations(call.args, c))
    ensures task == AtomKey(name, os) <==> call.name == name && Denotations(call.args, c) == os
  {
    if task == AtomKey(name, os) {
      KeyInjective(call.name, Denotations(call.args, c), name, os);
    }
  }

  // ---- when grounding refuses ----

  /** Unpruned grounding of actions succeeds exactly when the limit holds all choices of objects and every instance compiles. */
  lemma FullActionsIff(d: Domain, objs: ObjectIndex, max: nat)
    ensures FullActions(d, objs, max).Ok? <==>
              && InstanceCount(ActionParams(d.actions), objs) <= max
              && forall a, b | a in d.actions && b in BindingsOf(a.params, objs) ::
                   Ground(a.pre, b, objs).Ok? && OutcomesOf(a.effect, b).Ok?
  {
    var cs := ActionCandidates(d.actions, objs);
    CollectAllIff(cs, ActionBuilder(objs), max, []);
    ActionCandidateCount(d.actions, objs);
    hide Ground, OutcomesOf, BindingsOf, ActionCandidates, Collect;
    forall a, b ensures Candidate(a, b) in cs <==> a in d.actions && b in BindingsOf(a.params, objs) {
      ActionInstanceIsCandidate(d.actions, objs, Candidate(a, b));
    }
    forall c | c in cs
      ensures ActionBuilder(objs)(c).Ok? <==> Ground(c.schema.pre, c.b, objs).Ok? && OutcomesOf(c.schema.effect, c.b).Ok?
      ensures c == Candidate(c.schema, c.b)
    {
    }
  }

  lemma FullMethodsIff(d: Domain, objs: ObjectIndex, max: nat)
    ensures FullMethods(d, objs, max).Ok? <==>
              && InstanceCount(MethodParams(d.methods), objs) <= max
              && forall m, b | m in d.methods && b in BindingsOf(m.params, objs) ::
                   && CallName(m.task, b).Ok? && GroundSubtasks(m.network.subtasks, b).Ok?
                   && Ground(m.pre, b, objs).Ok? && BranchOf(m.effect, b).Ok?
  {
    var cs := MethodCandidates(d.methods, objs);
    CollectAllIff(cs, MethodBuilder(objs), max, []);
    MethodCandidateCount(d.methods, objs);
    hide Ground, BranchOf, BindingsOf, MethodCandidates, Collect, CallName, GroundSubtasks;
    forall m, b ensures Candidate(m, b) in cs <==> m in d.methods && b in BindingsOf(m.params, objs) {
      MethodInstanceIsCandidate(d.methods, objs, Candidate(m, b));
    }
    forall c | c in cs ensures c == Candidate(c.schema, c.b) {
    }
  }

  /** The instance's name is relevant and reachable, where these are computed. */
  ghost predicate NameWanted(pr: Pruning, c: Candidate<ActionDef>) {
    forall os | GivesArgs(c.schema.params, c.b, os) ::
      && (pr.relevant.Some? ==> AtomKey(c.schema.name, os) in pr.relevant.value)
      && (pr.reachable.Some? ==> AtomKey(c.schema.name, os) in pr.reachable.value)
  }

  ghost function Wanted(pr: Pruning): Candidate<ActionDef> -> bool {
    (c: Candidate<ActionDef>) => NameWanted(pr, c)
  }

  /** Pruned grounding of actions succeeds exactly when the wanted instances fit the limit and compile: the others cost nothing. */
  lemma PrunedActionsIff(d: Domain, objs: ObjectIndex, max: nat, pr: Pruning)
    ensures var wanted := Filter(ActionCandidates(d.actions, objs), Wanted(pr));
            PrunedActions(d, objs, max, pr).Ok? <==>
              && |wanted| <= max
              && forall c | c in wanted :: Ground(c.schema.pre, c.b, objs).Ok? && OutcomesOf(c.schema.effect, c.b).Ok?
  {
    var cs, keep := ActionCandidates(d.actions, objs), ActionFilter(pr);
    CollectKept(cs, keep, ActionBuilder(objs), max, []);
    hide GivesArgs, BindingsOf, ActionCandidates, Collect, Ground, OutcomesOf, AtomKey;
    forall c | c in cs ensures KeptBy(keep)(c) <==> Wanted(pr)(c) {
      ActionInstanceIsCandidate(d.actions, objs, c);
      EnumeratedBindsAll(c.schema.params, objs, c.b);
    }
    FilterAgrees(cs, KeptBy(keep), Wanted(pr));
    CollectAllIff(Filter(cs, Wanted(pr)), ActionBuilder(objs), max, []);
  }

  lemma {:induction false} FilterAgrees<T(!new)>(s: seq<T>, p: T -> bool, q: T -> bool)
    requires forall x | x in s :: p(x) == q(x)
    ensures Filter(s, p) == Filter(s, q)
  {
    if s != [] {
      FilterAgrees(s[1..], p, q);
    }
  }

  // ---- what the pruned loops list ----

  /** Pruned grounding of actions lists exactly the instances with a relevant and reachable name. */
  lemma PrunedActionsAreInstances(d: Domain, objs: ObjectIndex, max: nat, pr: Pruning, g: GroundAction)
    requires FullActions(d, objs, max).Ok? && PrunedActions(d, objs, max, pr).Ok?
    ensures g in PrunedActions(d, objs, max, pr).value <==>
              && g in FullActions(d, objs, max).value
              && (pr.relevant.Some? ==> g.name in pr.relevant.value)
              && (pr.reachable.Some? ==> g.name in pr.reachable.value)
  {
    PrunedActionsAreFilter(d, objs, max, pr);
  }

  lemma BaseOfCall(call: TaskCall, b: Binding, task: string)
    requires CallMeans(call, b, task) && '(' !in call.name
    ensures TaskBaseName(task) == call.name
  {
    BaseNameInvertsKey(call.name, Denotations(call.args, b));
  }

  /**
   * Pruned grounding of methods lists exactly the instances with a relevant head of whose subtasks
   * every one that calls an action calls a reachable one.
   */
  lemma PrunedMethodsAreInstances(
    d: Domain, objs: ObjectIndex, max: nat, pr: Pruning, m: MethodDef, b: Binding, os: seq<Name>, g: GroundMethod)
    requires FullMethods(d, objs, max).Ok? && PrunedMethods(d, objs, max, pr).Ok?
    requires m in d.methods && b in BindingsOf(m.params, objs) && IsMethodInstance(m, b, os, objs, g)
    requires forall st | st in m.network.subtasks :: '(' !in st.task.name
    ensures g in PrunedMethods(d, objs, max, pr).value <==>
              && (pr.relevant.Some? ==> g.task in pr.relevant.value)
              && (pr.reachable.Some? ==>
                    forall k | 0 <= k < |g.subtasks| && (exists a :: a in d.actions && a.name == m.network.subtasks[k].task.name) ::
                      g.subtasks[k].task in pr.reachable.value)
  {
    PrunedMethodsAreFilter(d, objs, max, pr);
    MethodsAreInstances(d, objs, max, g);
    hide BindingsOf, TaskBaseName, FullMethods, PrunedMethods, AtomKey;
    forall k | 0 <= k < |g.subtasks|
      ensures TaskBaseName(g.subtasks[k].task) in ActionNames(d) <==>
                exists a :: a in d.actions && a.name == m.network.subtasks[k].task.name
    {
      assert m.network.subtasks[k] in m.network.subtasks;
      BaseOfCall(m.network.subtasks[k].task, b, g.subtasks[k].task);
    }
  }

  // ---- root networks ----

  /** The i-th root network has the declared subtasks, as called under the i-th binding, in the declared order. */
  lemma RootNetworksAreInstances(p: Problem, objs: ObjectIndex, i: nat)
    requires RootNetworks(p, objs).Ok?
    ensures |RootNetworks(p, objs).value| == |BindingsOf(p.htn.params, objs)|
    ensures i < |BindingsOf(p.htn.params, objs)| ==>
              && SubtasksMean(p.htn.subtasks, BindingsOf(p.htn.params, objs)[i], RootNetworks(p, objs).value[i].subtasks)
              && OrderMeans(p.htn.order, RootNetworks(p, objs).value[i].order)
  {
    var bs := BindingsOf(p.htn.params, objs);
    if i < |bs| {
      RootNetworksAt(p.htn, bs, i);
      var root := RootNetworks(p, objs).value[i];
      SubtasksAreMeant(p.htn.subtasks, bs[i], root.subtasks);
      OrderIsMeant(p.htn.order, root.order);
    } else if bs != [] {
      RootNetworksAt(p.htn, bs, 0);
    }
  }
}
