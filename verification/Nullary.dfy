// Inputs whose actions and methods have no parameters: they ground to themselves.
module Nullary {
  import opened Prelude
  import opened HddlAst
  import opened Bindings
  import opened Goals
  import opened Effects
  import opened Grounders
  import opened TypeClosure
  import opened Validation
  import opened Htn
  import opened Addresses
  import opened Ordering
  import opened Preservation
  import opened Pipeline

  /** `ir` is what grounding with these limits and flags may return. */
  ghost predicate Grounds(d: Domain, p: Problem, lim: Limits, ir: GroundedIR) {
    exists c :: IsClosure(d, c) && IsGrounding(d, p, IndexObjects(d, p, c), lim, ir)
  }

  function Unpruned(lim: Limits): Limits {
    Limits(lim.maxActions, lim.maxMethods, false, false)
  }

  function GoName(i: nat): (name: Name)
    ensures |name| == i + 1 && name[0] == 'g'
  {
    if i == 0 then "g" else GoName(i - 1) + "g"
  }

  function Calls(sts: seq<GroundSubtask>): seq<Subtask> {
    seq(|sts|, i requires 0 <= i < |sts| => Subtask(sts[i].id, TaskCall(sts[i].task, [])))
  }

  function Network(sts: seq<GroundSubtask>): TaskNetwork {
    TaskNetwork([], Calls(sts), [])
  }

  lemma FirstKept<T(!new)>(s: seq<T>, keep: T -> bool)
    ensures var kept := Filter(s, keep); kept != [] ==> kept[0] in s && keep(kept[0])
  {
    var kept := Filter(s, keep);
    assert kept != [] ==> kept[0] in kept;
  }

  lemma {:induction false} CallsGround(sts: seq<GroundSubtask>)
    ensures GroundSubtasks(Calls(sts), map[]) == Ok(sts)
  {
    if sts != [] {
      CallsGround(sts[1..]);
      assert Calls(sts)[1..] == Calls(sts[1..]);
      assert SubstTerms([], map[]) == Ok([]);
      assert [sts[0]] + sts[1..] == sts;
    }
  }

  lemma {:induction false} CollectAll<C, G>(
    cs: seq<C>, build: C -> Result<G, GroundError>, max: nat, out: seq<G>, gs: seq<G>)
    requires |cs| == |gs| && |out| + |cs| <= max && forall i | 0 <= i < |cs| :: build(cs[i]) == Ok(gs[i])
    ensures Collect(cs, KeepAll(), build, max, out) == Ok(out + gs)
    decreases |cs|
  {
    if cs == [] {
      assert out + gs == out;
    } else {
      CollectAll(cs[1..], build, max, out + [gs[0]], gs[1..]);
      assert out + [gs[0]] + gs[1..] == out + gs;
    }
  }

  lemma {:induction false} NullaryCandidates(ms: seq<MethodDef>, objs: ObjectIndex)
    requires forall i | 0 <= i < |ms| :: ms[i].params == []
    ensures |MethodCandidates(ms, objs)| == |ms|
    ensures forall i | 0 <= i < |ms| :: MethodCandidates(ms, objs)[i] == Candidate(ms[i], map[])
  {
    if ms != [] {
      NullaryCandidates(ms[1..], objs);
      assert BindingsOf([], objs) == [map[]];
    }
  }


  // ---- problems without actions, conditions and effects ----

  /** Tasks, ground methods that only decompose, and a root network. */
  datatype Program = Program(
    tasks: seq<Name>, methods: seq<GroundMethod>, root: seq<GroundSubtask>, order: seq<(Name, Name)>)

  ghost predicate CallsOnly(sts: seq<GroundSubtask>, tasks: seq<Name>) {
    forall i | 0 <= i < |sts| :: sts[i].task in tasks
  }

  ghost predicate PlainMethod(tasks: seq<Name>, m: GroundMethod) {
    && m.pre == GEmpty && m.effect == EMPTY_BRANCH && m.task in tasks && CallsOnly(m.subtasks, tasks)
    && CleanOrder(m.subtasks, m.order)
  }

  ghost predicate GoodProgram(x: Program) {
    && Unrepeated(x.tasks) && (forall m | m in x.methods :: PlainMethod(x.tasks, m))
    && (forall i, j | 0 <= i < j < |x.methods| :: x.methods[i].name != x.methods[j].name)
    && x.root != [] && CallsOnly(x.root, x.tasks) && CleanOrder(x.root, x.order)
  }

  function ProgramIR(x: Program): GroundedIR {
    GroundedIR([], x.methods, [RootNetwork(x.root, x.order)], {}, Empty)
  }

  function Edges(order: seq<(Name, Name)>): seq<OrderEdge> {
    seq(|order|, i requires 0 <= i < |order| => OrderEdge(order[i].0, order[i].1))
  }

  function Lift(m: GroundMethod): MethodDef {
    MethodDef(m.name, [], TaskCall(m.task, []), Empty, NoEffect, TaskNetwork([], Calls(m.subtasks), Edges(m.order)))
  }

  function Lifted(ms: seq<GroundMethod>): seq<MethodDef> {
    seq(|ms|, i requires 0 <= i < |ms| => Lift(ms[i]))
  }

  function Declared(tasks: seq<Name>): seq<TaskDef> {
    seq(|tasks|, i requires 0 <= i < |tasks| => TaskDef(tasks[i], []))
  }

  function ProgramDomain(x: Program): Domain {
    Domain(map[], [], [], [], Declared(x.tasks), [], Lifted(x.methods))
  }

  function ProgramProblem(x: Program): Problem {
    Problem([], [], Empty, TaskNetwork([], Calls(x.root), Edges(x.order)))
  }

  // ---- validation accepts them ----

  lemma CalleeIsDeclared(x: Program, name: Name)
    requires name in x.tasks
    ensures Callee(ProgramDomain(x), name) == Some([])
  {
    var d := ProgramDomain(x);
    var ofTask := (t: TaskDef) => t.name == name;
    var i :| 0 <= i < |x.tasks| && x.tasks[i] == name;
    assert d.tasks[i] in d.tasks && ofTask(d.tasks[i]);
    assert d.tasks[i] in Filter(d.tasks, ofTask);
    FirstKept(d.tasks, ofTask);
  }

  lemma EdgesKeepOrder(sts: seq<GroundSubtask>, order: seq<(Name, Name)>)
    requires CleanOrder(sts, order)
    ensures ValidOrder(TaskNetwork([], Calls(sts), Edges(order)))
  {
    var rank :| OrderRanked(order, rank);
    assert SubtaskIds(Calls(sts)) == IdsOf(sts) by {
      assert forall i | 0 <= i < |sts| :: Calls(sts)[i].id == sts[i].id;
    }
    assert EdgesRanked(Edges(order), rank);
  }

  lemma CallsFit(x: Program, sts: seq<GroundSubtask>)
    requires CallsOnly(sts, x.tasks)
    ensures forall st | st in Calls(sts) ::
              SubtaskFits(ProgramDomain(x), map[], st) && RootSubtaskFits(ProgramDomain(x), ProgramProblem(x), st)
  {
    forall st | st in Calls(sts)
      ensures SubtaskFits(ProgramDomain(x), map[], st) && RootSubtaskFits(ProgramDomain(x), ProgramProblem(x), st)
    {
      var i :| 0 <= i < |sts| && st == Calls(sts)[i];
      CalleeIsDeclared(x, sts[i].task);
      hide Callee, ProgramDomain;
    }
  }

  lemma LiftFits(x: Program, m: GroundMethod)
    requires PlainMethod(x.tasks, m)
    ensures MethodFits(ProgramDomain(x), Lift(m))
  {
    var d, md := ProgramDomain(x), Lift(m);
    CallsFit(x, m.subtasks);
    EdgesKeepOrder(m.subtasks, m.order);
    var k :| 0 <= k < |x.tasks| && x.tasks[k] == m.task;
    assert d.tasks[k].name == md.task.name && CallFits(d, Scope(md.params), d.tasks[k].params, md.task.args);
    hide SubtaskFits, ValidOrder, RootSubtaskFits, CleanOrder, CallsOnly;
  }

  lemma ProgramNamesDistinct(x: Program)
    requires GoodProgram(x)
    ensures NamesDistinct(ProgramDomain(x))
  {
    var d := ProgramDomain(x);
    assert seq(|d.tasks|, i requires 0 <= i < |d.tasks| => d.tasks[i].name) == x.tasks;
  }

  lemma ProgramDomainAccepted(x: Program)
    requires GoodProgram(x)
    ensures DomainAccepted(ProgramDomain(x))
  {
    var d := ProgramDomain(x);
    ProgramNamesDistinct(x);
    forall m | m in d.methods ensures MethodFits(d, m) && m.params == [] && m.pre == Empty && m.effect == NoEffect {
      var i :| 0 <= i < |x.methods| && m == Lift(x.methods[i]);
      LiftFits(x, x.methods[i]);
    }
    hide NamesDistinct, MethodFits, GoodProgram;
    NoParentsNoCycle();
    assert TypesFit(d) by {
      hide OnCycle;
    }
    assert AtomsFit(d);
  }

  lemma ProgramAccepted(x: Program)
    requires GoodProgram(x)
    ensures Accepted(ProgramDomain(x), ProgramProblem(x))
  {
    ProgramDomainAccepted(x);
    CallsFit(x, x.root);
    EdgesKeepOrder(x.root, x.order);
    hide DomainAccepted, RootSubtaskFits, SubtaskFits, ValidOrder, GoodProgram, ProgramDomain;
    assert GoodProgram(x) ==> ProgramProblem(x).htn.subtasks != [];
  }

  // ---- they ground to themselves ----

  lemma EdgesGround(order: seq<(Name, Name)>)
    ensures OrderOf(Edges(order)) == order
  {
  }

  lemma LiftBuilds(x: Program, m: GroundMethod, objs: ObjectIndex)
    requires PlainMethod(x.tasks, m)
    ensures BuildMethod(Lift(m), map[], objs) == Ok(m)
  {
    CallsGround(m.subtasks);
    EdgesGround(m.order);
    assert BoundArgs([], map[]) == [] && SubstTerms([], map[]) == Ok([]);
    hide CallsOnly, CleanOrder, Calls, Edges;
  }

  lemma CandidateBuilds(x: Program, objs: ObjectIndex, k: nat)
    requires GoodProgram(x) && k < |x.methods|
    ensures MethodBuilder(objs)(Candidate(Lift(x.methods[k]), map[])) == Ok(x.methods[k])
  {
    LiftBuilds(x, x.methods[k], objs);
    hide PlainMethod, BuildMethod, Lift;
  }

  lemma ProgramMethodsGround(x: Program, objs: ObjectIndex)
    requires GoodProgram(x)
    ensures FullMethods(ProgramDomain(x), objs, |x.methods|) == Ok(x.methods)
  {
    var ms := Lifted(x.methods);
    var cs := MethodCandidates(ms, objs);
    NullaryCandidates(ms, objs);
    hide GoodProgram, Lift, MethodCandidates, BuildMethod;
    forall k | 0 <= k < |cs| ensures MethodBuilder(objs)(cs[k]) == Ok(x.methods[k]) {
      CandidateBuilds(x, objs, k);
      hide MethodBuilder;
    }
    CollectAll(cs, MethodBuilder(objs), |x.methods|, [], x.methods);
    assert [] + x.methods == x.methods;
  }

  lemma ProgramRootGrounds(x: Program, objs: ObjectIndex)
    ensures RootNetworks(ProgramProblem(x), objs) == Ok(ProgramIR(x).roots)
  {
    var bs: seq<Binding> := [map[]];
    var net := ProgramProblem(x).htn;
    CallsGround(x.root);
    EdgesGround(x.order);
    assert BindingsOf([], objs) == bs;
    hide Calls, Edges, OrderOf;
    assert bs[0] == map[] && bs[1..] == [] && RootNetworksUnder(net, []) == Ok([]);
    assert [RootNetwork(x.root, x.order)] + [] == ProgramIR(x).roots;
    assert RootNetworksUnder(net, bs) == Ok(ProgramIR(x).roots);
  }

  lemma ProgramClosure(x: Program) returns (c: map<Name, set<Name>>)
    ensures IsClosure(ProgramDomain(x), c)
  {
    var d := ProgramDomain(x);
    assert forall m | m in d.methods :: m.params == [];
    assert forall t | t in d.tasks :: t.params == [];
    assert KnownTypes(d) == {OBJECT};
    c := map[OBJECT := {OBJECT}];
  }

  /** The program is what grounding its lifted form, without pruning and with large enough limits, returns. */
  lemma ProgramGrounds(x: Program)
    requires GoodProgram(x)
    ensures Grounds(ProgramDomain(x), ProgramProblem(x), Limits(0, |x.methods|, false, false), ProgramIR(x))
  {
    var d, p := ProgramDomain(x), ProgramProblem(x);
    var c := ProgramClosure(x);
    var objs := IndexObjects(d, p, c);
    ProgramMethodsGround(x, objs);
    ProgramRootGrounds(x, objs);
    assert FullActions(d, objs, 0) == Ok([]);
    assert InitialFacts(p.init) == Ok({}) && Expand(p.goal, map[], objs) == Ok(Empty);
    hide IsClosure, IndexObjects, FullActions, FullMethods, RootNetworks, InitialFacts, Expand;
    assert IsGrounding(d, p, objs, Limits(0, |x.methods|, false, false), ProgramIR(x));
  }

  lemma ProgramIds(x: Program, ids: Ids)
    requires DrawsFrom(ProgramIR(x), ids)
    ensures InputIds(ProgramDomain(x), ProgramProblem(x)) <= ids
  {
    forall m | m in ProgramDomain(x).methods ensures forall id | id in SubtaskIds(m.network.subtasks) :: id in ids {
      var i :| 0 <= i < |x.methods| && m == Lift(x.methods[i]);
      assert x.methods[i] in x.methods;
    }
    assert ProgramIR(x).roots[0] in ProgramIR(x).roots;
  }

  lemma ProgramIsOrdered(x: Program)
    requires GoodProgram(x)
    ensures OrderedIR(ProgramIR(x))
  {
  }
}
