// A run played again, address by address, by a program made for it: each step gets a task of its own, and
// the nodes that stay until the end get whatever tasks one likes.
module Retasking {
  import opened Prelude
  import opened HddlAst
  import opened Goals
  import opened Effects
  import opened Grounders
  import opened Htn
  import opened Addresses
  import opened Ordering
  import opened Nullary

  /** A run, a prefix for the tasks of its steps, and the tasks to be left at its end. */
  datatype Script = Script(states: seq<Composite>, labels: seq<Label>, tag: string, last: map<Addr, string>)

  ghost predicate Played(ir: GroundedIR, x: Script) {
    Run(ir, x.states, x.labels)
  }

  predicate Sized(x: Script) {
    |x.states| == |x.labels| + 1
  }

  /** The step changes the network, and is not an execution that left its task pending. */
  predicate Takes(x: Script, n: nat)
    requires Sized(x) && n < |x.labels|
  {
    x.states[n + 1].frontier != x.states[n].frontier
  }

  function StepTask(x: Script, n: nat): string {
    x.tag + GoName(n)
  }

  /** The first step from the `n`-th on that takes the node, or else its task at the end. */
  function Fate(x: Script, n: nat, a: Addr): string
    requires Sized(x) && n <= |x.labels|
    decreases |x.labels| - n
  {
    if n == |x.labels| then if a in x.last then x.last[a] else ""
    else if x.labels[n].addr == a && Takes(x, n) then StepTask(x, n)
    else Fate(x, n + 1, a)
  }

  function Retasked(x: Script, n: nat, a: Addr, sts: seq<GroundSubtask>): seq<GroundSubtask>
    requires Sized(x) && n <= |x.labels|
  {
    seq(|sts|, i requires 0 <= i < |sts| => GroundSubtask(sts[i].id, Fate(x, n, ChildAddr(a, sts[i].id))))
  }

  function StepMethod(x: Script, n: nat): GroundMethod
    requires Sized(x) && n < |x.labels|
  {
    match x.labels[n]
    case Decompose(a, m) =>
      GroundMethod(StepTask(x, n), StepTask(x, n), GEmpty, EMPTY_BRANCH, Retasked(x, n + 1, a, m.subtasks), m.order)
    case Execute(_, _, _) => GroundMethod(StepTask(x, n), StepTask(x, n), GEmpty, EMPTY_BRANCH, [], [])
  }

  function StepMethods(x: Script): seq<GroundMethod>
    requires Sized(x)
  {
    seq(|x.labels|, n requires 0 <= n < |x.labels| => StepMethod(x, n))
  }

  function Opening(x: Script, net: RootNetwork): RootNetwork
    requires Sized(x)
  {
    RootNetwork(Retasked(x, 0, "r", net.subtasks), net.order)
  }

  /** The `n`-th network with the tasks of the script. */
  function Staging(x: Script, n: nat): Frontier
    requires Sized(x) && n <= |x.labels|
  {
    Frontier(map a | a in x.states[n].frontier.pending :: Fate(x, n, a), x.states[n].frontier.order)
  }

  // ---- children ----

  lemma RetaskedIds(x: Script, n: nat, a: Addr, sts: seq<GroundSubtask>)
    requires Sized(x) && n <= |x.labels|
    ensures var sts' := Retasked(x, n, a, sts);
            && |sts'| == |sts| && (forall i | 0 <= i < |sts| :: sts'[i].id == sts[i].id)
            && IdsOf(sts') == IdsOf(sts) && forall b :: ChildAddrs(b, sts') == ChildAddrs(b, sts)
  {
    var sts' := Retasked(x, n, a, sts);
    assert forall i | 0 <= i < |sts| :: sts'[i].id == sts[i].id;
  }

  lemma {:induction false} TasksByAddress(x: Script, n: nat, a: Addr, sts: seq<GroundSubtask>, c: Addr)
    requires Sized(x) && n <= |x.labels| && c in ChildPending(a, sts)
    requires forall i | 0 <= i < |sts| :: sts[i].task == Fate(x, n, ChildAddr(a, sts[i].id))
    ensures ChildPending(a, sts)[c] == Fate(x, n, c)
  {
    var k := |sts| - 1;
    if c != ChildAddr(a, sts[k].id) {
      TasksByAddress(x, n, a, sts[..k], c);
    }
  }

  lemma RetaskedPending(x: Script, n: nat, a: Addr, sts: seq<GroundSubtask>)
    requires Sized(x) && n <= |x.labels|
    ensures var p := ChildPending(a, Retasked(x, n, a, sts));
            p.Keys == ChildAddrs(a, sts) && forall c | c in p :: p[c] == Fate(x, n, c)
  {
    var sts' := Retasked(x, n, a, sts);
    RetaskedIds(x, n, a, sts);
    ChildPendingKeys(a, sts');
    forall c | c in ChildPending(a, sts') {
      TasksByAddress(x, n, a, sts', c);
    }
  }

  // ---- steps ----

  lemma FateOfOthers(x: Script, n: nat, b: Addr)
    requires Sized(x) && n < |x.labels|
    ensures x.labels[n].addr != b || !Takes(x, n) ==> Fate(x, n, b) == Fate(x, n + 1, b)
  {
  }

  /** The constraints after a decomposition depend on the ids of the subtasks, not on their tasks. */
  lemma OrderByIds(f: Frontier, g: Frontier, a: Addr, m: GroundMethod, m': GroundMethod)
    requires f.order == g.order && m.order == m'.order && ChildAddrs(a, m'.subtasks) == ChildAddrs(a, m.subtasks)
    ensures Refine(g, a, m').order == Refine(f, a, m).order
  {
    hide ChildAddrs;
  }

  lemma StagingIs(x: Script, n: nat)
    requires Sized(x) && n <= |x.labels|
    ensures Staging(x, n).pending.Keys == x.states[n].frontier.pending.Keys
    ensures forall b | b in Staging(x, n).pending :: Staging(x, n).pending[b] == Fate(x, n, b)
  {
  }

  lemma RefinedKeys(f: Frontier, a: Addr, m: GroundMethod)
    ensures Refine(f, a, m).pending.Keys == f.pending.Keys - {a} + ChildAddrs(a, m.subtasks)
  {
    ChildPendingKeys(a, m.subtasks);
    hide ChildPending, ChildAddrs;
  }

  lemma DecomposedTasks(x: Script, n: nat, a: Addr, m: GroundMethod)
    requires Sized(x) && n < |x.labels| && x.labels[n] == Decompose(a, m)
    requires x.states[n + 1].frontier.pending == Refine(x.states[n].frontier, a, m).pending
    ensures Staging(x, n).pending - {a} + ChildPending(a, Retasked(x, n + 1, a, m.subtasks)) == Staging(x, n + 1).pending
  {
    assert |x.states| == |x.labels| + 1;
    hide *;
    var children := ChildPending(a, Retasked(x, n + 1, a, m.subtasks));
    RetaskedPending(x, n + 1, a, m.subtasks);
    RefinedKeys(x.states[n].frontier, a, m);
    StagingIs(x, n);
    StagingIs(x, n + 1);
    forall b | b in Staging(x, n).pending && b != a ensures Fate(x, n, b) == Fate(x, n + 1, b) {
      FateOfOthers(x, n, b);
    }
    SameTasks(Staging(x, n).pending, a, children, Staging(x, n + 1).pending);
  }

  lemma SameTasks(before: map<Addr, string>, a: Addr, children: map<Addr, string>, after: map<Addr, string>)
    requires after.Keys == before.Keys - {a} + children.Keys
    requires forall b | b in children :: after[b] == children[b]
    requires forall b | b in before && b != a && b !in children :: after[b] == before[b]
    ensures before - {a} + children == after
  {
  }

  lemma DecompositionIsStaged(x: Script, n: nat, a: Addr, m: GroundMethod)
    requires Sized(x) && n < |x.labels| && x.labels[n] == Decompose(a, m)
    requires x.states[n + 1].frontier == Refine(x.states[n].frontier, a, m)
    ensures Refine(Staging(x, n), a, StepMethod(x, n)) == Staging(x, n + 1)
  {
    var m' := StepMethod(x, n);
    assert m'.subtasks == Retasked(x, n + 1, a, m.subtasks) && m'.order == m.order;
    RetaskedIds(x, n + 1, a, m.subtasks);
    DecomposedTasks(x, n, a, m);
    hide Retasked, StepMethod, Fate;
    OrderByIds(x.states[n].frontier, Staging(x, n), a, m, m');
    hide ChildAddrs, ChildPending, ChildOrder, Firsts, Lasts;
  }

  lemma ExecutionIsStaged(x: Script, n: nat, a: Addr)
    requires Sized(x) && n < |x.labels| && x.labels[n].Execute? && x.labels[n].addr == a
    requires a in Enabled(x.states[n].frontier) && x.states[n + 1].frontier == Advance(x.states[n].frontier, a)
    ensures Refine(Staging(x, n), a, StepMethod(x, n)) == Staging(x, n + 1)
  {
    var f, g := x.states[n].frontier, Staging(x, n);
    assert ChildAddrs(a, []) == {} && ChildOrder(a, []) == {} && ChildPending(a, []) == map[];
    assert Predecessors(f.order, a) == {};
    var before, after := g.pending - {a}, Staging(x, n + 1).pending;
    assert Refine(g, a, StepMethod(x, n)).pending == before;
    forall b | b in before ensures before[b] == Fate(x, n + 1, b) {
      FateOfOthers(x, n, b);
    }
    assert before == after;
  }

  lemma PauseIsStaged(x: Script, n: nat)
    requires Sized(x) && n < |x.labels| && !Takes(x, n)
    ensures Staging(x, n) == Staging(x, n + 1)
  {
    forall b | b in x.states[n].frontier.pending ensures Fate(x, n, b) == Fate(x, n + 1, b) {
      FateOfOthers(x, n, b);
    }
  }

  /** What the step of the original run does to the network, the made step does to the staged one. */
  lemma StagedByMethod(ir: GroundedIR, x: Script, n: nat)
    requires Played(ir, x) && Sized(x) && n < |x.labels| && Takes(x, n)
    ensures var a := x.labels[n].addr;
            && a in Enabled(Staging(x, n)) && Staging(x, n).pending[a] == StepTask(x, n)
            && Refine(Staging(x, n), a, StepMethod(x, n)) == Staging(x, n + 1)
  {
    assert Step(ir, x.states[n], x.labels[n], x.states[n + 1]);
    assert x.labels[n].addr in Staging(x, n).pending;
    match x.labels[n]
    case Decompose(a, m) => DecompositionIsStaged(x, n, a, m);
    case Execute(a, _, _) => ExecutionIsStaged(x, n, a);
  }

  lemma StagedStep(ir: GroundedIR, x: Script, n: nat, made: GroundedIR) returns (l: Label)
    requires Played(ir, x) && Sized(x) && n < |x.labels| && Takes(x, n) && StepMethod(x, n) in made.methods
    ensures Step(made, Composite({}, Staging(x, n)), l, Composite({}, Staging(x, n + 1)))
  {
    StagedByMethod(ir, x, n);
    var m, s := StepMethod(x, n), Composite({}, Staging(x, n));
    assert m.pre == GEmpty && m.effect == EMPTY_BRANCH && m.task == StepTask(x, n);
    hide StepMethod, Staging, Refine, Played;
    l := Decompose(x.labels[n].addr, m);
    assert Eval(m.pre, {}) == Ok(true) && Apply({}, m.effect) == {};
  }

  lemma StagedStart(x: Script, net: RootNetwork, init: Facts)
    requires Sized(x) && x.states[0] == InitialState(init, net)
    ensures InitialState({}, Opening(x, net)) == Composite({}, Staging(x, 0))
  {
    RetaskedPending(x, 0, "r", net.subtasks);
    ChildPendingKeys("r", net.subtasks);
    hide Retasked, ChildAddrs;
    assert ChildPending("r", Opening(x, net).subtasks) == Staging(x, 0).pending;
  }

  /** Any program with the made methods and the made root network plays the run again. */
  lemma {:induction false} PlayedAgain(ir: GroundedIR, x: Script, net: RootNetwork, made: GroundedIR, n: nat)
    returns (states: seq<Composite>, labels: seq<Label>)
    requires Played(ir, x) && Sized(x) && n <= |x.labels| && x.states[0] == InitialState(ir.init, net)
    requires made.init == {} && Opening(x, net) in made.roots && forall m | m in StepMethods(x) :: m in made.methods
    ensures Run(made, states, labels) && |states| == |labels| + 1
    ensures states[|labels|] == Composite({}, Staging(x, n))
  {
    hide Staging, Step, Played, Opening, StepMethod, InitialState;
    if n == 0 {
      StagedStart(x, net, ir.init);
      states, labels := [Composite({}, Staging(x, 0))], [];
    } else {
      states, labels := PlayedAgain(ir, x, net, made, n - 1);
      if Takes(x, n - 1) {
        assert StepMethods(x)[n - 1] == StepMethod(x, n - 1);
        var l := StagedStep(ir, x, n - 1, made);
        RunSnoc(made, states, labels, l, Composite({}, Staging(x, n)));
        states, labels := states + [Composite({}, Staging(x, n))], labels + [l];
      } else {
        PauseIsStaged(x, n - 1);
      }
    }
  }

  // ---- the made program is as clean as the original ----

  lemma StepMethodIsClean(ir: GroundedIR, x: Script, n: nat, ids: Ids)
    requires Played(ir, x) && Sized(x) && n < |x.labels| && OrderedIR(ir) && DrawsFrom(ir, ids)
    ensures CleanOrder(StepMethod(x, n).subtasks, StepMethod(x, n).order) && IdsWithin(StepMethod(x, n).subtasks, ids)
  {
    assert Step(ir, x.states[n], x.labels[n], x.states[n + 1]);
    match x.labels[n]
    case Decompose(a, m) =>
      RetaskedIds(x, n + 1, a, m.subtasks);
      SameIdsAreClean(m.subtasks, Retasked(x, n + 1, a, m.subtasks), m.order, ids);
    case Execute(_, _, _) => assert OrderRanked([], map[]);
  }

  lemma SameIdsAreClean(sts: seq<GroundSubtask>, sts': seq<GroundSubtask>, order: seq<(Name, Name)>, ids: Ids)
    requires CleanOrder(sts, order) && IdsWithin(sts, ids)
    requires |sts'| == |sts| && IdsOf(sts') == IdsOf(sts) && forall i | 0 <= i < |sts| :: sts'[i].id == sts[i].id
    ensures CleanOrder(sts', order) && IdsWithin(sts', ids)
  {
    var rank :| OrderRanked(order, rank);
  }

  lemma OpeningIsClean(ir: GroundedIR, x: Script, net: RootNetwork, ids: Ids)
    requires Sized(x) && OrderedIR(ir) && DrawsFrom(ir, ids) && net in ir.roots
    ensures CleanOrder(Opening(x, net).subtasks, Opening(x, net).order) && IdsWithin(Opening(x, net).subtasks, ids)
  {
    RetaskedIds(x, 0, "r", net.subtasks);
    SameIdsAreClean(net.subtasks, Retasked(x, 0, "r", net.subtasks), net.order, ids);
  }
}
