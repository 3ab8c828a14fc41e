// Programs that walk down one address of a line: what is left exactly when merging two lines is sound.
module Walkers {
  import opened Prelude
  import opened HddlAst
  import opened Goals
  import opened Effects
  import opened Grounders
  import opened Htn
  import opened Addresses
  import opened Ordering
  import opened Markers
  import opened Bisimulation
  import opened Merging
  import opened Nullary

  // ---- lines with given tasks ----

  /** A line whose nodes have these tasks. */
  ghost predicate TaskLine(f: Frontier, r: seq<Addr>, ts: seq<string>) {
    && IsLine(f, r) && |r| == |ts|
    && forall i | 0 <= i < |r| :: r[i] in f.pending && f.pending[r[i]] == ts[i]
  }

  lemma OnlyFirstIsEnabled(f: Frontier, r: seq<Addr>)
    requires IsLine(f, r) && r != []
    ensures Enabled(f) == {r[0]} && EdgesWithin(f)
  {
    LineIsWithin(f, r);
    forall a | a in f.pending ensures a in Enabled(f) <==> a == r[0] {
      assert a in Elems(r);
      var i :| 0 <= i < |r| && r[i] == a;
      if i > 0 {
        assert (r[i - 1], r[i - 1 + 1]) in f.order;
      }
    }
    assert r[0] in Elems(r);
  }

  lemma LineHasNoRepeat(f: Frontier, r: seq<Addr>, ts: seq<string>)
    requires TaskLine(f, r, ts)
    ensures Unrepeated(r)
  {
  }

  lemma NodesOfRest(f: Frontier, r: seq<Addr>)
    requires IsLine(f, r) && r != []
    ensures Elems(r[1..]) == f.pending.Keys - {r[0]} && Unrepeated(r[1..]) && r[0] !in r[1..]
  {
    hide Forward, Consecutive;
    forall a | a in f.pending.Keys - {r[0]} ensures a in Elems(r[1..]) {
      assert a in Elems(r);
      var i :| 0 <= i < |r| && r[i] == a;
      assert r[1..][i - 1] == a;
    }
    forall a | a in Elems(r[1..]) ensures a in f.pending.Keys && a != r[0] {
      var i :| 0 <= i < |r[1..]| && r[1..][i] == a;
      assert a == r[i + 1] && a in Elems(r);
    }
  }

  lemma ForwardRest(order: set<Edge>, r: seq<Addr>)
    requires Forward(order, r) && r != []
    ensures Forward(Detach(order, r[0]), r[1..])
  {
    forall e | e in Detach(order, r[0]) ensures exists i, j :: 0 <= i < j < |r[1..]| && e == (r[1..][i], r[1..][j]) {
      var i, j :| 0 <= i < j < |r| && e == (r[i], r[j]);
      assert e == (r[1..][i - 1], r[1..][j - 1]);
    }
  }

  lemma ConsecutiveRest(order: set<Edge>, r: seq<Addr>)
    requires Consecutive(order, r) && Unrepeated(r) && r != []
    ensures Consecutive(Detach(order, r[0]), r[1..])
  {
    forall i | 0 <= i < |r[1..]| - 1 ensures (r[1..][i], r[1..][i + 1]) in Detach(order, r[0]) {
      assert (r[i + 1], r[i + 1 + 1]) in order;
    }
  }

  /** Removing the first node of a line. */
  lemma SkipFirst(f: Frontier, r: seq<Addr>, ts: seq<string>, m: GroundMethod)
    requires TaskLine(f, r, ts) && r != [] && m.subtasks == [] && m.order == []
    ensures TaskLine(Refine(f, r[0], m), r[1..], ts[1..])
  {
    OnlyFirstIsEnabled(f, r);
    NodesOfRest(f, r);
    ForwardRest(f.order, r);
    ConsecutiveRest(f.order, r);
    hide Consecutive, Forward, Refine, Enabled;
    assert r[0] in {r[0]};
    Vanishes(f, r[0], m);
    assert forall i | 0 <= i < |r[1..]| :: r[1..][i] == r[i + 1] && r[1..][i] != r[0];
  }

  lemma Vanishes(f: Frontier, a: Addr, m: GroundMethod)
    requires a in Enabled(f) && m.subtasks == [] && m.order == []
    ensures Refine(f, a, m) == Advance(f, a)
  {
    assert Predecessors(f.order, a) == {};
    assert ChildAddrs(a, []) == {} && ChildOrder(a, []) == {} && ChildPending(a, []) == map[];
  }

  /** The constraints once `c` has taken the place of `a`, which had no predecessor. */
  function Passed(order: set<Edge>, a: Addr, c: Addr): set<Edge> {
    Detach(order, a) + Pairs({c}, Successors(order, a))
  }

  lemma ForwardPassed(order: set<Edge>, r: seq<Addr>, c: Addr)
    requires Forward(order, r) && r != [] && Unrepeated(r)
    ensures Forward(Passed(order, r[0], c), [c] + r[1..])
  {
    var q := [c] + r[1..];
    ForwardRest(order, r);
    hide Forward, Detach;
    forall e | e in Passed(order, r[0], c) ensures exists i, j :: 0 <= i < j < |q| && e == (q[i], q[j]) {
      if e in Detach(order, r[0]) {
        var i, j := EdgeRanks(Detach(order, r[0]), r[1..], e);
        assert e == (q[i + 1], q[j + 1]);
      } else {
        var j := LaterEnd(order, r, e.1);
        assert e == (q[0], q[j]);
      }
    }
    IsForward(Passed(order, r[0], c), q);
  }

  lemma EdgeRanks(order: set<Edge>, r: seq<Addr>, e: Edge) returns (i: nat, j: nat)
    requires Forward(order, r) && e in order
    ensures i < j < |r| && e == (r[i], r[j])
  {
    var k, l :| 0 <= k < l < |r| && e == (r[k], r[l]);
    i, j := k, l;
  }

  lemma IsForward(order: set<Edge>, r: seq<Addr>)
    requires forall e | e in order :: exists i, j :: 0 <= i < j < |r| && e == (r[i], r[j])
    ensures Forward(order, r)
  {
  }

  lemma LaterEnd(order: set<Edge>, r: seq<Addr>, y: Addr) returns (j: nat)
    requires Forward(order, r) && r != [] && Unrepeated(r) && (r[0], y) in order
    ensures 0 < j < |r| && y == r[j]
  {
    var i, n :| 0 <= i < n < |r| && (r[0], y) == (r[i], r[n]);
    j := n;
  }

  lemma ConsecutivePassed(order: set<Edge>, r: seq<Addr>, c: Addr)
    requires Consecutive(order, r) && Unrepeated(r) && r != []
    ensures Consecutive(Passed(order, r[0], c), [c] + r[1..])
  {
    var q := [c] + r[1..];
    forall i | 0 <= i < |q| - 1 ensures (q[i], q[i + 1]) in Passed(order, r[0], c) {
      assert (r[i], r[i + 1]) in order;
      if i == 0 {
        assert r[1] in Successors(order, r[0]);
      }
    }
  }

  lemma OneChild(a: Addr, m: GroundMethod, id: Name, task: string)
    requires m.subtasks == [GroundSubtask(id, task)] && m.order == []
    ensures ChildAddrs(a, m.subtasks) == {ChildAddr(a, id)} && ChildOrder(a, m.order) == {}
    ensures ChildPending(a, m.subtasks) == map[ChildAddr(a, id) := task]
    ensures Lasts(ChildAddrs(a, m.subtasks), ChildOrder(a, m.order)) == {ChildAddr(a, id)}
  {
    assert m.subtasks[0].id == id && m.subtasks[..0] == [];
    assert ChildPending(a, []) == map[];
  }

  lemma GoesDown(f: Frontier, a: Addr, m: GroundMethod, id: Name, task: string)
    requires a in Enabled(f) && m.subtasks == [GroundSubtask(id, task)] && m.order == []
    ensures var c := ChildAddr(a, id);
            Refine(f, a, m) == Frontier(f.pending - {a} + map[c := task], Passed(f.order, a, c))
  {
    OneChild(a, m, id, task);
    assert Predecessors(f.order, a) == {};
    hide Lasts, ChildAddrs, ChildOrder, ChildPending;
  }

  /** Moving the first node of a line down by one id, to a new address. */
  lemma GoFirst(f: Frontier, r: seq<Addr>, ts: seq<string>, m: GroundMethod, id: Name, task: string)
    requires TaskLine(f, r, ts) && r != [] && m.subtasks == [GroundSubtask(id, task)] && m.order == []
    requires ChildAddr(r[0], id) !in r[1..]
    ensures TaskLine(Refine(f, r[0], m), [ChildAddr(r[0], id)] + r[1..], [task] + ts[1..])
  {
    var a, g, c := r[0], Refine(f, r[0], m), ChildAddr(r[0], id);
    OnlyFirstIsEnabled(f, r);
    NodesOfRest(f, r);
    ForwardPassed(f.order, r, c);
    ConsecutivePassed(f.order, r, c);
    hide Consecutive, Forward, Refine, Passed, Enabled;
    GoesDown(f, a, m, id, task);
    NewFirst(f, r, ts, c, task);
  }

  lemma NewFirst(f: Frontier, r: seq<Addr>, ts: seq<string>, c: Addr, task: string)
    requires TaskLine(f, r, ts) && r != [] && c !in r[1..] && Elems(r[1..]) == f.pending.Keys - {r[0]} && Unrepeated(r[1..])
    ensures var q, pending := [c] + r[1..], f.pending - {r[0]} + map[c := task];
            && Elems(q) == pending.Keys && Unrepeated(q)
            && forall i | 0 <= i < |q| :: q[i] in pending && pending[q[i]] == ([task] + ts[1..])[i]
  {
    hide IsLine;
    var q, pending := [c] + r[1..], f.pending - {r[0]} + map[c := task];
    assert Elems(q) == {c} + Elems(r[1..]);
    forall i | 0 < i < |q| ensures q[i] in pending && q[i] != c && pending[q[i]] == ([task] + ts[1..])[i] {
      assert q[i] == r[i] && q[i] in r[1..] && q[i] in Elems(r[1..]);
    }
  }

  // ---- when there is only one thing to do ----

  /** The only way to do its task; it asks for nothing and changes no fact. */
  ghost predicate Only(ir: GroundedIR, m: GroundMethod) {
    && m in ir.methods && m.pre == GEmpty && m.effect == EMPTY_BRANCH
    && (forall x | x in ir.methods && x.task == m.task :: x == m) && forall act | act in ir.actions :: act.name != m.task
  }

  lemma FinishesCons(ir: GroundedIR, s: Composite, l: Label, s': Composite)
    requires Step(ir, s, l, s') && CanFinishFrom(ir, s')
    ensures CanFinishFrom(ir, s)
  {
    var states: seq<Composite>, labels: seq<Label> :| Finishes(ir, states, labels) && states[0] == s';
    PathCons(ir, s, l, states, labels);
    assert ([s] + states)[|[l] + labels|] == states[|labels|];
    assert Finishes(ir, [s] + states, [l] + labels);
  }

  /** From a state with a pending node, finishing takes a first step. */
  lemma FirstStep(ir: GroundedIR, s: Composite) returns (l: Label, s': Composite)
    requires CanFinishFrom(ir, s) && s.frontier.pending != map[]
    ensures Step(ir, s, l, s') && CanFinishFrom(ir, s')
  {
    var states: seq<Composite>, labels: seq<Label> :| Finishes(ir, states, labels) && states[0] == s;
    PathRest(ir, states, labels);
    assert Finishes(ir, states[1..], labels[1..]);
    l, s' := labels[0], states[1];
  }

  lemma OnlyMove(ir: GroundedIR, s: Composite, r: seq<Addr>, m: GroundMethod)
    requires IsLine(s.frontier, r) && r != [] && Only(ir, m)
    requires r[0] in s.frontier.pending && s.frontier.pending[r[0]] == m.task
    ensures CanFinishFrom(ir, s) <==> CanFinishFrom(ir, Composite(s.facts, Refine(s.frontier, r[0], m)))
  {
    var l, s' := Decompose(r[0], m), AfterMethod(s, r[0], m);
    OnlyFirstIsEnabled(s.frontier, r);
    assert s.facts - {} + {} == s.facts;
    assert Eval(m.pre, s.facts) == Ok(true);
    assert Step(ir, s, l, s');
    hide CanFinishFrom, Refine, IsLine;
    if CanFinishFrom(ir, s) {
      var l0, s0 := FirstStep(ir, s);
      assert l0 == l;
    }
    if CanFinishFrom(ir, s') {
      FinishesCons(ir, s, l, s');
    }
  }

  // ---- a program that walks ----

  /** What the walker does after `t` of the ids: the next one, or nothing at the end. */
  function WalkMethod(v: seq<Name>, t: nat): GroundMethod
    requires t <= |v|
  {
    GroundMethod(GoName(t), GoName(t), GEmpty, EMPTY_BRANCH,
                 if t < |v| then [GroundSubtask(v[t], GoName(t + 1))] else [], [])
  }

  const SKIP := GroundMethod("skip", "skip", GEmpty, EMPTY_BRANCH, [], [])

  function WalkMethods(v: seq<Name>): seq<GroundMethod> {
    [SKIP] + seq(|v| + 1, t requires 0 <= t < |v| + 1 => WalkMethod(v, t))
  }

  ghost predicate Walks(ir: GroundedIR, v: seq<Name>) {
    Only(ir, SKIP) && forall t | 0 <= t <= |v| :: Only(ir, WalkMethod(v, t))
  }

  function Skips(n: nat): seq<string> {
    seq(n, _ => "skip")
  }

  /** The walker at rank `k`, and nothing to do at the others. */
  function WalkLine(n: nat, k: nat): seq<string> {
    seq(n, i => if i == k then GoName(0) else "skip")
  }

  lemma {:induction false} SkipsFinish(ir: GroundedIR, s: Composite, r: seq<Addr>)
    requires Only(ir, SKIP) && TaskLine(s.frontier, r, Skips(|r|)) && GoalHolds(ir.goal, s.facts)
    ensures CanFinishFrom(ir, s)
    decreases |r|
  {
    hide Only, GoalHolds;
    if r == [] {
      LineIsEmpty(s.frontier);
      assert Finishes(ir, [s], []) && [s][0] == s;
    } else {
      assert Skips(|r|)[1..] == Skips(|r[1..]|);
      SkipFirst(s.frontier, r, Skips(|r|), SKIP);
      SkipsFinish(ir, Composite(s.facts, Refine(s.frontier, r[0], SKIP)), r[1..]);
      OnlyMove(ir, s, r, SKIP);
    }
  }

  lemma OneId(a: Addr, id: Name, v: seq<Name>)
    ensures a + Suffix([id]) == ChildAddr(a, id)
    ensures a + Suffix([id] + v) == ChildAddr(a, id) + Suffix(v)
    ensures ([id] + v)[..1] == [id]
  {
    assert [] + [id] == [id];
    SuffixSnoc(a, [], id);
    assert a + Suffix([]) == a;
    SuffixAppend([id], v);
  }

  lemma BlockedAtOnce(r: seq<Addr>, k: nat, id: Name, v: seq<Name>, l: nat)
    requires k < l < |r| && r[l] == ChildAddr(r[k], id)
    ensures Blocked(r, k, [id] + v)
  {
    OneId(r[k], id, v);
    hide Suffix, ChildAddr;
    assert Hits(r, k, ([id] + v)[..1]);
  }

  lemma HitsLater(r: seq<Addr>, id: Name, v: seq<Name>)
    requires r != []
    ensures v != [] ==> (Hits(r, 0, [id] + v) <==> Hits([ChildAddr(r[0], id)] + r[1..], 0, v))
  {
    var q := [ChildAddr(r[0], id)] + r[1..];
    OneId(r[0], id, v);
    hide Suffix, ChildAddr;
    assert forall l | 0 < l < |r| :: q[l] == r[l];
  }

  /** Once the first id leads to a new address, the rest of the way is what matters. */
  lemma BlockedLater(r: seq<Addr>, id: Name, v: seq<Name>)
    requires r != [] && ChildAddr(r[0], id) !in r[1..]
    ensures Blocked(r, 0, [id] + v) <==> Blocked([ChildAddr(r[0], id)] + r[1..], 0, v)
  {
    var q, w := [ChildAddr(r[0], id)] + r[1..], [id] + v;
    OneId(r[0], id, []);
    assert forall l | 0 < l < |r| :: r[l] == r[1..][l - 1];
    assert !Hits(r, 0, [id]);
    hide Hits, Suffix, ChildAddr;
    forall n | 0 < n <= |v| ensures Hits(r, 0, w[..n + 1]) <==> Hits(q, 0, v[..n]) {
      assert w[..n + 1] == [id] + v[..n];
      HitsLater(r, id, v[..n]);
    }
    assert w[..1] == [id];
    if Blocked(r, 0, w) {
      var n :| 0 < n <= |w| && Hits(r, 0, w[..n]);
      assert Hits(q, 0, v[..n - 1]);
    }
    if Blocked(q, 0, v) {
      var n :| 0 < n <= |v| && Hits(q, 0, v[..n]);
      assert Hits(r, 0, w[..n + 1]);
    }
  }

  /** The walker's next child lands on a later node: what is left can never be emptied. */
  lemma MeetsAndDies(ir: GroundedIR, s: Composite, r: seq<Addr>, m: GroundMethod, l: nat, id: Name, task: string)
    requires OrderedIR(ir) && m in ir.methods && IsLine(s.frontier, r) && 0 < l < |r| && r[l] == ChildAddr(r[0], id)
    requires m.subtasks == [GroundSubtask(id, task)] && m.order == []
    ensures !CanFinishFrom(ir, Composite(s.facts, Refine(s.frontier, r[0], m)))
  {
    var f := s.frontier;
    OnlyFirstIsEnabled(f, r);
    OneChild(r[0], m, id, task);
    LinePrecedes(f, r, 0, l);
    assert r[l] in Elems(r);
    assert CleanOrder(m.subtasks, m.order);
    HitIsDead(f, r[0], m, r[l]);
    RefineKeepsEdgesWithin(f, r[0], m);
    DeadCannotFinish(ir, Composite(s.facts, Refine(f, r[0], m)));
  }

  lemma LineStarts(f: Frontier, r: seq<Addr>, ts: seq<string>)
    requires TaskLine(f, r, ts) && r != []
    ensures |r| == |ts| && IsLine(f, r) && r[0] in f.pending && f.pending[r[0]] == ts[0]
  {
  }

  lemma WalkMethodIs(ir: GroundedIR, v: seq<Name>, t: nat)
    requires Walks(ir, v) && t <= |v|
    ensures var m := WalkMethod(v, t);
            && Only(ir, m) && m in ir.methods && m.task == GoName(t) && m.order == []
            && m.subtasks == if t < |v| then [GroundSubtask(v[t], GoName(t + 1))] else []
    ensures Only(ir, SKIP) && SKIP.task == "skip" && SKIP.order == [] && SKIP.subtasks == []
  {
  }

  lemma SkipsFollow(task: string, n: nat)
    ensures |Skips(n)| == n && ([task] + Skips(n))[1..] == Skips(n) && ([task] + Skips(n))[0] == task
  {
  }

  /** With the walker first, the line can be finished exactly when its way is not blocked. */
  lemma {:induction false} WalkFinishesIff(ir: GroundedIR, v: seq<Name>, t: nat, s: Composite, r: seq<Addr>)
    requires Walks(ir, v) && OrderedIR(ir) && GoalHolds(ir.goal, s.facts) && r != [] && t <= |v|
    requires TaskLine(s.frontier, r, [GoName(t)] + Skips(|r| - 1))
    ensures CanFinishFrom(ir, s) <==> !Blocked(r, 0, v[t..])
    decreases |v| - t
  {
    hide *;
    var m, ts := WalkMethod(v, t), [GoName(t)] + Skips(|r| - 1);
    var after := Composite(s.facts, Refine(s.frontier, r[0], m));
    SkipsFollow(GoName(t), |r| - 1);
    LineStarts(s.frontier, r, ts);
    WalkMethodIs(ir, v, t);
    OnlyMove(ir, s, r, m);
    if t == |v| {
      SkipFirst(s.frontier, r, ts, m);
      SkipsFinish(ir, after, r[1..]);
      NotBlockedYet(r, 0);
      assert v[t..] == [];
    } else {
      var id, c := v[t], ChildAddr(r[0], v[t]);
      assert v[t..] == [id] + v[t + 1..];
      if l :| 0 < l < |r| && r[l] == c {
        BlockedAtOnce(r, 0, id, v[t + 1..], l);
        MeetsAndDies(ir, s, r, m, l, id, GoName(t + 1));
      } else {
        assert forall l | 0 <= l < |r[1..]| :: r[1..][l] == r[l + 1];
        GoFirst(s.frontier, r, ts, m, id, GoName(t + 1));
        WalkFinishesIff(ir, v, t + 1, after, [c] + r[1..]);
        BlockedLater(r, id, v[t + 1..]);
      }
    }
  }

  lemma BlockedInRest(r: seq<Addr>, k: nat, v: seq<Name>)
    requires 0 < k < |r|
    ensures Blocked(r, k, v) <==> Blocked(r[1..], k - 1, v)
  {
    forall n | 0 < n <= |v| ensures Hits(r, k, v[..n]) <==> Hits(r[1..], k - 1, v[..n]) {
      if Hits(r, k, v[..n]) {
        var l :| k < l < |r| && r[l] == r[k] + Suffix(v[..n]);
        assert r[1..][l - 1] == r[1..][k - 1] + Suffix(v[..n]);
      }
      if Hits(r[1..], k - 1, v[..n]) {
        var l :| k - 1 < l < |r[1..]| && r[1..][l] == r[1..][k - 1] + Suffix(v[..n]);
        assert r[l + 1] == r[k] + Suffix(v[..n]);
      }
    }
  }

  /** With the walker at any rank, the line can be finished exactly when its way is not blocked. */
  lemma {:induction false} LineFinishesIff(ir: GroundedIR, v: seq<Name>, s: Composite, r: seq<Addr>, k: nat)
    requires Walks(ir, v) && OrderedIR(ir) && GoalHolds(ir.goal, s.facts) && k < |r|
    requires TaskLine(s.frontier, r, WalkLine(|r|, k))
    ensures CanFinishFrom(ir, s) <==> !Blocked(r, k, v)
    decreases k
  {
    hide *;
    var ts := WalkLine(|r|, k);
    WalkLineIs(|r|, k);
    LineStarts(s.frontier, r, ts);
    if k == 0 {
      assert v[0..] == v;
      WalkFinishesIff(ir, v, 0, s, r);
    } else {
      WalkMethodIs(ir, v, 0);
      OnlyMove(ir, s, r, SKIP);
      SkipFirst(s.frontier, r, ts, SKIP);
      LineFinishesIff(ir, v, Composite(s.facts, Refine(s.frontier, r[0], SKIP)), r[1..], k - 1);
      BlockedInRest(r, k, v);
    }
  }

  lemma WalkLineIs(n: nat, k: nat)
    requires k < n
    ensures |WalkLine(n, k)| == n
    ensures k == 0 ==> WalkLine(n, k) == [GoName(0)] + Skips(n - 1)
    ensures k > 0 ==> WalkLine(n, k)[0] == "skip" && WalkLine(n, k)[1..] == WalkLine(n - 1, k - 1)
  {
  }

  // ---- exactly which lines may be merged ----

  lemma TasksOfLine(f: Frontier, r: seq<Addr>, ts: seq<string>)
    requires TaskLine(f, r, ts)
    ensures Elems(r) <= f.pending.Keys && RankedTasks(f, r) == ts
  {
    LineCovers(f, r);
    hide IsLine;
  }

  /** Lines with one list of tasks and equally ranked constraints have one marker. */
  lemma SameTasksSameMarker(f: Frontier, r: seq<Addr>, g: Frontier, q: seq<Addr>, ts: seq<string>)
    requires TaskLine(f, r, ts) && TaskLine(g, q, ts) && RankedEdges(f.order, r) == RankedEdges(g.order, q)
    ensures FrontierMarker(f) == FrontierMarker(g)
  {
    TasksOfLine(f, r, ts);
    TasksOfLine(g, q, ts);
    TotalOrderIff(f, r);
    TotalOrderIff(g, q);
    hide IsLine, TotalOrder, CanonicalMarker, RankedTasks, RankedEdges;
    CanonicalMarkersAgree(f, r, g, q);
  }

  function Chain(r: seq<Addr>): set<Edge> {
    set i | 0 <= i < |r| - 1 :: Link(r, i)
  }

  function Link(r: seq<Addr>, i: nat): Edge
    requires i < |r| - 1
  {
    (r[i], r[i + 1])
  }

  /** The line of these nodes with these tasks. */
  ghost function LineOf(r: seq<Addr>, ts: seq<string>): Frontier
    requires |r| == |ts|
  {
    Frontier(map a | a in r :: ts[RankOf(r, a)], Chain(r))
  }

  lemma ChainIsLine(r: seq<Addr>)
    ensures Forward(Chain(r), r) && Consecutive(Chain(r), r)
  {
    forall i | 0 <= i < |r| - 1 ensures (r[i], r[i + 1]) in Chain(r) {
      assert Link(r, i) in Chain(r);
    }
    forall e | e in Chain(r) ensures exists i, j :: 0 <= i < j < |r| && e == (r[i], r[j]) {
      var i :| 0 <= i < |r| - 1 && e == Link(r, i);
      assert e == (r[i], r[i + 1]);
    }
  }

  lemma LineOfIsLine(r: seq<Addr>, ts: seq<string>)
    requires |r| == |ts| && Unrepeated(r)
    ensures TaskLine(LineOf(r, ts), r, ts)
  {
    var f := LineOf(r, ts);
    ChainIsLine(r);
    hide Chain, Forward, Consecutive;
    assert Elems(r) == f.pending.Keys;
    forall i | 0 <= i < |r| ensures r[i] in f.pending && f.pending[r[i]] == ts[i] {
      assert RankOf(r, r[i]) == i;
    }
  }

  lemma RankedChain(r: seq<Addr>, i: nat, j: nat)
    requires Unrepeated(r)
    ensures (i, j) in RankedEdges(Chain(r), r) <==> i < |r| - 1 && j == i + 1
  {
    if i < |r| && j < |r| {
      RankedEdge(Frontier(map[], Chain(r)), r, i, j);
      if (r[i], r[j]) in Chain(r) {
        var n :| 0 <= n < |r| - 1 && (r[i], r[j]) == Link(r, n);
      }
      if i < |r| - 1 && j == i + 1 {
        assert Link(r, i) in Chain(r);
      }
    }
  }

  lemma ChainsAreRankedAlike(r: seq<Addr>, q: seq<Addr>)
    requires |r| == |q| && Unrepeated(r) && Unrepeated(q)
    ensures RankedEdges(Chain(r), r) == RankedEdges(Chain(q), q)
  {
    forall i: nat, j: nat ensures (i, j) in RankedEdges(Chain(r), r) <==> (i, j) in RankedEdges(Chain(q), q) {
      RankedChain(r, i, j);
      RankedChain(q, i, j);
    }
    hide RankedEdges, Chain;
    assert forall x :: x in RankedEdges(Chain(r), r) <==> x in RankedEdges(Chain(q), q);
  }

  function WalkIR(v: seq<Name>): GroundedIR {
    GroundedIR([], WalkMethods(v), [], {}, Empty)
  }

  lemma GoNamesDiffer(i: nat, j: nat)
    ensures GoName(i) == GoName(j) ==> i == j
    ensures GoName(i) != "skip"
  {
    assert "skip"[0] == 's';
  }

  lemma WalkMethodsAre(v: seq<Name>, m: GroundMethod)
    requires m in WalkMethods(v)
    ensures m == SKIP || exists t :: 0 <= t <= |v| && m == WalkMethod(v, t)
  {
    var i :| 0 <= i < |WalkMethods(v)| && WalkMethods(v)[i] == m;
    assert i > 0 ==> m == WalkMethod(v, i - 1);
  }

  /** A program whose other methods do other tasks, and without actions, walks. */
  lemma WalksIf(ir: GroundedIR, v: seq<Name>)
    requires ir.actions == [] && forall m | m in WalkMethods(v) :: m in ir.methods
    requires forall m | m in ir.methods && m !in WalkMethods(v) :: m.task != "skip" && forall t | 0 <= t <= |v| :: m.task != GoName(t)
    ensures Walks(ir, v)
  {
    assert WalkMethods(v)[0] == SKIP;
    forall t | 0 <= t <= |v| ensures WalkMethod(v, t) in ir.methods {
      assert WalkMethods(v)[t + 1] == WalkMethod(v, t);
    }
    forall m, x | m in WalkMethods(v) && x in ir.methods && x.task == m.task ensures x == m {
      WalkMethodsAre(v, m);
      if x in WalkMethods(v) {
        WalkMethodsAre(v, x);
        OneMethodEach(v, m, x);
      }
    }
    forall t | 0 <= t <= |v| ensures Only(ir, WalkMethod(v, t)) {
      assert WalkMethods(v)[t + 1] == WalkMethod(v, t);
    }
    assert Only(ir, SKIP);
  }

  lemma OneMethodEach(v: seq<Name>, m: GroundMethod, x: GroundMethod)
    requires m == SKIP || exists t :: 0 <= t <= |v| && m == WalkMethod(v, t)
    requires x == SKIP || exists t :: 0 <= t <= |v| && x == WalkMethod(v, t)
    requires m.task == x.task
    ensures m == x
  {
    forall i: nat, j: nat ensures GoName(i) == GoName(j) ==> i == j ensures GoName(i) != "skip" {
      GoNamesDiffer(i, j);
    }
  }

  lemma NoOrderIsClean(sts: seq<GroundSubtask>)
    ensures CleanOrder(sts, [])
  {
    assert OrderRanked([], map[]);
  }

  lemma WalkMethodsAreClean(v: seq<Name>, ids: Ids)
    requires Over(v, ids)
    ensures forall m | m in WalkMethods(v) :: CleanOrder(m.subtasks, m.order) && IdsWithin(m.subtasks, ids)
  {
    forall m | m in WalkMethods(v) ensures CleanOrder(m.subtasks, m.order) && IdsWithin(m.subtasks, ids) {
      WalkMethodsAre(v, m);
      NoOrderIsClean(m.subtasks);
    }
  }

  /** Whatever the problem, states in these two lines with equal facts and equal markers can be finished alike. */
  ghost predicate LinesMerge(ids: Ids, r: seq<Addr>, q: seq<Addr>) {
    forall ir: GroundedIR, s: Composite, t: Composite |
      && OrderedIR(ir) && DrawsFrom(ir, ids) && IsLine(s.frontier, r) && IsLine(t.frontier, q)
      && s.facts == t.facts && FrontierMarker(s.frontier) == FrontierMarker(t.frontier) ::
      CanFinishFrom(ir, s) <==> CanFinishFrom(ir, t)
  }

  lemma BlockAlikeIf(ids: Ids, f: Frontier, r: seq<Addr>, g: Frontier, q: seq<Addr>)
    requires IsLine(f, r) && IsLine(g, q) && SameBlocks(ids, r, q)
    ensures BlockAlike(ids, f, g)
  {
    hide IsLine, SameBlocks;
    forall r', q' | IsLine(f, r') && IsLine(g, q') ensures r' == r && q' == q {
      TotalOrderIff(f, r);
      TotalOrderIff(f, r');
      TotalOrderIff(g, q);
      TotalOrderIff(g, q');
    }
  }

  lemma SameBlocksMerge(ids: Ids, r: seq<Addr>, q: seq<Addr>)
    requires SameBlocks(ids, r, q)
    ensures LinesMerge(ids, r, q)
  {
    hide OrderedIR, DrawsFrom, IsLine, FrontierMarker, CanFinishFrom, SameBlocks, BlockAlike;
    forall ir: GroundedIR, s: Composite, t: Composite |
      && OrderedIR(ir) && DrawsFrom(ir, ids) && IsLine(s.frontier, r) && IsLine(t.frontier, q)
      && s.facts == t.facts && FrontierMarker(s.frontier) == FrontierMarker(t.frontier)
      ensures CanFinishFrom(ir, s) <==> CanFinishFrom(ir, t)
    {
      LineIsWithin(s.frontier, r);
      LineIsWithin(t.frontier, q);
      BlockAlikeIf(ids, s.frontier, r, t.frontier, q);
      MarkedStatesFinishAlike(ids, ir, s, t);
    }
  }

  lemma WalkIRIs(v: seq<Name>, ids: Ids)
    requires Over(v, ids)
    ensures Walks(WalkIR(v), v) && OrderedIR(WalkIR(v)) && DrawsFrom(WalkIR(v), ids) && GoalHolds(WalkIR(v).goal, {})
  {
    WalkMethodsAreClean(v, ids);
    WalksIf(WalkIR(v), v);
  }

  /** The walker tells two lines apart if its way is blocked in only one of them. */
  lemma WalkerTellsApart(ids: Ids, r: seq<Addr>, q: seq<Addr>, k: nat, v: seq<Name>)
    requires |r| == |q| && Unrepeated(r) && Unrepeated(q) && LinesMerge(ids, r, q) && k < |r| && Over(v, ids)
    ensures Blocked(r, k, v) <==> Blocked(q, k, v)
  {
    var ts, ir := WalkLine(|r|, k), WalkIR(v);
    var s, t := Composite({}, LineOf(r, ts)), Composite({}, LineOf(q, ts));
    LineOfIsLine(r, ts);
    LineOfIsLine(q, ts);
    WalkIRIs(v, ids);
    ChainsAreRankedAlike(r, q);
    SameTasksSameMarker(s.frontier, r, t.frontier, q, ts);
    hide Walks, OrderedIR, DrawsFrom, GoalHolds, CanFinishFrom, FrontierMarker, Blocked, IsLine, LineOf, WalkIR, WalkLine, Over;
    LineFinishesIff(ir, v, s, r, k);
    LineFinishesIff(ir, v, t, q, k);
  }

  /** Two lines may be merged, whatever the problem over these ids, exactly when the same ways down are blocked in both. */
  lemma LinesMergeIff(ids: Ids, r: seq<Addr>, q: seq<Addr>)
    requires |r| == |q| && Unrepeated(r) && Unrepeated(q)
    ensures LinesMerge(ids, r, q) <==> SameBlocks(ids, r, q)
  {
    if SameBlocks(ids, r, q) {
      SameBlocksMerge(ids, r, q);
    }
    if LinesMerge(ids, r, q) {
      hide LinesMerge, Blocked;
      forall k, v | 0 <= k < |r| && Over(v, ids) ensures Blocked(r, k, v) <==> Blocked(q, k, v) {
        WalkerTellsApart(ids, r, q, k, v);
      }
    }
  }
}
