// Two ids, neither joined from others, whose collisions make a line that meets itself.
module Crossings {
  import opened Prelude
  import opened HddlAst
  import opened Goals
  import opened Effects
  import opened Grounders
  import opened Htn
  import opened Addresses
  import opened Ordering
  import opened Markers
  import opened Bisimulation
  import opened Merging
  import opened Tangles
  import opened Walkers
  import opened MergeSafety

  const TWO: Name := "a.a"
  const THREE: Name := "a.a.a"

  /** The `n`-th address below the root along the id `a`. */
  function Deep(n: nat): (a: Addr)
    ensures |a| == 1 + 2 * n
  {
    if n == 0 then "r" else Deep(n - 1) + ".a"
  }

  lemma Deeper(n: nat)
    ensures ChildAddr(Deep(n), TWO) == Deep(n + 2) && ChildAddr(Deep(n), THREE) == Deep(n + 3)
  {
    assert Deep(n + 2) == Deep(n) + ".a" + ".a";
    assert Deep(n + 3) == Deep(n + 2) + ".a";
    assert ".a" + ".a" == "." + TWO && "." + TWO + ".a" == "." + THREE;
  }

  function Fork(name: Name, first: Name): GroundMethod {
    GroundMethod(name, name, GEmpty, EMPTY_BRANCH, [GroundSubtask(TWO, first), GroundSubtask(THREE, "rest")], [(TWO, THREE)])
  }

  const DIVE := GroundMethod("dive", "dive", GEmpty, EMPTY_BRANCH, [GroundSubtask(THREE, "rest")], [])

  /** Two forks next to each other: the later child of the one is the earlier child of the other. */
  const FORKS: GroundedIR :=
    GroundedIR([], [Fork("left", "dive"), Fork("right", "rest"), DIVE],
               [RootNetwork([GroundSubtask(TWO, "left"), GroundSubtask(THREE, "right")], [])], {}, Empty)

  const FORKED: Ids := iset{TWO, THREE}

  lemma ForkIsClean(name: Name, first: Name)
    ensures CleanOrder(Fork(name, first).subtasks, Fork(name, first).order) && IdsWithin(Fork(name, first).subtasks, FORKED)
  {
    var sts := Fork(name, first).subtasks;
    assert sts[0].id in IdsOf(sts) && sts[1].id in IdsOf(sts);
    assert |TWO| < |THREE|;
    assert OrderRanked([(TWO, THREE)], map[TWO := 0, THREE := 1]);
  }

  lemma ForksAreClean()
    ensures OrderedIR(FORKS) && DrawsFrom(FORKS, FORKED)
  {
    ForkIsClean("left", "dive");
    ForkIsClean("right", "rest");
    NoOrderIsClean(DIVE.subtasks);
    NoOrderIsClean(FORKS.roots[0].subtasks);
    hide CleanOrder;
  }

  /** No two ids here join to a third. */
  lemma NoForkedIdJoins()
    ensures !SomeIdJoins(FORKED)
  {
    forall j, p | j in FORKED && Over(p, FORKED) && |p| > 1 ensures AddrOf([j]) != AddrOf(p) {
      SuffixOfAddress([j]);
      SuffixOfAddress(p);
      var n := |p| - 1;
      assert p[n] in FORKED && p[n - 1] in FORKED;
      assert p[..n][..n - 1] == p[..n - 1];
      assert |Suffix(p)| == |Suffix(p[..n])| + 1 + |p[n]| && |Suffix(p[..n])| == |Suffix(p[..n - 1])| + 1 + |p[n - 1]|;
      assert Suffix([j]) == "." + j;
      assert |TWO| == 3 && |THREE| == 5;
    }
  }

  lemma ForksStart()
    ensures Run(FORKS, [Composite({}, Frontier(map[Deep(2) := "left", Deep(3) := "right"], {}))], [])
  {
    var net := FORKS.roots[0];
    var sts := net.subtasks;
    Deeper(0);
    assert sts[..1][..0] == [] && sts[..1] == [GroundSubtask(TWO, "left")];
    assert ChildPending("r", sts[..1]) == map[Deep(2) := "left"];
    assert ChildPending("r", sts) == map[Deep(2) := "left", Deep(3) := "right"];
    assert ChildOrder("r", []) == {};
    assert InitialState({}, net) == Composite({}, Frontier(map[Deep(2) := "left", Deep(3) := "right"], {}));
    assert net in FORKS.roots;
  }

  lemma ForkStep(ir: GroundedIR, f: Frontier, n: nat, name: Name, first: Name) returns (l: Label)
    requires Fork(name, first) in ir.methods && Deep(n) in f.pending && f.pending[Deep(n)] == name
    requires forall e | e in f.order :: e.0 != Deep(n) && e.1 != Deep(n)
    ensures Step(ir, Composite({}, f), l, Composite({}, Frontier(
              f.pending - {Deep(n)} + map[Deep(n + 2) := first, Deep(n + 3) := "rest"],
              f.order + {(Deep(n + 2), Deep(n + 3))})))
  {
    var m := Fork(name, first);
    l := Decompose(Deep(n), m);
    Deeper(n);
    assert |TWO| < |THREE|;
    TwoChildren(f, Deep(n), m, TWO, THREE, first, "rest");
    hide Refine, Deep;
    assert Eval(m.pre, {}) == Ok(true) && Apply({}, m.effect) == {};
  }

  lemma DeepDiffer(m: nat, n: nat)
    requires m != n
    ensures Deep(m) != Deep(n)
  {
    assert |Deep(m)| != |Deep(n)|;
  }

  /** The networks after the first and after the second fork. */
  lemma ForkMaps(v: Addr, w: Addr, x: Addr, y: Addr, z: Addr)
    requires v != w && v != y && v != x && w != y && w != x && w != z && y != x && x != z && y != z
    ensures map[v := "left", w := "right"] - {v} + map[x := "dive", y := "rest"] == map[w := "right", x := "dive", y := "rest"]
    ensures map[w := "right", x := "dive", y := "rest"] - {w} + map[y := "rest", z := "rest"]
            == map[x := "dive", y := "rest", z := "rest"]
    ensures {} + {(x, y)} == {(x, y)} && {(x, y)} + {(y, z)} == {(x, y), (y, z)}
    ensures forall e | e in {(x, y)} :: e.0 != w && e.1 != w
  {
  }

  lemma ForksAreThere()
    ensures Fork("left", "dive") in FORKS.methods && Fork("right", "rest") in FORKS.methods && DIVE in FORKS.methods
  {
    assert FORKS.methods[0] == Fork("left", "dive") && FORKS.methods[1] == Fork("right", "rest") && FORKS.methods[2] == DIVE;
  }

  /** The forks make a line of three, whose last address lies below its first. */
  lemma ForksCross() returns (states: seq<Composite>, labels: seq<Label>)
    ensures Run(FORKS, states, labels) && |states| == |labels| + 1
    ensures states[|labels|] == Composite({}, LineOf([Deep(4), Deep(5), Deep(6)], ["dive", "rest", "rest"]))
  {
    hide *;
    var v, w, x, y, z := Deep(2), Deep(3), Deep(4), Deep(5), Deep(6);
    forall m, n | m in {2, 3, 4, 5, 6} && n in {2, 3, 4, 5, 6} && m != n ensures Deep(m) != Deep(n) {
      DeepDiffer(m, n);
    }
    ForkMaps(v, w, x, y, z);
    ForksAreThere();
    ForksStart();
    var f0 := Frontier(map[v := "left", w := "right"], {});
    var f1 := Frontier(map[w := "right", x := "dive", y := "rest"], {(x, y)});
    var f2 := Frontier(map[x := "dive", y := "rest", z := "rest"], {(x, y), (y, z)});
    var l := ForkStep(FORKS, f0, 2, "left", "dive");
    RunSnoc(FORKS, [Composite({}, f0)], [], l, Composite({}, f1));
    var l' := ForkStep(FORKS, f1, 3, "right", "rest");
    states, labels := [Composite({}, f0)] + [Composite({}, f1)], [] + [l];
    RunSnoc(FORKS, states, labels, l', Composite({}, f2));
    states, labels := states + [Composite({}, f2)], labels + [l'];
    ThreeInLine(f2, x, y, z);
  }

  lemma ThreeInLine(f: Frontier, x: Addr, y: Addr, z: Addr)
    requires x != y && y != z && x != z && f == Frontier(map[x := "dive", y := "rest", z := "rest"], {(x, y), (y, z)})
    ensures f == LineOf([x, y, z], ["dive", "rest", "rest"])
  {
    var r, ts := [x, y, z], ["dive", "rest", "rest"];
    ThreeChain(x, y, z);
    hide Chain;
    assert r[0] == x && r[1] == y && r[2] == z;
    var g := LineOf(r, ts);
    assert RankOf(r, x) == 0 && RankOf(r, y) == 1 && RankOf(r, z) == 2;
    assert g.pending == f.pending;
  }

  lemma ThreeChain(x: Addr, y: Addr, z: Addr)
    ensures Chain([x, y, z]) == {(x, y), (y, z)}
  {
    var r := [x, y, z];
    assert Link(r, 0) == (x, y) && Link(r, 1) == (y, z);
    assert Link(r, 0) in Chain(r) && Link(r, 1) in Chain(r);
    forall e | e in Chain(r) ensures e in {(x, y), (y, z)} {
      var i :| 0 <= i < |r| - 1 && e == Link(r, i);
      assert i == 0 || i == 1;
    }
  }

  lemma DiveStep(s: Composite, r: seq<Addr>, ts: seq<string>) returns (l: Label, s': Composite)
    requires TaskLine(s.frontier, r, ts) && r != [] && ts[0] == "dive" && s.facts == {} && ChildAddr(r[0], THREE) !in r[1..]
    ensures Step(FORKS, s, l, s') && IsLine(s'.frontier, [ChildAddr(r[0], THREE)] + r[1..])
    ensures s'.frontier.order == Passed(s.frontier.order, r[0], ChildAddr(r[0], THREE))
  {
    hide IsLine, Refine, ChildAddr, Passed, Fork;
    LineStarts(s.frontier, r, ts);
    OnlyFirstIsEnabled(s.frontier, r);
    ForksAreThere();
    l, s' := Decompose(r[0], DIVE), AfterMethod(s, r[0], DIVE);
    GoFirst(s.frontier, r, ts, DIVE, THREE, "rest");
    GoesDown(s.frontier, r[0], DIVE, THREE, "rest");
  }

  /** Diving first, the line ends with its first address out of reach. */
  lemma ForksDive() returns (states: seq<Composite>, labels: seq<Label>)
    ensures Run(FORKS, states, labels) && |states| == |labels| + 1
    ensures IsLine(states[|labels|].frontier, [Deep(7), Deep(5), Deep(6)])
    ensures states[|labels|].frontier.order == Chain([Deep(7), Deep(5), Deep(6)])
  {
    hide *;
    var r, ts := [Deep(4), Deep(5), Deep(6)], ["dive", "rest", "rest"];
    states, labels := ForksCross();
    ForkedNodesDiffer();
    LineOfIsLine(r, ts);
    Deeper(4);
    assert r[1..] == [Deep(5), Deep(6)] && [Deep(7)] + r[1..] == [Deep(7), Deep(5), Deep(6)];
    var l, s' := DiveStep(states[|labels|], r, ts);
    DiveOrder();
    RunSnoc(FORKS, states, labels, l, s');
    states, labels := states + [s'], labels + [l];
  }

  lemma ForkedNodesDiffer()
    ensures Unrepeated([Deep(4), Deep(5), Deep(6)]) && Unrepeated([Deep(7), Deep(5), Deep(6)])
    ensures Deep(7) != Deep(5) && Deep(7) != Deep(6)
  {
    DeepDiffer(4, 5);
    DeepDiffer(4, 6);
    DeepDiffer(5, 6);
    DeepDiffer(7, 5);
    DeepDiffer(7, 6);
    hide Deep;
  }

  lemma DiveOrder()
    ensures Passed(LineOf([Deep(4), Deep(5), Deep(6)], ["dive", "rest", "rest"]).order, Deep(4), Deep(7))
            == Chain([Deep(7), Deep(5), Deep(6)])
  {
    ThreeChain(Deep(4), Deep(5), Deep(6));
    ThreeChain(Deep(7), Deep(5), Deep(6));
    var order := {(Deep(4), Deep(5)), (Deep(5), Deep(6))};
    assert Deep(4) != Deep(5) && Deep(4) != Deep(6);
    hide Deep;
    assert Detach(order, Deep(4)) == {(Deep(5), Deep(6))};
    assert Successors(order, Deep(4)) == {Deep(5)};
    assert Pairs({Deep(7)}, {Deep(5)}) == {(Deep(7), Deep(5))};
  }

  /** Two ids of which neither joins from others, and for which merging is unsound: a collision made the line. */
  lemma JoinsAreNotAll()
    ensures !SomeIdJoins(FORKED) && MergesWellBeforeCollisions(FORKED) && !MergesWell(FORKED)
  {
    NoForkedIdJoins();
    UnjoinedMergesWell(FORKED);
    if MergesWell(FORKED) {
      SoundMergingAgrees(FORKED);
      CrossedLinesDisagree();
      assert false;
    }
  }

  lemma CrossedIsBlocked()
    ensures Blocked([Deep(4), Deep(5), Deep(6)], 0, [TWO]) && Over([TWO], FORKED)
  {
    var r := [Deep(4), Deep(5), Deep(6)];
    Deeper(4);
    OneId(r[0], TWO, []);
    hide Deep, Suffix, ChildAddr;
    assert [TWO][..1] == [TWO];
    assert r[2] == r[0] + Suffix([TWO]);
    assert Hits(r, 0, [TWO][..1]);
  }

  lemma CrossedLinesDisagree()
    ensures !LinesAgree(FORKED)
  {
    hide *;
    var r, q, ts := [Deep(4), Deep(5), Deep(6)], [Deep(7), Deep(5), Deep(6)], ["dive", "rest", "rest"];
    ForksAreClean();
    ForkedNodesDiffer();
    var states, labels := ForksCross();
    var others, moves := ForksDive();
    LineOfIsLine(r, ts);
    ChainsAreRankedAlike(r, q);
    LineOrder(r, ts);
    CrossedIsBlocked();
    DiverIsOpen();
    LineReached(FORKED, FORKS, states, labels, r, ts);
    DoReach(FORKED, FORKS, others, moves, q);
    Disagree(FORKED, FORKS, states, labels, r, others, moves, q, [TWO]);
  }

  lemma LineOrder(r: seq<Addr>, ts: seq<string>)
    requires |r| == |ts|
    ensures LineOf(r, ts).order == Chain(r)
  {
  }

  lemma DoReach(ids: Ids, ir: GroundedIR, states: seq<Composite>, labels: seq<Label>, r: seq<Addr>)
    requires OrderedIR(ir) && DrawsFrom(ir, ids) && Run(ir, states, labels) && IsLine(states[|labels|].frontier, r)
    ensures Reaches(ids, ir, states, labels, r)
  {
  }

  lemma LineReached(
    ids: Ids, ir: GroundedIR, states: seq<Composite>, labels: seq<Label>, r: seq<Addr>, ts: seq<string>)
    requires OrderedIR(ir) && DrawsFrom(ir, ids) && Run(ir, states, labels)
    requires TaskLine(states[|labels|].frontier, r, ts)
    ensures Reaches(ids, ir, states, labels, r)
  {
  }

  lemma Disagree(
    ids: Ids, ir: GroundedIR, states: seq<Composite>, labels: seq<Label>, r: seq<Addr>,
    others: seq<Composite>, moves: seq<Label>, q: seq<Addr>, v: seq<Name>)
    requires Reaches(ids, ir, states, labels, r) && Reaches(ids, ir, others, moves, q) && |r| == |q| > 0
    requires RankedEdges(states[|labels|].frontier.order, r) == RankedEdges(others[|moves|].frontier.order, q)
    requires Over(v, ids) && Blocked(r, 0, v) && !Blocked(q, 0, v)
    ensures !LinesAgree(ids)
  {
    hide OrderedIR, DrawsFrom, Run, IsLine, RankedEdges, Blocked;
    assert !SameBlocks(ids, r, q);
  }

  lemma DiverIsOpen()
    ensures !Blocked([Deep(7), Deep(5), Deep(6)], 0, [TWO])
  {
    var q := [Deep(7), Deep(5), Deep(6)];
    assert |q[1]| < |q[0]| && |q[2]| < |q[0]|;
    hide Deep, Suffix;
    forall n | 0 < n <= 1 ensures !Hits(q, 0, [TWO][..n]) {
      assert |q[0] + Suffix([TWO][..n])| >= |q[0]|;
    }
  }
}
