// For which subtask ids merging is sound, and an accepted problem that loses its only plan when it is not.
module MergeSafety {
  import opened Prelude
  import opened HddlAst
  import opened Goals
  import opened Effects
  import opened Grounders
  import opened Validation
  import opened Htn
  import opened Addresses
  import opened Ordering
  import opened Markers
  import opened Bisimulation
  import opened Merging
  import opened Nullary
  import opened Pipeline
  import opened Preservation
  import opened Retasking
  import opened Tangles
  import opened Walkers

  // ---- a problem in which a joined id meets its parts ----

  /** `start` becomes a walker or a leaper under id `i`, before a task with nothing to do under id `j`. */
  function StartMethod(name: Name, i: Name, j: Name, first: Name): GroundMethod {
    GroundMethod(name, "start", GEmpty, EMPTY_BRANCH, [GroundSubtask(i, first), GroundSubtask(j, "skip")], [(i, j)])
  }

  /** The leaper becomes the walker one level further down. */
  function LeapMethod(j: Name): GroundMethod {
    GroundMethod("leap", "leap", GEmpty, EMPTY_BRANCH, [GroundSubtask(j, GoName(0))], [])
  }

  /** The walker follows `v`. */
  function Joined(i: Name, j: Name, v: seq<Name>): Program {
    Program(["start", "leap", "skip"] + seq(|v| + 1, t requires 0 <= t < |v| + 1 => GoName(t)),
            [StartMethod("near", i, j, GoName(0)), StartMethod("far", i, j, "leap"), LeapMethod(j)] + WalkMethods(v),
            [GroundSubtask(i, "start")], [])
  }

  function JoinedIR(i: Name, j: Name, v: seq<Name>): GroundedIR {
    ProgramIR(Joined(i, j, v))
  }

  lemma JoinedMethod(i: Name, j: Name, v: seq<Name>, m: GroundMethod)
    requires m in Joined(i, j, v).methods
    ensures || m == StartMethod("near", i, j, GoName(0)) || m == StartMethod("far", i, j, "leap") || m == LeapMethod(j)
            || m in WalkMethods(v)
  {
    var ms := Joined(i, j, v).methods;
    var k :| 0 <= k < |ms| && ms[k] == m;
    assert k >= 3 ==> m == WalkMethods(v)[k - 3];
  }

  lemma JoinedTasks(i: Name, j: Name, v: seq<Name>)
    ensures var ts := Joined(i, j, v).tasks;
            && Unrepeated(ts) && "start" in ts && "leap" in ts && "skip" in ts && forall t | 0 <= t <= |v| :: GoName(t) in ts
  {
    var ts := Joined(i, j, v).tasks;
    assert ts[0] == "start" && ts[1] == "leap" && ts[2] == "skip";
    forall t | 0 <= t <= |v| ensures GoName(t) in ts {
      assert ts[t + 3] == GoName(t);
    }
    assert "start"[0] == 's' && "leap"[0] == 'l' && "skip"[0] == 's' && "start"[1] != "skip"[1];
  }

  lemma JoinedNames(i: Name, j: Name, v: seq<Name>)
    ensures var ms := Joined(i, j, v).methods; forall a, b | 0 <= a < b < |ms| :: ms[a].name != ms[b].name
  {
    var ms := Joined(i, j, v).methods;
    assert "near"[0] == 'n' && "far"[0] == 'f' && "leap"[0] == 'l' && "skip"[0] == 's';
    assert ms[0].name == "near" && ms[1].name == "far" && ms[2].name == "leap" && ms[3].name == "skip";
    forall a | 4 <= a < |ms| ensures ms[a].name == GoName(a - 4) {
      assert ms[a] == WalkMethods(v)[a - 3] == WalkMethod(v, a - 4);
    }
    hide WalkMethods, WalkMethod, StartMethod, LeapMethod;
  }

  lemma StartIsClean(name: Name, i: Name, j: Name, first: Name)
    requires i != j
    ensures CleanOrder(StartMethod(name, i, j, first).subtasks, [(i, j)])
  {
    var sts := StartMethod(name, i, j, first).subtasks;
    assert sts[0].id in IdsOf(sts) && sts[1].id in IdsOf(sts);
    assert OrderRanked([(i, j)], map[i := 0, j := 1]);
  }

  lemma PlainIf(tasks: seq<Name>, m: GroundMethod)
    requires m.pre == GEmpty && m.effect == EMPTY_BRANCH && m.task in tasks && CallsOnly(m.subtasks, tasks)
    requires CleanOrder(m.subtasks, m.order)
    ensures PlainMethod(tasks, m)
  {
  }

  lemma WalkIsPlain(tasks: seq<Name>, v: seq<Name>, m: GroundMethod, ids: Ids)
    requires m in WalkMethods(v) && Over(v, ids) && "skip" in tasks && forall t | 0 <= t <= |v| :: GoName(t) in tasks
    ensures PlainMethod(tasks, m) && IdsWithin(m.subtasks, ids) && DistinctIds(m.subtasks)
  {
    WalkMethodsAre(v, m);
    NoOrderIsClean(m.subtasks);
    hide CleanOrder, GoName, WalkMethods;
    PlainIf(tasks, m);
  }

  lemma StartIsPlain(tasks: seq<Name>, name: Name, i: Name, j: Name, first: Name, ids: Ids)
    requires i != j && i in ids && j in ids && "start" in tasks && "skip" in tasks && first in tasks
    ensures var m := StartMethod(name, i, j, first);
            PlainMethod(tasks, m) && IdsWithin(m.subtasks, ids) && DistinctIds(m.subtasks)
  {
    StartIsClean(name, i, j, first);
    hide CleanOrder;
    PlainIf(tasks, StartMethod(name, i, j, first));
  }

  lemma LeapIsPlain(tasks: seq<Name>, j: Name, ids: Ids)
    requires j in ids && "leap" in tasks && GoName(0) in tasks
    ensures PlainMethod(tasks, LeapMethod(j)) && IdsWithin(LeapMethod(j).subtasks, ids) && DistinctIds(LeapMethod(j).subtasks)
  {
    NoOrderIsClean(LeapMethod(j).subtasks);
    hide CleanOrder, GoName;
    PlainIf(tasks, LeapMethod(j));
  }

  lemma JoinedMethodIsPlain(i: Name, j: Name, v: seq<Name>, m: GroundMethod, ids: Ids)
    requires i != j && m in Joined(i, j, v).methods && i in ids && j in ids && Over(v, ids)
    ensures PlainMethod(Joined(i, j, v).tasks, m) && IdsWithin(m.subtasks, ids) && DistinctIds(m.subtasks)
  {
    hide *;
    var tasks := Joined(i, j, v).tasks;
    JoinedMethod(i, j, v, m);
    JoinedTasks(i, j, v);
    if m in WalkMethods(v) {
      WalkIsPlain(tasks, v, m, ids);
    }
    StartIsPlain(tasks, "near", i, j, GoName(0), ids);
    StartIsPlain(tasks, "far", i, j, "leap", ids);
    LeapIsPlain(tasks, j, ids);
  }

  lemma JoinedIsGood(i: Name, j: Name, v: seq<Name>, ids: Ids)
    requires i != j && i in ids && j in ids && Over(v, ids)
    ensures GoodProgram(Joined(i, j, v)) && DrawsFrom(JoinedIR(i, j, v), ids) && DistinctIR(JoinedIR(i, j, v))
  {
    JoinedTasks(i, j, v);
    JoinedNames(i, j, v);
    NoOrderIsClean([GroundSubtask(i, "start")]);
    var x := Joined(i, j, v);
    assert x.root == [GroundSubtask(i, "start")] && x.order == [];
    hide PlainMethod, CleanOrder, Joined;
    forall m | m in x.methods ensures PlainMethod(x.tasks, m) && IdsWithin(m.subtasks, ids) && DistinctIds(m.subtasks) {
      JoinedMethodIsPlain(i, j, v, m, ids);
    }
    assert CallsOnly(x.root, x.tasks);
  }

  lemma JoinedWalks(i: Name, j: Name, v: seq<Name>)
    ensures Walks(JoinedIR(i, j, v), v) && GoalHolds(JoinedIR(i, j, v).goal, {})
  {
    var ir := JoinedIR(i, j, v);
    forall m | m in WalkMethods(v) ensures m in ir.methods {
      var k :| 0 <= k < |WalkMethods(v)| && WalkMethods(v)[k] == m;
      assert ir.methods[k + 3] == m;
    }
    forall m | m in ir.methods && m !in WalkMethods(v)
      ensures m.task != "skip" && forall t | 0 <= t <= |v| :: m.task != GoName(t)
    {
      JoinedMethod(i, j, v, m);
      assert "start"[0] == 's' && "leap"[0] == 'l' && "skip"[0] == 's' && "start"[1] != "skip"[1];
    }
    WalksIf(ir, v);
  }

  // ---- its two runs ----

  lemma StartState(i: Name, j: Name, v: seq<Name>)
    ensures Run(JoinedIR(i, j, v), [Composite({}, Frontier(map[ChildAddr("r", i) := "start"], {}))], [])
  {
    var ir := JoinedIR(i, j, v);
    var net := ir.roots[0];
    assert net.subtasks[..0] == [] && ChildPending("r", []) == map[];
    assert ChildPending("r", net.subtasks) == map[ChildAddr("r", i) := "start"];
    assert ChildOrder("r", net.order) == {};
    assert InitialState({}, net) == Composite({}, Frontier(map[ChildAddr("r", i) := "start"], {}));
    assert net in ir.roots;
  }

  /** Decomposing an unconstrained node into two ordered subtasks. */
  lemma TwoChildren(f: Frontier, a: Addr, m: GroundMethod, i: Name, j: Name, x: string, y: string)
    requires a in f.pending && (forall e | e in f.order :: e.0 != a && e.1 != a) && i != j
    requires m.subtasks == [GroundSubtask(i, x), GroundSubtask(j, y)] && m.order == [(i, j)]
    ensures ChildAddr(a, i) != ChildAddr(a, j)
    ensures Refine(f, a, m) == Frontier(f.pending - {a} + map[ChildAddr(a, i) := x, ChildAddr(a, j) := y],
                                        f.order + {(ChildAddr(a, i), ChildAddr(a, j))})
  {
    var c, d, sts := ChildAddr(a, i), ChildAddr(a, j), m.subtasks;
    if c == d {
      ChildAddrInjective(a, i, j);
    }
    assert sts[..1][..0] == [] && sts[..1] == [GroundSubtask(i, x)];
    assert ChildPending(a, sts[..1]) == map[c := x];
    assert ChildPending(a, sts) == map[c := x, d := y];
    assert ChildOrder(a, m.order) == {(c, d)} by {
      assert m.order[0] == (i, j);
    }
    hide ChildPending, ChildOrder, ChildAddr;
    assert a in Enabled(f);
    forall p, q ensures (p, q) in Refine(f, a, m).order <==> (p, q) in f.order + {(c, d)} {
      EdgeIff(f, a, m, p, q);
    }
    hide Refine;
    assert forall e :: e in Refine(f, a, m).order <==> (e.0, e.1) in f.order + {(c, d)};
    assert Refine(f, a, m).order == f.order + {(c, d)};
  }

  lemma StartMakesLine(a: Addr, name: Name, i: Name, j: Name, first: Name)
    requires i != j
    ensures var f := Refine(Frontier(map[a := "start"], {}), a, StartMethod(name, i, j, first));
            TaskLine(f, [ChildAddr(a, i), ChildAddr(a, j)], [first, "skip"])
  {
    var m := StartMethod(name, i, j, first);
    var f, x, y := Refine(Frontier(map[a := "start"], {}), a, m), ChildAddr(a, i), ChildAddr(a, j);
    TwoChildren(Frontier(map[a := "start"], {}), a, m, i, j, first, "skip");
    hide Refine;
    assert f.pending == map[x := first, y := "skip"];
    PairIsLine(f, x, y);
  }

  lemma PairIsLine(f: Frontier, x: Addr, y: Addr)
    requires x != y && f.pending.Keys == {x, y} && f.order == {(x, y)}
    ensures IsLine(f, [x, y])
  {
    var r := [x, y];
    assert r[0] == x && r[1] == y;
    assert Elems(r) == {x, y};
    assert forall e | e in f.order :: e == (r[0], r[1]);
  }

  lemma PairEdges(f: Frontier, r: seq<Addr>)
    requires IsLine(f, r) && |r| == 2
    ensures RankedEdges(f.order, r) == {(0, 1)}
  {
    assert (r[0], r[0 + 1]) in f.order;
    forall i: nat, j: nat ensures (i, j) in RankedEdges(f.order, r) <==> (i, j) == (0, 1) {
      if i < 2 && j < 2 {
        RankedEdge(f, r, i, j);
        if (r[i], r[j]) in f.order {
          var k, l :| 0 <= k < l < |r| && (r[i], r[j]) == (r[k], r[l]);
        }
      }
    }
    assert forall x :: x in RankedEdges(f.order, r) <==> x in {(0 as nat, 1 as nat)};
  }

  lemma NearRun(i: Name, j: Name, v: seq<Name>, name: Name, first: Name) returns (states: seq<Composite>, labels: seq<Label>)
    requires i != j && (name, first) in {("near", GoName(0)), ("far", "leap")}
    ensures Run(JoinedIR(i, j, v), states, labels) && CollisionFree(states, labels) && |states| == |labels| + 1
    ensures states[|labels|].facts == {}
    ensures var a := ChildAddr("r", i);
            TaskLine(states[|labels|].frontier, [ChildAddr(a, i), ChildAddr(a, j)], [first, "skip"])
  {
    var ir, a, m := JoinedIR(i, j, v), ChildAddr("r", i), StartMethod(name, i, j, first);
    var s := Composite({}, Frontier(map[a := "start"], {}));
    var l, s' := Decompose(a, m), AfterMethod(s, a, m);
    assert m in ir.methods by {
      assert ir.methods[0] == StartMethod("near", i, j, GoName(0)) && ir.methods[1] == StartMethod("far", i, j, "leap");
    }
    assert a in Enabled(s.frontier) && s'.facts == {};
    assert Step(ir, s, l, s');
    assert !Collides(s, l) by {
      NotItsOwnChild(a, m);
    }
    hide Step, Refine, StartMethod, JoinedIR;
    StartState(i, j, v);
    StartMakesLine(a, name, i, j, first);
    RunSnoc(ir, [s], [], l, s');
    states, labels := [s] + [s'], [] + [l];
  }

  lemma LeapIsNew(a: Addr, i: Name, j: Name)
    ensures ChildAddr(ChildAddr(a, i), j) != ChildAddr(a, i) && ChildAddr(ChildAddr(a, i), j) != ChildAddr(a, j)
  {
    assert |ChildAddr(ChildAddr(a, i), j)| > |ChildAddr(a, j)|;
  }

  /** The leap is a step without collision, to the line whose first node is one level further down. */
  lemma LeapStep(ir: GroundedIR, s: Composite, a: Addr, i: Name, j: Name) returns (l: Label, s': Composite)
    requires i != j && LeapMethod(j) in ir.methods && s.facts == {}
    requires TaskLine(s.frontier, [ChildAddr(a, i), ChildAddr(a, j)], ["leap", "skip"])
    ensures Step(ir, s, l, s') && !Collides(s, l) && s'.facts == {}
    ensures TaskLine(s'.frontier, [ChildAddr(ChildAddr(a, i), j), ChildAddr(a, j)], [GoName(0), "skip"])
  {
    var r, ts, m := [ChildAddr(a, i), ChildAddr(a, j)], ["leap", "skip"], LeapMethod(j);
    var x := r[0];
    l, s' := Decompose(x, m), AfterMethod(s, x, m);
    LeapIsNew(a, i, j);
    OnlyFirstIsEnabled(s.frontier, r);
    LineStarts(s.frontier, r, ts);
    LineCovers(s.frontier, r);
    hide IsLine, Enabled;
    assert Step(ir, s, l, s');
    OneChild(x, m, j, GoName(0));
    assert Elems(r) == {r[0], r[1]};
    assert !Collides(s, l);
    hide Refine, Collides, ChildAddr;
    GoFirst(s.frontier, r, ts, m, j, GoName(0));
    assert [ChildAddr(x, j)] + r[1..] == [ChildAddr(x, j), r[1]] && [GoName(0)] + ts[1..] == [GoName(0), "skip"];
  }

  lemma CleanSnoc(ir: GroundedIR, states: seq<Composite>, labels: seq<Label>, l: Label, s': Composite)
    requires Run(ir, states, labels) && CollisionFree(states, labels)
    requires Step(ir, states[|labels|], l, s') && !Collides(states[|labels|], l)
    ensures Run(ir, states + [s'], labels + [l]) && CollisionFree(states + [s'], labels + [l])
  {
    RunSnoc(ir, states, labels, l, s');
    hide Run, Collides;
  }

  lemma FarRun(i: Name, j: Name, v: seq<Name>) returns (states: seq<Composite>, labels: seq<Label>)
    requires i != j
    ensures Run(JoinedIR(i, j, v), states, labels) && CollisionFree(states, labels) && |states| == |labels| + 1
    ensures states[|labels|].facts == {}
    ensures var a := ChildAddr("r", i);
            TaskLine(states[|labels|].frontier, [ChildAddr(ChildAddr(a, i), j), ChildAddr(a, j)], [GoName(0), "skip"])
  {
    var ir := JoinedIR(i, j, v);
    assert ir.methods[2] == LeapMethod(j);
    hide *;
    states, labels := NearRun(i, j, v, "far", "leap");
    var l, s' := LeapStep(ir, states[|labels|], ChildAddr("r", i), i, j);
    CleanSnoc(ir, states, labels, l, s');
    states, labels := states + [s'], labels + [l];
  }

  lemma NearIsBlocked(a: Addr, i: Name, j: Name, p: seq<Name>)
    requires |p| > 1 && p[0] == i && AddrOf([j]) == AddrOf(p)
    ensures Blocked([ChildAddr(a, i), ChildAddr(a, j)], 0, p[1..])
  {
    var r, v := [ChildAddr(a, i), ChildAddr(a, j)], p[1..];
    SuffixOfAddress([j]);
    SuffixOfAddress(p);
    SuffixIsInjectiveAbove("r", [j], p);
    ChildSuffix(a, j);
    BelowFirst(a, p);
    hide Suffix, AddrOf, ChildAddr;
    assert v[..|v|] == v;
    assert r[1] == r[0] + Suffix(v);
    assert Hits(r, 0, v[..|v|]);
  }

  lemma FarIsOpen(a: Addr, i: Name, j: Name, v: seq<Name>)
    ensures !Blocked([ChildAddr(ChildAddr(a, i), j), ChildAddr(a, j)], 0, v)
  {
    var r := [ChildAddr(ChildAddr(a, i), j), ChildAddr(a, j)];
    assert |r[0]| > |r[1]|;
    hide ChildAddr;
    forall n | 0 < n <= |v| ensures !Hits(r, 0, v[..n]) {
      assert |r[0] + Suffix(v[..n])| >= |r[0]|;
    }
  }

  lemma PairWalks(ir: GroundedIR, v: seq<Name>, s: Composite, r: seq<Addr>)
    requires Walks(ir, v) && OrderedIR(ir) && GoalHolds(ir.goal, s.facts) && |r| == 2
    requires TaskLine(s.frontier, r, [GoName(0), "skip"])
    ensures CanFinishFrom(ir, s) <==> !Blocked(r, 0, v)
  {
    assert WalkLine(2, 0) == [GoName(0), "skip"];
    hide *;
    LineFinishesIff(ir, v, s, r, 0);
  }

  lemma PairsStoredAlike(s: Composite, r: seq<Addr>, t: Composite, q: seq<Addr>, ts: seq<string>)
    requires |r| == 2 && |q| == 2 && TaskLine(s.frontier, r, ts) && TaskLine(t.frontier, q, ts) && s.facts == t.facts
    ensures FrontierMarker(s.frontier) == FrontierMarker(t.frontier) && Augmented(s) == Augmented(t)
  {
    PairEdges(s.frontier, r);
    PairEdges(t.frontier, q);
    LineStarts(s.frontier, r, ts);
    LineStarts(t.frontier, q, ts);
    hide TaskLine, FrontierMarker, RankedEdges;
    SameTasksSameMarker(s.frontier, r, t.frontier, q, ts);
  }

  /** An id that joins from others is longer than the first of them. */
  lemma JoinedIsLonger(j: Name, p: seq<Name>)
    requires |p| > 1 && AddrOf([j]) == AddrOf(p)
    ensures p[0] != j
  {
    JoinIsSuffix(j, p);
    SuffixIsLonger(ChildAddr("r", p[0]), p[1..]);
  }

  /** An accepted input over these ids, with distinct ids in every network, and what it grounds to. */
  ghost predicate AcceptedSource(x: Program, ids: Ids) {
    var d, p, ir := ProgramDomain(x), ProgramProblem(x), ProgramIR(x);
    && Accepted(d, p) && InputIds(d, p) <= ids && Grounds(d, p, Limits(0, |x.methods|, false, false), ir)
    && OrderedIR(ir) && DrawsFrom(ir, ids) && DistinctIR(ir)
  }

  lemma JoinedIsAccepted(i: Name, j: Name, v: seq<Name>, ids: Ids)
    requires i != j && i in ids && j in ids && Over(v, ids)
    ensures AcceptedSource(Joined(i, j, v), ids)
  {
    var x := Joined(i, j, v);
    hide Joined;
    JoinedIsGood(i, j, v, ids);
    ProgramAccepted(x);
    ProgramGrounds(x);
    ProgramIds(x, ids);
    ProgramIsOrdered(x);
    hide *;
  }

  /** Two runs without collisions that end in states stored under the same facts; only the second can be finished. */
  ghost predicate LosesPlan(
    ir: GroundedIR, near: seq<Composite>, nearMoves: seq<Label>, far: seq<Composite>, farMoves: seq<Label>) {
    && SameStored(ir, near, nearMoves, far, farMoves) && Augmented(near[|nearMoves|]) == Augmented(far[|farMoves|])
    && CollisionFree(near, nearMoves) && CollisionFree(far, farMoves)
    && !CanFinish(ir, near, nearMoves) && CanFinish(ir, far, farMoves)
  }

  lemma JoinedLoses(i: Name, j: Name, p: seq<Name>, ir: GroundedIR)
    returns (near: seq<Composite>, nearMoves: seq<Label>, far: seq<Composite>, farMoves: seq<Label>)
    requires |p| > 1 && p[0] == i && i != j && AddrOf([j]) == AddrOf(p)
    requires ir == JoinedIR(i, j, p[1..]) && OrderedIR(ir)
    ensures LosesPlan(ir, near, nearMoves, far, farMoves)
  {
    hide *;
    var v, a := p[1..], ChildAddr("r", i);
    JoinedWalks(i, j, v);
    near, nearMoves := NearRun(i, j, v, "near", GoName(0));
    far, farMoves := FarRun(i, j, v);
    var s, t := near[|nearMoves|], far[|farMoves|];
    var r, q := [ChildAddr(a, i), ChildAddr(a, j)], [ChildAddr(ChildAddr(a, i), j), ChildAddr(a, j)];
    PairsStoredAlike(s, r, t, q, [GoName(0), "skip"]);
    NearIsBlocked(a, i, j, p);
    FarIsOpen(a, i, j, v);
    PairWalks(ir, v, s, r);
    PairWalks(ir, v, t, q);
    CanFinishIff(ir, near, nearMoves);
    CanFinishIff(ir, far, farMoves);
    AreSameStored(ir, near, nearMoves, far, farMoves);
    LosesPlanIf(ir, near, nearMoves, far, farMoves);
  }

  lemma LosesPlanIf(
    ir: GroundedIR, near: seq<Composite>, nearMoves: seq<Label>, far: seq<Composite>, farMoves: seq<Label>)
    requires SameStored(ir, near, nearMoves, far, farMoves) && Augmented(near[|nearMoves|]) == Augmented(far[|farMoves|])
    requires CollisionFree(near, nearMoves) && CollisionFree(far, farMoves)
    requires !CanFinish(ir, near, nearMoves) && CanFinish(ir, far, farMoves)
    ensures LosesPlan(ir, near, nearMoves, far, farMoves)
  {
  }

  /**
   * Every vocabulary in which some id is the join of others has an accepted problem that loses a plan:
   * of two states stored under the same facts exactly one can still be finished.
   */
  lemma JoinedIdsLosePlans(ids: Ids)
    returns (x: Program, near: seq<Composite>, nearMoves: seq<Label>, far: seq<Composite>, farMoves: seq<Label>)
    requires SomeIdJoins(ids)
    ensures AcceptedSource(x, ids) && LosesPlan(ProgramIR(x), near, nearMoves, far, farMoves)
  {
    hide *;
    var j, p := SomeJoin(ids);
    JoinedIsAccepted(p[0], j, p[1..], ids);
    x := Joined(p[0], j, p[1..]);
    SourceIsOrdered(x, ids);
    JoinedIRIs(p[0], j, p[1..]);
    near, nearMoves, far, farMoves := JoinedLoses(p[0], j, p, ProgramIR(x));
  }

  lemma SomeJoin(ids: Ids) returns (j: Name, p: seq<Name>)
    requires SomeIdJoins(ids)
    ensures j in ids && |p| > 1 && p[0] in ids && p[0] != j && Over(p[1..], ids) && AddrOf([j]) == AddrOf(p)
  {
    j, p :| j in ids && Over(p, ids) && |p| > 1 && AddrOf([j]) == AddrOf(p);
    hide AddrOf;
    JoinedIsLonger(j, p);
  }

  lemma SourceIsOrdered(x: Program, ids: Ids)
    requires AcceptedSource(x, ids)
    ensures OrderedIR(ProgramIR(x)) && DrawsFrom(ProgramIR(x), ids)
  {
    hide Accepted, Grounds, DistinctIR, OrderedIR, DrawsFrom;
  }

  lemma JoinedIRIs(i: Name, j: Name, v: seq<Name>)
    ensures JoinedIR(i, j, v) == ProgramIR(Joined(i, j, v))
  {
  }

  lemma AreSameStored(
    ir: GroundedIR, states: seq<Composite>, labels: seq<Label>, others: seq<Composite>, moves: seq<Label>)
    requires Run(ir, states, labels) && Run(ir, others, moves)
    requires states[|labels|].facts == others[|moves|].facts
    requires FrontierMarker(states[|labels|].frontier) == FrontierMarker(others[|moves|].frontier)
    ensures SameStored(ir, states, labels, others, moves)
  {
  }

  /** Before any child takes an occupied address, merging is sound for a vocabulary exactly when no id joins from others. */
  lemma MergesWellBeforeCollisionsIff(ids: Ids)
    ensures MergesWellBeforeCollisions(ids) <==> !SomeIdJoins(ids)
  {
    hide *;
    if SomeIdJoins(ids) {
      JoinedIdsMergeBadly(ids);
    } else {
      UnjoinedMergesWell(ids);
    }
  }

  lemma JoinedIdsMergeBadly(ids: Ids)
    requires SomeIdJoins(ids)
    ensures !MergesWellBeforeCollisions(ids) && !MergesWell(ids)
  {
    hide *;
    var x, near, nearMoves, far, farMoves := JoinedIdsLosePlans(ids);
    SourceIsOrdered(x, ids);
    LossIsUnsound(ids, ProgramIR(x), near, nearMoves, far, farMoves);
  }

  lemma LossIsUnsound(
    ids: Ids, ir: GroundedIR, near: seq<Composite>, nearMoves: seq<Label>, far: seq<Composite>, farMoves: seq<Label>)
    requires OrderedIR(ir) && DrawsFrom(ir, ids) && LosesPlan(ir, near, nearMoves, far, farMoves)
    ensures !MergesWellBeforeCollisions(ids) && !MergesWell(ids)
  {
    hide OrderedIR, DrawsFrom, SameStored, CollisionFree, CanFinish, Augmented;
  }

  // ---- the exact condition, collisions included ----

  /** A run of a problem over these ids ends in this line. */
  ghost predicate Reaches(ids: Ids, ir: GroundedIR, states: seq<Composite>, labels: seq<Label>, r: seq<Addr>) {
    && |states| == |labels| + 1
    && OrderedIR(ir) && DrawsFrom(ir, ids) && Run(ir, states, labels) && IsLine(states[|labels|].frontier, r)
  }

  /** Lines that runs over these ids can end in, with equally ranked constraints, have the same ways down blocked. */
  ghost predicate LinesAgree(ids: Ids) {
    forall ir: GroundedIR, states: seq<Composite>, labels: seq<Label>, r: seq<Addr>,
           ir': GroundedIR, others: seq<Composite>, moves: seq<Label>, q: seq<Addr> |
      && Reaches(ids, ir, states, labels, r) && Reaches(ids, ir', others, moves, q) && |r| == |q|
      && RankedEdges(states[|labels|].frontier.order, r) == RankedEdges(others[|moves|].frontier.order, q) ::
      SameBlocks(ids, r, q)
  }

  /** Both runs played again, and the walker. */
  function Made(x: Script, netx: RootNetwork, y: Script, nety: RootNetwork, v: seq<Name>): GroundedIR
    requires Sized(x) && Sized(y)
  {
    GroundedIR([], StepMethods(x) + StepMethods(y) + WalkMethods(v), [Opening(x, netx), Opening(y, nety)], {}, Empty)
  }

  lemma StepTaskIsOther(x: Script, n: nat, v: seq<Name>)
    requires x.tag == "1" || x.tag == "2"
    ensures StepTask(x, n) != "skip" && forall t | 0 <= t <= |v| :: StepTask(x, n) != GoName(t)
  {
    assert StepTask(x, n)[0] == x.tag[0];
    assert "skip"[0] == 's' && "1"[0] == '1' && "2"[0] == '2';
  }

  lemma StepMethodsAre(x: Script, m: GroundMethod)
    requires Sized(x) && m in StepMethods(x)
    ensures exists n :: 0 <= n < |x.labels| && m == StepMethod(x, n) && m.task == StepTask(x, n)
  {
    var n :| 0 <= n < |StepMethods(x)| && StepMethods(x)[n] == m;
    assert StepMethod(x, n).task == StepTask(x, n);
  }

  lemma MadeWalks(x: Script, netx: RootNetwork, y: Script, nety: RootNetwork, v: seq<Name>)
    requires Sized(x) && Sized(y) && x.tag == "1" && y.tag == "2"
    ensures Walks(Made(x, netx, y, nety, v), v) && GoalHolds(Made(x, netx, y, nety, v).goal, {})
  {
    var ir := Made(x, netx, y, nety, v);
    hide StepMethods, WalkMethods, StepTask, GoName, Opening;
    forall m | m in ir.methods && m !in WalkMethods(v)
      ensures m.task != "skip" && forall t | 0 <= t <= |v| :: m.task != GoName(t)
    {
      var z := if m in StepMethods(x) then x else y;
      StepMethodsAre(z, m);
      var n :| 0 <= n < |z.labels| && m == StepMethod(z, n) && m.task == StepTask(z, n);
      StepTaskIsOther(z, n, v);
    }
    WalksIf(ir, v);
  }

  lemma StepMethodsAreClean(ids: Ids, ir: GroundedIR, x: Script)
    requires Played(ir, x) && Sized(x) && OrderedIR(ir) && DrawsFrom(ir, ids)
    ensures forall m | m in StepMethods(x) :: CleanOrder(m.subtasks, m.order) && IdsWithin(m.subtasks, ids)
  {
    hide StepMethod, StepMethods, CleanOrder, Played, OrderedIR, DrawsFrom, StepTask;
    forall m | m in StepMethods(x) ensures CleanOrder(m.subtasks, m.order) && IdsWithin(m.subtasks, ids) {
      StepMethodsAre(x, m);
      var n :| 0 <= n < |x.labels| && m == StepMethod(x, n) && m.task == StepTask(x, n);
      StepMethodIsClean(ir, x, n, ids);
    }
  }

  lemma MadeIsClean(
    ids: Ids, ir: GroundedIR, x: Script, netx: RootNetwork, ir': GroundedIR, y: Script, nety: RootNetwork, v: seq<Name>)
    requires Played(ir, x) && Sized(x) && OrderedIR(ir) && DrawsFrom(ir, ids) && netx in ir.roots
    requires Played(ir', y) && Sized(y) && OrderedIR(ir') && DrawsFrom(ir', ids) && nety in ir'.roots && Over(v, ids)
    ensures OrderedIR(Made(x, netx, y, nety, v)) && DrawsFrom(Made(x, netx, y, nety, v), ids)
  {
    StepMethodsAreClean(ids, ir, x);
    StepMethodsAreClean(ids, ir', y);
    WalkMethodsAreClean(v, ids);
    OpeningIsClean(ir, x, netx, ids);
    OpeningIsClean(ir', y, nety, ids);
    hide StepMethods, WalkMethods, Opening, CleanOrder, Played, IdsWithin;
  }

  /** The script of a run that leaves the walker at rank `k` of its last line. */
  ghost function ScriptOf(states: seq<Composite>, labels: seq<Label>, tag: string, r: seq<Addr>, k: nat): Script {
    Script(states, labels, tag, LineOf(r, WalkLine(|r|, k)).pending)
  }

  lemma SameLine(f: Frontier, g: Frontier, r: seq<Addr>)
    requires IsLine(f, r) && g.pending.Keys == f.pending.Keys && g.order == f.order
    ensures IsLine(g, r)
  {
    hide Forward, Consecutive;
  }

  lemma LastTask(x: Script, a: Addr)
    requires Sized(x) && a in x.last
    ensures Fate(x, |x.labels|, a) == x.last[a]
  {
  }

  lemma StagedLine(x: Script, r: seq<Addr>, k: nat)
    requires Sized(x) && IsLine(x.states[|x.labels|].frontier, r) && x.last == LineOf(r, WalkLine(|r|, k)).pending
    ensures TaskLine(Staging(x, |x.labels|), r, WalkLine(|r|, k))
  {
    var f, g, ts := x.states[|x.labels|].frontier, Staging(x, |x.labels|), WalkLine(|r|, k);
    assert Unrepeated(r) && g.order == f.order;
    hide IsLine, LineOf, WalkLine, Staging, Fate, Unrepeated;
    StagingIs(x, |x.labels|);
    SameLine(f, g, r);
    LineCovers(g, r);
    LineOfIsLine(r, ts);
    forall i | 0 <= i < |r| ensures r[i] in g.pending && g.pending[r[i]] == ts[i] {
      assert r[i] in Elems(r);
      LastTask(x, r[i]);
    }
  }

  lemma ReachesParts(ids: Ids, ir: GroundedIR, states: seq<Composite>, labels: seq<Label>, r: seq<Addr>)
    returns (net: RootNetwork)
    requires Reaches(ids, ir, states, labels, r)
    ensures OrderedIR(ir) && DrawsFrom(ir, ids) && |states| == |labels| + 1 && IsLine(states[|labels|].frontier, r)
    ensures net in ir.roots && states[0] == InitialState(ir.init, net)
    ensures forall tag, k :: Played(ir, ScriptOf(states, labels, tag, r, k)) && Sized(ScriptOf(states, labels, tag, r, k))
  {
    net :| net in ir.roots && states[0] == InitialState(ir.init, net);
  }

  /** The made program plays the first or the second run and leaves the walker in its last line. */
  lemma MadePlays(
    ir: GroundedIR, x: Script, net: RootNetwork, made: GroundedIR, r: seq<Addr>, k: nat)
    returns (states: seq<Composite>, labels: seq<Label>)
    requires Played(ir, x) && Sized(x) && x.states[0] == InitialState(ir.init, net)
    requires IsLine(x.states[|x.labels|].frontier, r) && x.last == LineOf(r, WalkLine(|r|, k)).pending
    requires made.init == {} && Opening(x, net) in made.roots && forall m | m in StepMethods(x) :: m in made.methods
    ensures Run(made, states, labels) && |states| == |labels| + 1 && states[|labels|].facts == {}
    ensures TaskLine(states[|labels|].frontier, r, WalkLine(|r|, k))
    ensures states[|labels|].frontier.order == x.states[|x.labels|].frontier.order
  {
    hide TaskLine, IsLine, Run, Played, Opening, StepMethods;
    states, labels := PlayedAgain(ir, x, net, made, |x.labels|);
    StagedLine(x, r, k);
  }

  /** If merging is sound, the walker cannot tell two reachable lines apart. */
  lemma ReachableLinesAgree(
    ids: Ids, ir: GroundedIR, states: seq<Composite>, labels: seq<Label>, r: seq<Addr>,
    ir': GroundedIR, others: seq<Composite>, moves: seq<Label>, q: seq<Addr>, k: nat, v: seq<Name>)
    requires MergesWell(ids) && Reaches(ids, ir, states, labels, r) && Reaches(ids, ir', others, moves, q) && |r| == |q|
    requires RankedEdges(states[|labels|].frontier.order, r) == RankedEdges(others[|moves|].frontier.order, q)
    requires k < |r| && Over(v, ids)
    ensures Blocked(r, k, v) <==> Blocked(q, k, v)
  {
    var netx := ReachesParts(ids, ir, states, labels, r);
    var nety := ReachesParts(ids, ir', others, moves, q);
    var x, y := ScriptOf(states, labels, "1", r, k), ScriptOf(others, moves, "2", q, k);
    hide OrderedIR, DrawsFrom, Played, IsLine, Run, Reaches, SameBlocks, RankedEdges, InitialState, LineOf;
    assert Played(ir, x) && Sized(x) && Played(ir', y) && Sized(y);
    var made := Made(x, netx, y, nety, v);
    MadeIsClean(ids, ir, x, netx, ir', y, nety, v);
    MadeWalks(x, netx, y, nety, v);
    assert Opening(x, netx) == made.roots[0] && Opening(y, nety) == made.roots[1];
    var s', l' := MadePlays(ir, x, netx, made, r, k);
    var t', m' := MadePlays(ir', y, nety, made, q, k);
    hide Made, ScriptOf;
    WalkersMerge(ids, made, s', l', r, t', m', q, k, v);
  }

  lemma WalkersMerge(
    ids: Ids, ir: GroundedIR, states: seq<Composite>, labels: seq<Label>, r: seq<Addr>,
    others: seq<Composite>, moves: seq<Label>, q: seq<Addr>, k: nat, v: seq<Name>)
    requires MergesWell(ids) && OrderedIR(ir) && DrawsFrom(ir, ids) && Walks(ir, v) && GoalHolds(ir.goal, {})
    requires Run(ir, states, labels) && Run(ir, others, moves) && |r| == |q| && k < |r|
    requires states[|labels|].facts == {} && others[|moves|].facts == {}
    requires TaskLine(states[|labels|].frontier, r, WalkLine(|r|, k)) && TaskLine(others[|moves|].frontier, q, WalkLine(|r|, k))
    requires RankedEdges(states[|labels|].frontier.order, r) == RankedEdges(others[|moves|].frontier.order, q)
    ensures Blocked(r, k, v) <==> Blocked(q, k, v)
  {
    var s, t := states[|labels|], others[|moves|];
    hide MergesWell, OrderedIR, DrawsFrom, Walks, GoalHolds, Run, TaskLine, RankedEdges, Blocked, CanFinish, CanFinishFrom,
         FrontierMarker, WalkLine;
    SameTasksSameMarker(s.frontier, r, t.frontier, q, WalkLine(|r|, k));
    LineFinishesIff(ir, v, s, r, k);
    LineFinishesIff(ir, v, t, q, k);
    CanFinishIff(ir, states, labels);
    CanFinishIff(ir, others, moves);
    AreSameStored(ir, states, labels, others, moves);
    UseMerging(ids, ir, states, labels, others, moves);
  }

  lemma UseMerging(
    ids: Ids, ir: GroundedIR, states: seq<Composite>, labels: seq<Label>, others: seq<Composite>, moves: seq<Label>)
    requires MergesWell(ids) && OrderedIR(ir) && DrawsFrom(ir, ids) && SameStored(ir, states, labels, others, moves)
    ensures CanFinish(ir, states, labels) <==> CanFinish(ir, others, moves)
  {
  }

  lemma AgreeingLinesMerge(
    ids: Ids, ir: GroundedIR, states: seq<Composite>, labels: seq<Label>, others: seq<Composite>, moves: seq<Label>)
    requires LinesAgree(ids) && OrderedIR(ir) && DrawsFrom(ir, ids) && SameStored(ir, states, labels, others, moves)
    ensures CanFinish(ir, states, labels) <==> CanFinish(ir, others, moves)
  {
    assert |states| == |labels| + 1 && |others| == |moves| + 1;
    hide OrderedIR, DrawsFrom, Run, CanFinish, IsLine, FrontierMarker, SameBlocks, RankedEdges;
    var f, g := states[|labels|].frontier, others[|moves|].frontier;
    forall r, q | IsLine(f, r) && IsLine(g, q) ensures SameBlocks(ids, r, q) {
      EqualMarkersEqualLengths(f, r, g, q);
      assert Reaches(ids, ir, states, labels, r) && Reaches(ids, ir, others, moves, q);
    }
    MergedStatesSolveAlike(ids, ir, states, labels, others, moves);
  }

  lemma AgreementMerges(ids: Ids)
    requires LinesAgree(ids)
    ensures MergesWell(ids)
  {
    hide LinesAgree, OrderedIR, DrawsFrom, Run, FrontierMarker, CanFinish;
    forall ir: GroundedIR, states: seq<Composite>, labels: seq<Label>, others: seq<Composite>, moves: seq<Label> |
      OrderedIR(ir) && DrawsFrom(ir, ids) && SameStored(ir, states, labels, others, moves)
      ensures CanFinish(ir, states, labels) <==> CanFinish(ir, others, moves)
    {
      AgreeingLinesMerge(ids, ir, states, labels, others, moves);
    }
  }

  lemma SoundMergingAgrees(ids: Ids)
    requires MergesWell(ids)
    ensures LinesAgree(ids)
  {
    hide MergesWell, OrderedIR, DrawsFrom, Run, IsLine, RankedEdges, Blocked;
    forall ir: GroundedIR, states: seq<Composite>, labels: seq<Label>, r: seq<Addr>,
           ir': GroundedIR, others: seq<Composite>, moves: seq<Label>, q: seq<Addr> |
      && Reaches(ids, ir, states, labels, r) && Reaches(ids, ir', others, moves, q) && |r| == |q|
      && RankedEdges(states[|labels|].frontier.order, r) == RankedEdges(others[|moves|].frontier.order, q)
      ensures SameBlocks(ids, r, q)
    {
      forall k, v | 0 <= k < |r| && Over(v, ids) ensures Blocked(r, k, v) <==> Blocked(q, k, v) {
        ReachableLinesAgree(ids, ir, states, labels, r, ir', others, moves, q, k, v);
      }
    }
  }

  /**
   * Merging is sound for a vocabulary, whatever the problem and its runs, exactly when the lines that
   * runs can end in agree on the ways down that are blocked. Ids that join from others make it unsound;
   * it is sound if there is no tangle, and there is none if ids join unambiguously.
   */
  lemma MergesWellIff(ids: Ids)
    ensures MergesWell(ids) <==> LinesAgree(ids)
    ensures SomeIdJoins(ids) ==> !MergesWell(ids)
    ensures !Tangled(ids) ==> MergesWell(ids)
    ensures Unambiguous(ids) ==> !Tangled(ids)
  {
    hide *;
    if LinesAgree(ids) {
      AgreementMerges(ids);
    }
    if MergesWell(ids) {
      SoundMergingAgrees(ids);
    }
    if SomeIdJoins(ids) {
      JoinedIdsMergeBadly(ids);
    }
    if !Tangled(ids) {
      UntangledMergesWell(ids);
    }
    if Unambiguous(ids) {
      UnambiguousIsUntangled(ids);
    }
  }
}
