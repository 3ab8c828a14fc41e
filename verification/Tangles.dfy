// What can stand before what along a run, and for which subtask ids no way down is ever blocked.
module Tangles {
  import opened Prelude
  import opened HddlAst
  import opened Effects
  import opened Grounders
  import opened Htn
  import opened Addresses
  import opened Ordering
  import opened Markers
  import opened Bisimulation
  import opened Merging

  /** `x` lies at or below, and `y` is, a child of one node. */
  ghost predicate Beside(ids: Ids, x: Addr, y: Addr) {
    exists a, p, j :: IsNode(ids, a) && Over(p, ids) && p != [] && j in ids && x == a + Suffix(p) && y == ChildAddr(a, j)
  }

  lemma AddressAppend(n: seq<Name>, w: seq<Name>)
    ensures AddrOf(n + w) == AddrOf(n) + Suffix(w)
  {
    SuffixOfAddress(n + w);
    SuffixOfAddress(n);
    SuffixAppend(n, w);
  }

  lemma ChildSuffix(a: Addr, id: Name)
    ensures ChildAddr(a, id) == a + Suffix([id])
  {
    SuffixSnoc(a, [], id);
    assert a + Suffix([]) == a && [] + [id] == [id];
  }

  lemma NodeHasChildren(ids: Ids, a: Addr, id: Name)
    requires IsNode(ids, a) && id in ids
    ensures IsNode(ids, ChildAddr(a, id))
  {
    var n := PathOf(ids, a);
    AddrSnoc(n, id);
    assert Over(n + [id], ids);
  }

  lemma SiblingsAreBeside(ids: Ids, a: Addr, i: Name, j: Name)
    requires IsNode(ids, a) && i in ids && j in ids
    ensures Beside(ids, ChildAddr(a, i), ChildAddr(a, j))
  {
    ChildSuffix(a, i);
    hide Suffix, IsNode;
    assert Over([i], ids);
  }

  lemma ChildStaysBeside(ids: Ids, x: Addr, y: Addr, id: Name)
    requires Beside(ids, x, y) && id in ids
    ensures Beside(ids, ChildAddr(x, id), y)
  {
    var a, p, j :| IsNode(ids, a) && Over(p, ids) && p != [] && j in ids && x == a + Suffix(p) && y == ChildAddr(a, j);
    SuffixSnoc(a, p, id);
    hide Suffix, IsNode;
    assert Over(p + [id], ids);
  }

  // ---- along any run ----

  ghost predicate NodesOver(ids: Ids, f: Frontier) {
    forall a | a in f.pending :: IsNode(ids, a)
  }

  /** Every constraint leads from at or below one child of a node to another child of it. */
  ghost predicate EdgesBeside(ids: Ids, f: Frontier) {
    forall e | e in f.order :: Beside(ids, e.0, e.1)
  }

  lemma ChildrenAreNodes(ids: Ids, a: Addr, sts: seq<GroundSubtask>, c: Addr)
    requires IsNode(ids, a) && IdsWithin(sts, ids) && c in ChildAddrs(a, sts)
    ensures IsNode(ids, c)
  {
    var id := IdOf(a, sts, c);
    NodeHasChildren(ids, a, id);
  }

  lemma OrderedChildrenAreBeside(ids: Ids, a: Addr, sts: seq<GroundSubtask>, order: seq<(Name, Name)>, e: Edge)
    requires IsNode(ids, a) && IdsWithin(sts, ids) && CleanOrder(sts, order) && e in ChildOrder(a, order)
    ensures Beside(ids, e.0, e.1)
  {
    var k :| 0 <= k < |order| && e == (ChildAddr(a, order[k].0), ChildAddr(a, order[k].1));
    assert order[k].0 in IdsOf(sts) && order[k].1 in IdsOf(sts);
    SiblingsAreBeside(ids, a, order[k].0, order[k].1);
  }

  lemma StepKeepsBeside(ids: Ids, ir: GroundedIR, s: Composite, l: Label, s': Composite)
    requires OrderedIR(ir) && DrawsFrom(ir, ids) && Step(ir, s, l, s')
    requires NodesOver(ids, s.frontier) && EdgesBeside(ids, s.frontier)
    ensures NodesOver(ids, s'.frontier) && EdgesBeside(ids, s'.frontier)
  {
    var f, f' := s.frontier, s'.frontier;
    hide Beside, IsNode, CleanOrder;
    match l
    case Decompose(a, m) =>
      assert IsNode(ids, a);
      forall x | x in f'.pending ensures IsNode(ids, x) {
        PendingAfter(f, a, m, x);
        if x in ChildAddrs(a, m.subtasks) {
          ChildrenAreNodes(ids, a, m.subtasks, x);
        }
      }
      forall e | e in f'.order ensures Beside(ids, e.0, e.1) {
        NewEdgeIsBeside(ids, f, a, m, e);
      }
    case Execute(_, _, _) =>
  }

  lemma NewEdgeIsBeside(ids: Ids, f: Frontier, a: Addr, m: GroundMethod, e: Edge)
    requires a in Enabled(f) && IsNode(ids, a) && IdsWithin(m.subtasks, ids) && CleanOrder(m.subtasks, m.order)
    requires EdgesBeside(ids, f) && e in Refine(f, a, m).order
    ensures Beside(ids, e.0, e.1)
  {
    assert (e.0, e.1) in Refine(f, a, m).order;
    EdgeIff(f, a, m, e.0, e.1);
    hide Beside, Refine;
    if e in ChildOrder(a, m.order) {
      OrderedChildrenAreBeside(ids, a, m.subtasks, m.order, e);
    } else if e.0 in ChildAddrs(a, m.subtasks) && (a, e.1) in f.order {
      var id := IdOf(a, m.subtasks, e.0);
      ChildStaysBeside(ids, a, e.1, id);
    }
  }

  lemma RootIsNode(ids: Ids)
    ensures IsNode(ids, "r")
  {
    assert Over([], ids) && AddrOf([]) == "r";
  }

  lemma {:induction false} RunKeepsBeside(ids: Ids, ir: GroundedIR, states: seq<Composite>, labels: seq<Label>, i: nat)
    requires OrderedIR(ir) && DrawsFrom(ir, ids) && Run(ir, states, labels) && i <= |labels|
    ensures NodesOver(ids, states[i].frontier) && EdgesBeside(ids, states[i].frontier)
  {
    if i == 0 {
      var net :| net in ir.roots && states[0] == InitialState(ir.init, net);
      InitialIsBeside(ids, ir.init, net);
    } else {
      RunKeepsBeside(ids, ir, states, labels, i - 1);
      StepKeepsBeside(ids, ir, states[i - 1], labels[i - 1], states[i]);
    }
  }

  lemma InitialIsBeside(ids: Ids, init: Facts, net: RootNetwork)
    requires IdsWithin(net.subtasks, ids) && CleanOrder(net.subtasks, net.order)
    ensures NodesOver(ids, InitialState(init, net).frontier) && EdgesBeside(ids, InitialState(init, net).frontier)
  {
    var f := InitialState(init, net).frontier;
    RootIsNode(ids);
    ChildPendingKeys("r", net.subtasks);
    hide Beside, IsNode, CleanOrder;
    forall a | a in f.pending ensures IsNode(ids, a) {
      assert a in ChildAddrs("r", net.subtasks);
      ChildrenAreNodes(ids, "r", net.subtasks, a);
    }
    forall e | e in f.order ensures Beside(ids, e.0, e.1) {
      OrderedChildrenAreBeside(ids, "r", net.subtasks, net.order, e);
    }
  }

  // ---- along runs without collisions ----

  /** So does every constraint between pending nodes, direct or not. */
  ghost predicate OrderBeside(ids: Ids, f: Frontier) {
    forall x, y | x in f.pending && y in f.pending && Precedes(f.order, x, y) :: Beside(ids, x, y)
  }

  lemma FreshStepKeepsBeside(ids: Ids, f: Frontier, a: Addr, m: GroundMethod)
    requires a in Enabled(f) && EdgesWithin(f) && CleanOrder(m.subtasks, m.order) && IdsWithin(m.subtasks, ids)
    requires NodesOver(ids, f) && OrderBeside(ids, f) && Fresh(f, a, m)
    ensures OrderBeside(ids, Refine(f, a, m))
  {
    var f' := Refine(f, a, m);
    hide Beside, IsNode, Precedes, Refine, CleanOrder;
    forall x, y | x in f'.pending && y in f'.pending && Precedes(f'.order, x, y) ensures Beside(ids, x, y) {
      PendingAfter(f, a, m, x);
      PendingAfter(f, a, m, y);
      if x in ChildAddrs(a, m.subtasks) {
        var i := IdOf(a, m.subtasks, x);
        if y in ChildAddrs(a, m.subtasks) {
          var j := IdOf(a, m.subtasks, y);
          SiblingsAreBeside(ids, a, i, j);
        } else {
          ChildrenInheritSuccessors(f, a, m, x, y);
          ChildStaysBeside(ids, a, y, i);
        }
      } else if y in ChildAddrs(a, m.subtasks) {
        ChildrenInheritPredecessors(f, a, m, x, y);
        EnabledHasNoPredecessor(f, a, x);
        assert false;
      } else {
        RefineKeepsPrecedes(f, a, m, x, y);
      }
    }
  }

  lemma AdvanceKeepsBeside(ids: Ids, f: Frontier, a: Addr)
    requires a in Enabled(f) && OrderBeside(ids, f)
    ensures OrderBeside(ids, Advance(f, a))
  {
    hide Beside, Precedes;
    forall x, y | x in Advance(f, a).pending && y in Advance(f, a).pending && Precedes(Advance(f, a).order, x, y)
      ensures Beside(ids, x, y)
    {
      AdvanceKeepsPrecedes(f, a, x, y);
    }
  }

  /** No step of the run gives a child an occupied address. */
  ghost predicate CollisionFree(states: seq<Composite>, labels: seq<Label>) {
    |states| == |labels| + 1 && forall i | 0 <= i < |labels| :: !Collides(states[i], labels[i])
  }

  lemma CleanStepKeepsBeside(ids: Ids, ir: GroundedIR, s: Composite, l: Label, s': Composite)
    requires OrderedIR(ir) && DrawsFrom(ir, ids) && Step(ir, s, l, s') && !Collides(s, l)
    requires EdgesWithin(s.frontier) && NodesOver(ids, s.frontier) && OrderBeside(ids, s.frontier)
    ensures OrderBeside(ids, s'.frontier)
  {
    match l
    case Decompose(a, m) => FreshStepKeepsBeside(ids, s.frontier, a, m);
    case Execute(a, _, _) =>
      if s'.frontier != s.frontier {
        AdvanceKeepsBeside(ids, s.frontier, a);
      }
  }

  lemma InitialOrderIsBeside(ids: Ids, init: Facts, net: RootNetwork)
    requires IdsWithin(net.subtasks, ids)
    ensures OrderBeside(ids, InitialState(init, net).frontier)
  {
    var f := InitialState(init, net).frontier;
    RootIsNode(ids);
    ChildPendingKeys("r", net.subtasks);
    hide Beside, IsNode, Precedes;
    forall x, y | x in f.pending && y in f.pending ensures Beside(ids, x, y) {
      assert x in ChildAddrs("r", net.subtasks) && y in ChildAddrs("r", net.subtasks);
      var i := IdOf("r", net.subtasks, x);
      var j := IdOf("r", net.subtasks, y);
      SiblingsAreBeside(ids, "r", i, j);
    }
  }

  lemma {:induction false} CleanRunKeepsBeside(
    ids: Ids, ir: GroundedIR, states: seq<Composite>, labels: seq<Label>, i: nat)
    requires OrderedIR(ir) && DrawsFrom(ir, ids) && Run(ir, states, labels) && i <= |labels| && CollisionFree(states, labels)
    ensures OrderBeside(ids, states[i].frontier)
  {
    hide OrderedIR, DrawsFrom, Step, Collides, OrderBeside, EdgesWithin, NodesOver, EdgesBeside;
    if i == 0 {
      StartIsBeside(ids, ir, states, labels);
    } else {
      CleanRunKeepsBeside(ids, ir, states, labels, i - 1);
      RunKeepsEdgesWithin(ir, states, labels, i - 1);
      RunKeepsBeside(ids, ir, states, labels, i - 1);
      CleanStepKeepsBeside(ids, ir, states[i - 1], labels[i - 1], states[i]);
    }
  }

  lemma StartIsBeside(ids: Ids, ir: GroundedIR, states: seq<Composite>, labels: seq<Label>)
    requires DrawsFrom(ir, ids) && Run(ir, states, labels)
    ensures OrderBeside(ids, states[0].frontier)
  {
    var net :| net in ir.roots && states[0] == InitialState(ir.init, net);
    InitialOrderIsBeside(ids, ir.init, net);
  }

  // ---- ids that join from others ----

  /** Some id is the join of two or more. */
  ghost predicate SomeIdJoins(ids: Ids) {
    exists j, p :: j in ids && Over(p, ids) && |p| > 1 && AddrOf([j]) == AddrOf(p)
  }

  /** A node that can stand before one of the addresses below it exhibits an id that joins from others. */
  lemma MeetingJoins(ids: Ids, x: Addr, y: Addr, v: seq<Name>)
    requires Beside(ids, x, y) && Over(v, ids) && v != [] && y == x + Suffix(v)
    ensures SomeIdJoins(ids)
  {
    var a, p, j :| IsNode(ids, a) && Over(p, ids) && p != [] && j in ids && x == a + Suffix(p) && y == ChildAddr(a, j);
    SameJoin(a, p, v, j);
    hide Suffix, AddrOf, IsNode, ChildAddr;
    assert Over(p + v, ids);
  }

  lemma SameJoin(a: Addr, p: seq<Name>, v: seq<Name>, j: Name)
    requires ChildAddr(a, j) == a + Suffix(p) + Suffix(v)
    ensures AddrOf([j]) == AddrOf(p + v)
  {
    hide *;
    SuffixAppend(p, v);
    ChildSuffix(a, j);
    assert a + Suffix(p) + Suffix(v) == a + (Suffix(p) + Suffix(v));
    SuffixIsInjectiveAbove(a, [j], p + v);
    SuffixOfAddress([j]);
    SuffixOfAddress(p + v);
  }

  /** If the network is a line, no way down it is blocked. */
  ghost predicate OpenLine(ids: Ids, f: Frontier) {
    forall r, k, v | IsLine(f, r) && 0 <= k < |r| && Over(v, ids) :: !Hits(r, k, v)
  }

  lemma NeverBlockedAlike(ids: Ids, f: Frontier, r: seq<Addr>, g: Frontier, q: seq<Addr>)
    requires OpenLine(ids, f) && OpenLine(ids, g) && IsLine(f, r) && IsLine(g, q) && |r| == |q|
    ensures SameBlocks(ids, r, q)
  {
    hide Hits, IsLine;
    forall k, v | 0 <= k < |r| && Over(v, ids) ensures !Blocked(r, k, v) && !Blocked(q, k, v) {
      forall n | 0 < n <= |v| ensures Over(v[..n], ids) {
      }
    }
  }

  lemma CleanLineIsOpen(ids: Ids, ir: GroundedIR, states: seq<Composite>, labels: seq<Label>)
    requires OrderedIR(ir) && DrawsFrom(ir, ids) && Run(ir, states, labels) && CollisionFree(states, labels)
    ensures SomeIdJoins(ids) || OpenLine(ids, states[|labels|].frontier)
  {
    var f := states[|labels|].frontier;
    CleanRunKeepsBeside(ids, ir, states, labels, |labels|);
    hide Run, Beside, OrderedIR, DrawsFrom, SomeIdJoins;
    forall r, k, v | IsLine(f, r) && 0 <= k < |r| && Over(v, ids) && Hits(r, k, v) ensures SomeIdJoins(ids) {
      var l :| k < l < |r| && r[l] == r[k] + Suffix(v);
      LinePrecedes(f, r, k, l);
      assert r[k] in Elems(r) && r[l] in Elems(r);
      MeetingJoins(ids, r[k], r[l], v);
    }
  }

  // ---- tangles ----

  /** Each address can stand before the next, and the last lies below the first. */
  ghost predicate Tangle(ids: Ids, xs: seq<Addr>, v: seq<Name>) {
    && xs != [] && Over(v, ids) && v != [] && xs[|xs| - 1] == xs[0] + Suffix(v)
    && forall i | 0 < i < |xs| :: Beside(ids, xs[i - 1], xs[i])
  }

  ghost predicate Tangled(ids: Ids) {
    exists xs, v :: Tangle(ids, xs, v)
  }

  lemma BelowFirst(a: Addr, p: seq<Name>)
    requires p != []
    ensures a + Suffix(p) == ChildAddr(a, p[0]) + Suffix(p[1..])
  {
    ChildSuffix(a, p[0]);
    SuffixAppend([p[0]], p[1..]);
    hide Suffix, ChildAddr;
    assert [p[0]] + p[1..] == p;
  }

  lemma JoinIsSuffix(j: Name, p: seq<Name>)
    requires AddrOf([j]) == AddrOf(p) && |p| > 1
    ensures ChildAddr("r", j) == ChildAddr("r", p[0]) + Suffix(p[1..])
  {
    hide *;
    SuffixOfAddress([j]);
    SuffixOfAddress(p);
    ChildSuffix("r", j);
    BelowFirst("r", p);
  }

  lemma JoinedIdsAreTangled(ids: Ids)
    requires SomeIdJoins(ids)
    ensures Tangled(ids)
  {
    var j, p :| j in ids && Over(p, ids) && |p| > 1 && AddrOf([j]) == AddrOf(p);
    RootIsNode(ids);
    SiblingsAreBeside(ids, "r", p[0], j);
    JoinIsSuffix(j, p);
    hide Suffix, AddrOf, Beside, IsNode, ChildAddr;
    assert Over(p[1..], ids);
    assert Tangle(ids, [ChildAddr("r", p[0]), ChildAddr("r", j)], p[1..]);
  }

  /** Over unambiguous ids, what stands before a node below `n` lies below `n` itself. */
  lemma BesideBelow(ids: Ids, x: Addr, y: Addr, n: seq<Name>)
    requires Unambiguous(ids) && Beside(ids, x, y) && IsNode(ids, y) && n < PathOf(ids, y)
    ensures IsNode(ids, x) && n < PathOf(ids, x)
  {
    var a, p, j :| IsNode(ids, a) && Over(p, ids) && p != [] && j in ids && x == a + Suffix(p) && y == ChildAddr(a, j);
    var m := PathOf(ids, a);
    PathBelow(ids, a, p);
    ChildPath(ids, a, j);
    hide Suffix, AddrOf, Unambiguous, Beside;
    assert n == (m + [j])[..|n|] == m[..|n|];
    assert (m + p)[..|n|] == m[..|n|];
  }

  lemma PathBelow(ids: Ids, a: Addr, p: seq<Name>)
    requires Unambiguous(ids) && IsNode(ids, a) && Over(p, ids)
    ensures IsNode(ids, a + Suffix(p)) && PathOf(ids, a + Suffix(p)) == PathOf(ids, a) + p
  {
    var n := PathOf(ids, a);
    AddressAppend(n, p);
    hide Suffix, AddrOf;
    assert Over(n + p, ids);
  }

  lemma {:induction false} TangleGoesBack(ids: Ids, xs: seq<Addr>, v: seq<Name>, p: seq<Name>, i: nat)
    requires Unambiguous(ids) && Tangle(ids, xs, v) && i < |xs|
    requires IsNode(ids, xs[|xs| - 1]) && p < PathOf(ids, xs[|xs| - 1])
    ensures IsNode(ids, xs[i]) && p < PathOf(ids, xs[i])
    decreases |xs| - i
  {
    if i < |xs| - 1 {
      TangleGoesBack(ids, xs, v, p, i + 1);
      assert Beside(ids, xs[i + 1 - 1], xs[i + 1]);
      BesideBelow(ids, xs[i], xs[i + 1], p);
    }
  }

  /** Unambiguous ids are free of tangles. */
  lemma UnambiguousIsUntangled(ids: Ids)
    requires Unambiguous(ids)
    ensures !Tangled(ids)
  {
    if xs, v :| Tangle(ids, xs, v) {
      SuffixIsLonger(xs[0], v);
      if |xs| > 1 {
        assert Beside(ids, xs[1 - 1], xs[1]);
        FirstIsNode(ids, xs[0], xs[1]);
        PathBelow(ids, xs[0], v);
        TangleGoesBack(ids, xs, v, PathOf(ids, xs[0]), 0);
      }
    }
  }

  lemma SuffixIsLonger(a: Addr, v: seq<Name>)
    requires v != []
    ensures |a + Suffix(v)| > |a|
  {
  }

  lemma FirstIsNode(ids: Ids, x: Addr, y: Addr)
    requires Unambiguous(ids) && Beside(ids, x, y)
    ensures IsNode(ids, x)
  {
    var a, p, j :| IsNode(ids, a) && Over(p, ids) && p != [] && j in ids && x == a + Suffix(p) && y == ChildAddr(a, j);
    PathBelow(ids, a, p);
  }

  lemma NextInLine(f: Frontier, r: seq<Addr>, i: nat)
    requires IsLine(f, r) && 0 < i < |r|
    ensures (r[i - 1], r[i]) in f.order
  {
    assert (r[i - 1], r[i - 1 + 1]) in f.order;
  }

  lemma HitIsTangle(ids: Ids, f: Frontier, r: seq<Addr>, k: nat, v: seq<Name>)
    requires EdgesBeside(ids, f) && IsLine(f, r) && k < |r| && Over(v, ids) && Hits(r, k, v)
    ensures Tangled(ids)
  {
    var l :| k < l < |r| && r[l] == r[k] + Suffix(v);
    var xs := r[k..l + 1];
    hide Beside, Forward;
    forall i | 0 < i < |xs| ensures Beside(ids, xs[i - 1], xs[i]) {
      NextInLine(f, r, k + i);
    }
    hide IsLine;
    assert Tangle(ids, xs, v);
  }

  lemma LineIsOpen(ids: Ids, ir: GroundedIR, states: seq<Composite>, labels: seq<Label>)
    requires OrderedIR(ir) && DrawsFrom(ir, ids) && Run(ir, states, labels) && !Tangled(ids)
    ensures OpenLine(ids, states[|labels|].frontier)
  {
    RunKeepsBeside(ids, ir, states, labels, |labels|);
    var f := states[|labels|].frontier;
    hide Run, OrderedIR, DrawsFrom, Tangled, Hits, IsLine, EdgesBeside;
    forall r, k, v | IsLine(f, r) && 0 <= k < |r| && Over(v, ids) ensures !Hits(r, k, v) {
      if Hits(r, k, v) {
        HitIsTangle(ids, f, r, k, v);
      }
    }
  }

  // ---- vocabularies for which merging is sound ----

  /** Two runs that end with equal facts and equal markers. */
  ghost predicate SameStored(
    ir: GroundedIR, states: seq<Composite>, labels: seq<Label>, others: seq<Composite>, moves: seq<Label>) {
    && Run(ir, states, labels) && Run(ir, others, moves)
    && states[|labels|].facts == others[|moves|].facts
    && FrontierMarker(states[|labels|].frontier) == FrontierMarker(others[|moves|].frontier)
  }

  /** Whatever the problem over these ids, two such runs can both be continued to the goal, or neither can. */
  ghost predicate MergesWell(ids: Ids) {
    forall ir: GroundedIR, states: seq<Composite>, labels: seq<Label>, others: seq<Composite>, moves: seq<Label> |
      OrderedIR(ir) && DrawsFrom(ir, ids) && SameStored(ir, states, labels, others, moves) ::
      CanFinish(ir, states, labels) <==> CanFinish(ir, others, moves)
  }

  /** The same for runs in which no child takes an occupied address. */
  ghost predicate MergesWellBeforeCollisions(ids: Ids) {
    forall ir: GroundedIR, states: seq<Composite>, labels: seq<Label>, others: seq<Composite>, moves: seq<Label> |
      && OrderedIR(ir) && DrawsFrom(ir, ids) && SameStored(ir, states, labels, others, moves)
      && CollisionFree(states, labels) && CollisionFree(others, moves) ::
      CanFinish(ir, states, labels) <==> CanFinish(ir, others, moves)
  }

  lemma EqualMarkersEqualLengths(f: Frontier, r: seq<Addr>, g: Frontier, q: seq<Addr>)
    requires IsLine(f, r) && IsLine(g, q) && FrontierMarker(f) == FrontierMarker(g)
    ensures |r| == |q| && RankedEdges(f.order, r) == RankedEdges(g.order, q)
  {
    TotalOrderIff(f, r);
    TotalOrderIff(g, q);
    LineCovers(f, r);
    LineCovers(g, q);
    hide TotalOrder, IsLine, CanonicalMarker, RankedEdges;
    CanonicalMarkersAgree(f, r, g, q);
    assert |r| == |RankedTasks(f, r)| == |RankedTasks(g, q)| == |q|;
  }

  lemma OpenLinesMerge(
    ids: Ids, ir: GroundedIR, states: seq<Composite>, labels: seq<Label>, others: seq<Composite>, moves: seq<Label>)
    requires OrderedIR(ir) && DrawsFrom(ir, ids) && SameStored(ir, states, labels, others, moves)
    requires OpenLine(ids, states[|labels|].frontier) && OpenLine(ids, others[|moves|].frontier)
    ensures CanFinish(ir, states, labels) <==> CanFinish(ir, others, moves)
  {
    assert |states| == |labels| + 1 && |others| == |moves| + 1;
    hide OrderedIR, DrawsFrom, Run, CanFinish, IsLine, FrontierMarker, SameBlocks, OpenLine;
    var f, g := states[|labels|].frontier, others[|moves|].frontier;
    forall r, q | IsLine(f, r) && IsLine(g, q) ensures SameBlocks(ids, r, q) {
      EqualMarkersEqualLengths(f, r, g, q);
      NeverBlockedAlike(ids, f, r, g, q);
    }
    MergedStatesSolveAlike(ids, ir, states, labels, others, moves);
  }

  /** Without tangles merging is sound. */
  lemma UntangledMergesWell(ids: Ids)
    requires !Tangled(ids)
    ensures MergesWell(ids)
  {
    forall ir: GroundedIR, states: seq<Composite>, labels: seq<Label>, others: seq<Composite>, moves: seq<Label> |
      OrderedIR(ir) && DrawsFrom(ir, ids) && SameStored(ir, states, labels, others, moves)
      ensures CanFinish(ir, states, labels) <==> CanFinish(ir, others, moves)
    {
      hide OrderedIR, DrawsFrom, Run, CanFinish, Tangled, FrontierMarker, OpenLine;
      LineIsOpen(ids, ir, states, labels);
      LineIsOpen(ids, ir, others, moves);
      OpenLinesMerge(ids, ir, states, labels, others, moves);
    }
  }

  /** If no id joins from others, merging is sound until a child takes an occupied address. */
  lemma UnjoinedMergesWell(ids: Ids)
    requires !SomeIdJoins(ids)
    ensures MergesWellBeforeCollisions(ids)
  {
    forall ir: GroundedIR, states: seq<Composite>, labels: seq<Label>, others: seq<Composite>, moves: seq<Label> |
      && OrderedIR(ir) && DrawsFrom(ir, ids) && SameStored(ir, states, labels, others, moves)
      && CollisionFree(states, labels) && CollisionFree(others, moves)
      ensures CanFinish(ir, states, labels) <==> CanFinish(ir, others, moves)
    {
      hide OrderedIR, DrawsFrom, Run, CanFinish, SomeIdJoins, FrontierMarker, OpenLine, CollisionFree;
      CleanLineIsOpen(ids, ir, states, labels);
      CleanLineIsOpen(ids, ir, others, moves);
      OpenLinesMerge(ids, ir, states, labels, others, moves);
    }
  }
}
