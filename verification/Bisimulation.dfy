// Networks that are alike: equal markers make them so, and when the steps of one are followed in the other.
module Bisimulation {
  import opened Prelude
  import opened HddlAst
  import opened Names
  import opened Goals
  import opened Effects
  import opened Grounders
  import opened TypeClosure
  import opened Htn
  import opened Addresses
  import opened Ordering
  import opened Markers

  /** A node for each node. */
  type Matching = map<Addr, Addr>

  ghost predicate KeepsTasks(m: Matching, f: Frontier, g: Frontier) {
    m.Keys == f.pending.Keys && forall a | a in m :: m[a] in g.pending && g.pending[m[a]] == f.pending[a]
  }

  ghost predicate OneToOne(m: Matching) {
    forall a, b | a in m && b in m && m[a] == m[b] :: a == b
  }

  ghost predicate Onto(m: Matching, nodes: set<Addr>) {
    forall b | b in nodes :: exists a :: a in m && m[a] == b
  }

  ghost predicate KeepsEdges(m: Matching, order: set<Edge>, order': set<Edge>) {
    forall a, b | a in m && b in m :: (a, b) in order <==> (m[a], m[b]) in order'
  }

  /** One to one between the pending nodes, keeping tasks and constraints. */
  ghost predicate Matches(m: Matching, f: Frontier, g: Frontier) {
    && EdgesWithin(f) && EdgesWithin(g)
    && KeepsTasks(m, f, g) && OneToOne(m) && Onto(m, g.pending.Keys) && KeepsEdges(m, f.order, g.order)
  }

  /** The same tasks under the same constraints, whatever the addresses. */
  ghost predicate Alike(f: Frontier, g: Frontier) {
    exists m :: Matches(m, f, g)
  }

  ghost function Preimage(m: Matching, b: Addr): (a: Addr)
    requires exists a :: a in m && m[a] == b
    ensures a in m && m[a] == b
  {
    var a :| a in m && m[a] == b;
    a
  }

  ghost function Inverse(m: Matching, nodes: set<Addr>): Matching
    requires Onto(m, nodes)
  {
    map b | b in nodes :: Preimage(m, b)
  }

  lemma InverseOf(m: Matching, nodes: set<Addr>, a: Addr)
    requires Onto(m, nodes) && OneToOne(m) && a in m && m[a] in nodes
    ensures Inverse(m, nodes)[m[a]] == a
  {
  }

  lemma InverseAt(m: Matching, nodes: set<Addr>, b: Addr)
    requires Onto(m, nodes) && b in nodes
    ensures Inverse(m, nodes)[b] in m && m[Inverse(m, nodes)[b]] == b
  {
  }

  lemma InverseIsOneToOne(m: Matching, nodes: set<Addr>)
    requires Onto(m, nodes) && OneToOne(m) && forall a | a in m :: m[a] in nodes
    ensures OneToOne(Inverse(m, nodes)) && Onto(Inverse(m, nodes), m.Keys)
  {
    var inv := Inverse(m, nodes);
    forall b, c | b in inv && c in inv && inv[b] == inv[c] ensures b == c {
      InverseAt(m, nodes, b);
      InverseAt(m, nodes, c);
    }
    forall a | a in m.Keys ensures exists b :: b in inv && inv[b] == a {
      InverseOf(m, nodes, a);
      assert m[a] in inv;
    }
  }

  lemma InverseKeepsEdges(m: Matching, nodes: set<Addr>, order: set<Edge>, order': set<Edge>)
    requires Onto(m, nodes) && KeepsEdges(m, order, order')
    ensures KeepsEdges(Inverse(m, nodes), order', order)
  {
    var inv := Inverse(m, nodes);
    forall b, c | b in inv && c in inv ensures (b, c) in order' <==> (inv[b], inv[c]) in order {
      InverseAt(m, nodes, b);
      InverseAt(m, nodes, c);
    }
  }

  lemma InverseKeepsTasks(m: Matching, f: Frontier, g: Frontier)
    requires Onto(m, g.pending.Keys) && KeepsTasks(m, f, g)
    ensures KeepsTasks(Inverse(m, g.pending.Keys), g, f)
  {
    forall b | b in g.pending {
      InverseAt(m, g.pending.Keys, b);
    }
  }

  lemma InverseMatches(m: Matching, f: Frontier, g: Frontier)
    requires Matches(m, f, g)
    ensures Matches(Inverse(m, g.pending.Keys), g, f)
  {
    InverseIsOneToOne(m, g.pending.Keys);
    InverseKeepsEdges(m, g.pending.Keys, f.order, g.order);
    InverseKeepsTasks(m, f, g);
    hide EdgesWithin, Inverse, OneToOne, Onto, KeepsEdges;
    assert m.Keys == f.pending.Keys;
  }

  lemma AlikeIsSymmetric(f: Frontier, g: Frontier)
    requires Alike(f, g)
    ensures Alike(g, f)
  {
    var m :| Matches(m, f, g);
    InverseMatches(m, f, g);
    hide Matches;
  }

  lemma AlikeToItself(f: Frontier)
    requires EdgesWithin(f)
    ensures Alike(f, f)
  {
    var m := map a | a in f.pending :: a;
    forall b | b in f.pending ensures exists a :: a in m && m[a] == b {
      assert b in m && m[b] == b;
    }
    assert Matches(m, f, f);
  }

  lemma AlikeToEmpty(f: Frontier, g: Frontier)
    requires Alike(f, g) && f.pending == map[]
    ensures g.pending == map[]
  {
    var m :| Matches(m, f, g);
    assert g.pending.Keys == {};
  }

  // ---- equal markers mean matching networks ----

  lemma LineIsWithin(f: Frontier, r: seq<Addr>)
    requires IsLine(f, r)
    ensures EdgesWithin(f)
  {
    forall e | e in f.order ensures e.0 in f.pending && e.1 in f.pending {
      var i, j :| 0 <= i < j < |r| && e == (r[i], r[j]);
      assert r[i] in Elems(r) && r[j] in Elems(r);
    }
  }

  ghost function RankOf(r: seq<Addr>, a: Addr): (i: nat)
    requires a in r
    ensures i < |r| && r[i] == a
  {
    var i :| 0 <= i < |r| && r[i] == a;
    i
  }

  ghost function ByRank(r: seq<Addr>, q: seq<Addr>): Matching
    requires |r| == |q|
  {
    map a | a in r :: q[RankOf(r, a)]
  }

  /** Rank by rank, from one line to the other. */
  lemma ByRankAt(r: seq<Addr>, q: seq<Addr>, i: nat)
    requires |r| == |q| && Unrepeated(r) && i < |r|
    ensures r[i] in ByRank(r, q) && ByRank(r, q)[r[i]] == q[i]
  {
    assert RankOf(r, r[i]) == i;
  }

  lemma ByRankIsOneToOne(r: seq<Addr>, q: seq<Addr>)
    requires |r| == |q| && Unrepeated(r) && Unrepeated(q)
    ensures OneToOne(ByRank(r, q)) && Onto(ByRank(r, q), Elems(q))
  {
    forall b | b in Elems(q) ensures exists a :: a in ByRank(r, q) && ByRank(r, q)[a] == b {
      var i :| 0 <= i < |q| && q[i] == b;
      ByRankAt(r, q, i);
    }
  }

  lemma RankedEdge(f: Frontier, r: seq<Addr>, i: nat, j: nat)
    requires Unrepeated(r) && i < |r| && j < |r|
    ensures (i, j) in RankedEdges(f.order, r) <==> (r[i], r[j]) in f.order
  {
    if (i, j) in RankedEdges(f.order, r) {
      assert (r[i], r[j]) in f.order;
    }
    if (r[i], r[j]) in f.order {
      assert (i as nat, j as nat) in RankedEdges(f.order, r);
    }
  }

  lemma ByRankKeepsTasks(f: Frontier, r: seq<Addr>, g: Frontier, q: seq<Addr>)
    requires |r| == |q| && Elems(r) == f.pending.Keys && Elems(q) == g.pending.Keys
    requires RankedTasks(f, r) == RankedTasks(g, q)
    ensures KeepsTasks(ByRank(r, q), f, g)
  {
    var m := ByRank(r, q);
    assert forall a :: a in m <==> a in Elems(r);
    forall a | a in m ensures m[a] in g.pending && g.pending[m[a]] == f.pending[a] {
      var i := RankOf(r, a);
      assert q[i] in Elems(q);
      assert RankedTasks(f, r)[i] == RankedTasks(g, q)[i];
    }
  }

  lemma ByRankKeepsEdges(f: Frontier, r: seq<Addr>, g: Frontier, q: seq<Addr>)
    requires |r| == |q| && Unrepeated(r) && Unrepeated(q) && RankedEdges(f.order, r) == RankedEdges(g.order, q)
    ensures KeepsEdges(ByRank(r, q), f.order, g.order)
  {
    var m := ByRank(r, q);
    forall a, b | a in m && b in m ensures (a, b) in f.order <==> (m[a], m[b]) in g.order {
      var i, j := RankOf(r, a), RankOf(r, b);
      RankedEdge(f, r, i, j);
      RankedEdge(g, q, i, j);
    }
  }

  /** Lines with equal tasks and equally ranked constraints match rank by rank. */
  lemma LinesMatch(f: Frontier, r: seq<Addr>, g: Frontier, q: seq<Addr>)
    requires IsLine(f, r) && IsLine(g, q)
    requires RankedTasks(f, r) == RankedTasks(g, q) && RankedEdges(f.order, r) == RankedEdges(g.order, q)
    ensures |r| == |q| && Matches(ByRank(r, q), f, g)
  {
    assert |r| == |RankedTasks(f, r)| == |RankedTasks(g, q)| == |q|;
    LineIsWithin(f, r);
    LineIsWithin(g, q);
    ByRankKeepsTasks(f, r, g, q);
    ByRankKeepsEdges(f, r, g, q);
    ByRankIsOneToOne(r, q);
    hide EdgesWithin, KeepsTasks, OneToOne, Onto, KeepsEdges;
  }

  /** Networks with one marker are alike: addresses aside, the same tasks under the same constraints. */
  lemma EqualMarkersAreAlike(f: Frontier, g: Frontier)
    requires EdgesWithin(f) && EdgesWithin(g) && FrontierMarker(f) == FrontierMarker(g)
    ensures Alike(f, g)
  {
    hide EdgesWithin, Matches, CanonicalMarker, RawMarker, TotalOrder;
    match (TotalOrder(f), TotalOrder(g))
    case (Some(r), Some(q)) =>
      TotalOrderIff(f, r);
      TotalOrderIff(g, q);
      CanonicalMarkersAgree(f, r, g, q);
      LinesMatch(f, r, g, q);
    case (None, None) =>
      RawMarkersAgree(f, g);
      AlikeToItself(f);
    case (Some(r), None) => KindsDiffer(f, g);
    case (None, Some(q)) => KindsDiffer(g, f);
  }

  lemma KindsDiffer(f: Frontier, g: Frontier)
    requires TotalOrder(f).Some? && TotalOrder(g).None?
    ensures FrontierMarker(f) != FrontierMarker(g)
  {
    var r := TotalOrder(f).value;
    TotalOrderIff(f, r);
    NamesAreOrdered();
    EdgesAreOrdered();
    hide TotalOrder, Fields, PairFields, RankFields, RankedTasks, RankedEdges, InOrder, PendingFields, NameLeq, EdgeLeq;
    MarkerKinds(
      Fields(RankedTasks(f, r)) + ";" + Fields(PairFields(RankFields(InOrder(RankedEdges(f.order, r), RankLeq)))),
      Fields(PairFields(PendingFields(g.pending, InOrder(g.pending.Keys, NameLeq)))) + ";"
      + Fields(PairFields(InOrder(g.order, EdgeLeq))));
  }

  // ---- decomposing corresponding nodes ----

  /** The same child below another node. */
  function Rebase(a: Addr, b: Addr, c: Addr): Addr {
    if |c| < |a| then c else b + c[|a|..]
  }

  lemma RebaseChild(a: Addr, b: Addr, id: Name)
    ensures Rebase(a, b, ChildAddr(a, id)) == ChildAddr(b, id)
  {
    assert ChildAddr(a, id)[|a|..] == "." + id;
  }

  lemma IdOf(a: Addr, sts: seq<GroundSubtask>, c: Addr) returns (id: Name)
    requires c in ChildAddrs(a, sts)
    ensures c == ChildAddr(a, id) && id in IdsOf(sts)
  {
    var i :| 0 <= i < |sts| && c == ChildAddr(a, sts[i].id);
    id := sts[i].id;
  }

  lemma IdHasChild(a: Addr, sts: seq<GroundSubtask>, id: Name)
    ensures ChildAddr(a, id) in ChildAddrs(a, sts) <==> id in IdsOf(sts)
  {
    if ChildAddr(a, id) in ChildAddrs(a, sts) {
      var i :| 0 <= i < |sts| && ChildAddr(a, id) == ChildAddr(a, sts[i].id);
      ChildAddrInjective(a, id, sts[i].id);
    }
  }

  /** A child's task does not depend on where its parent is. */
  lemma {:induction false} ChildTask(a: Addr, b: Addr, sts: seq<GroundSubtask>, id: Name)
    requires ChildAddr(a, id) in ChildPending(a, sts)
    ensures ChildAddr(b, id) in ChildPending(b, sts)
    ensures ChildPending(b, sts)[ChildAddr(b, id)] == ChildPending(a, sts)[ChildAddr(a, id)]
  {
    var n := |sts| - 1;
    if sts[n].id != id {
      if ChildAddr(a, id) == ChildAddr(a, sts[n].id) {
        ChildAddrInjective(a, id, sts[n].id);
      }
      if ChildAddr(b, id) == ChildAddr(b, sts[n].id) {
        ChildAddrInjective(b, id, sts[n].id);
      }
      ChildTask(a, b, sts[..n], id);
    }
  }

  predicate Constrains(m: GroundMethod, i: Name, j: Name) {
    exists k :: 0 <= k < |m.order| && m.order[k] == (i, j)
  }

  predicate IsLast(m: GroundMethod, id: Name) {
    forall k | 0 <= k < |m.order| :: m.order[k].0 != id
  }

  lemma InternalIff(a: Addr, m: GroundMethod, i: Name, j: Name)
    ensures (ChildAddr(a, i), ChildAddr(a, j)) in ChildOrder(a, m.order) <==> Constrains(m, i, j)
  {
    if (ChildAddr(a, i), ChildAddr(a, j)) in ChildOrder(a, m.order) {
      var k :| 0 <= k < |m.order|
               && (ChildAddr(a, i), ChildAddr(a, j)) == (ChildAddr(a, m.order[k].0), ChildAddr(a, m.order[k].1));
      ChildAddrInjective(a, i, m.order[k].0);
      ChildAddrInjective(a, j, m.order[k].1);
      assert m.order[k] == (i, j);
    }
  }

  lemma LastIff(a: Addr, m: GroundMethod, id: Name)
    requires id in IdsOf(m.subtasks)
    ensures ChildAddr(a, id) in Lasts(ChildAddrs(a, m.subtasks), ChildOrder(a, m.order)) <==> IsLast(m, id)
  {
    var c, internal := ChildAddr(a, id), ChildOrder(a, m.order);
    IdHasChild(a, m.subtasks, id);
    if HasOutgoing(internal, c) {
      var e :| e in internal && e.0 == c;
      var k :| 0 <= k < |m.order| && e == (ChildAddr(a, m.order[k].0), ChildAddr(a, m.order[k].1));
      ChildAddrInjective(a, m.order[k].0, id);
    }
    forall k | 0 <= k < |m.order| && m.order[k].0 == id ensures HasOutgoing(internal, c) {
      var e := (ChildAddr(a, m.order[k].0), ChildAddr(a, m.order[k].1));
      assert e in internal;
    }
  }

  lemma EnabledCorrespond(f: Frontier, g: Frontier, a: Addr, rel: Matching)
    requires Matches(rel, f, g) && a in Enabled(f)
    ensures rel[a] in Enabled(g)
  {
    forall e | e in g.order ensures e.1 != rel[a] {
      assert e.0 in g.pending.Keys && e.1 in g.pending.Keys;
      var p :| p in rel && rel[p] == e.0;
      var q :| q in rel && rel[q] == e.1;
      assert (p, q) in f.order;
    }
  }

  /** Each constraint after decomposing an enabled node: between others, between children, or passed on. */
  lemma EdgeIff(f: Frontier, a: Addr, m: GroundMethod, x: Addr, y: Addr)
    requires a in Enabled(f)
    ensures (x, y) in Refine(f, a, m).order <==>
              || ((x, y) in f.order && x != a && y != a)
              || (x, y) in ChildOrder(a, m.order)
              || (x in Lasts(ChildAddrs(a, m.subtasks), ChildOrder(a, m.order)) && (a, y) in f.order)
  {
    assert Predecessors(f.order, a) == {};
    assert y in Successors(f.order, a) <==> (a, y) in f.order;
    hide ChildAddrs, ChildOrder, Lasts, Enabled;
  }

  lemma PendingAfter(f: Frontier, a: Addr, m: GroundMethod, c: Addr)
    ensures c in Refine(f, a, m).pending <==> (c in f.pending && c != a) || c in ChildAddrs(a, m.subtasks)
    ensures c in ChildAddrs(a, m.subtasks) ==>
              c in ChildPending(a, m.subtasks) && Refine(f, a, m).pending[c] == ChildPending(a, m.subtasks)[c]
    ensures c in f.pending && c != a && c !in ChildAddrs(a, m.subtasks) ==> Refine(f, a, m).pending[c] == f.pending[c]
  {
    ChildPendingKeys(a, m.subtasks);
    assert c in ChildPending(a, m.subtasks) <==> c in ChildPending(a, m.subtasks).Keys;
  }

  /** Each subtask takes the addresses of corresponding nodes, or of no nodes. */
  ghost predicate CollideAlike(f: Frontier, g: Frontier, a: Addr, m: GroundMethod, rel: Matching)
    requires a in rel
  {
    forall id | id in IdsOf(m.subtasks) ::
      && (ChildAddr(a, id) in f.pending <==> ChildAddr(rel[a], id) in g.pending)
      && (ChildAddr(a, id) in rel ==> rel[ChildAddr(a, id)] == ChildAddr(rel[a], id))
  }

  /** One decomposition of corresponding nodes. */
  ghost predicate BothRefine(f: Frontier, g: Frontier, a: Addr, m: GroundMethod, rel: Matching) {
    Matches(rel, f, g) && a in Enabled(f) && CleanOrder(m.subtasks, m.order) && CollideAlike(f, g, a, m, rel)
  }

  /** The matching after both nodes are decomposed: children correspond by id, other nodes as before. */
  ghost function Decomposed(f: Frontier, a: Addr, m: GroundMethod, rel: Matching): Matching
    requires rel.Keys == f.pending.Keys && a in f.pending
  {
    map c | c in Refine(f, a, m).pending ::
      if c in rel then rel[c] else Rebase(a, rel[a], c)
  }

  lemma ChildGoes(f: Frontier, g: Frontier, a: Addr, m: GroundMethod, rel: Matching, id: Name)
    requires BothRefine(f, g, a, m, rel) && id in IdsOf(m.subtasks)
    ensures var rel' := Decomposed(f, a, m, rel);
            ChildAddr(a, id) in rel' && rel'[ChildAddr(a, id)] == ChildAddr(rel[a], id)
    ensures ChildAddr(a, id) in ChildAddrs(a, m.subtasks) && ChildAddr(rel[a], id) in ChildAddrs(rel[a], m.subtasks)
  {
    IdHasChild(a, m.subtasks, id);
    IdHasChild(rel[a], m.subtasks, id);
    PendingAfter(f, a, m, ChildAddr(a, id));
    RebaseChild(a, rel[a], id);
  }

  /** Old nodes go where they went, and exactly they go to old nodes. */
  lemma NodeGoes(f: Frontier, g: Frontier, a: Addr, m: GroundMethod, rel: Matching, c: Addr)
    requires BothRefine(f, g, a, m, rel) && c in Decomposed(f, a, m, rel)
    ensures var rel' := Decomposed(f, a, m, rel);
            && c != a && rel'[c] != rel[a]
            && (c in rel <==> rel'[c] in g.pending)
            && (c in rel ==> rel'[c] == rel[c])
  {
    PendingAfter(f, a, m, c);
    NotItsOwnChild(a, m);
    NotItsOwnChild(rel[a], m);
    assert c in f.pending <==> c in rel;
    if c in ChildAddrs(a, m.subtasks) {
      var id := IdOf(a, m.subtasks, c);
      ChildGoes(f, g, a, m, rel, id);
    }
  }

  lemma DecomposedIsOneToOne(f: Frontier, g: Frontier, a: Addr, m: GroundMethod, rel: Matching)
    requires BothRefine(f, g, a, m, rel)
    ensures OneToOne(Decomposed(f, a, m, rel))
  {
    var rel' := Decomposed(f, a, m, rel);
    forall c, d | c in rel' && d in rel' && rel'[c] == rel'[d] ensures c == d {
      NodeGoes(f, g, a, m, rel, c);
      NodeGoes(f, g, a, m, rel, d);
      if c !in rel {
        PendingAfter(f, a, m, c);
        PendingAfter(f, a, m, d);
        var i := IdOf(a, m.subtasks, c);
        var j := IdOf(a, m.subtasks, d);
        ChildGoes(f, g, a, m, rel, i);
        ChildGoes(f, g, a, m, rel, j);
        ChildAddrInjective(rel[a], i, j);
      }
    }
  }

  /** Exactly the children go to children, and each to the one with its id. */
  lemma ChildrenGoToChildren(f: Frontier, g: Frontier, a: Addr, m: GroundMethod, rel: Matching, c: Addr, id: Name)
    requires BothRefine(f, g, a, m, rel) && c in Decomposed(f, a, m, rel) && id in IdsOf(m.subtasks)
    ensures c == ChildAddr(a, id) <==> Decomposed(f, a, m, rel)[c] == ChildAddr(rel[a], id)
  {
    ChildGoes(f, g, a, m, rel, id);
    DecomposedIsOneToOne(f, g, a, m, rel);
  }

  lemma DecomposedKeepsTasks(f: Frontier, g: Frontier, a: Addr, m: GroundMethod, rel: Matching)
    requires BothRefine(f, g, a, m, rel)
    ensures KeepsTasks(Decomposed(f, a, m, rel), Refine(f, a, m), Refine(g, rel[a], m))
  {
    var rel', f', g', b := Decomposed(f, a, m, rel), Refine(f, a, m), Refine(g, rel[a], m), rel[a];
    assert rel'.Keys == f'.pending.Keys;
    forall c | c in rel' ensures rel'[c] in g'.pending && g'.pending[rel'[c]] == f'.pending[c] {
      PendingAfter(f, a, m, c);
      PendingAfter(g, b, m, rel'[c]);
      if c in ChildAddrs(a, m.subtasks) {
        var id := IdOf(a, m.subtasks, c);
        ChildGoes(f, g, a, m, rel, id);
        ChildTask(a, b, m.subtasks, id);
      } else {
        NodeGoes(f, g, a, m, rel, c);
        if rel'[c] in ChildAddrs(b, m.subtasks) {
          var id := IdOf(b, m.subtasks, rel'[c]);
          ChildrenGoToChildren(f, g, a, m, rel, c, id);
          ChildGoes(f, g, a, m, rel, id);
        }
      }
    }
  }

  lemma DecomposedIsOnto(f: Frontier, g: Frontier, a: Addr, m: GroundMethod, rel: Matching)
    requires BothRefine(f, g, a, m, rel)
    ensures Onto(Decomposed(f, a, m, rel), Refine(g, rel[a], m).pending.Keys)
  {
    var rel', b := Decomposed(f, a, m, rel), rel[a];
    forall d | d in Refine(g, b, m).pending.Keys ensures exists c :: c in rel' && rel'[c] == d {
      PendingAfter(g, b, m, d);
      if d in ChildAddrs(b, m.subtasks) {
        var id := IdOf(b, m.subtasks, d);
        ChildGoes(f, g, a, m, rel, id);
      } else {
        assert d in g.pending.Keys;
        var c :| c in rel && rel[c] == d;
        PendingAfter(f, a, m, c);
        NodeGoes(f, g, a, m, rel, c);
      }
    }
  }

  lemma InternalEdgeGoes(f: Frontier, g: Frontier, a: Addr, m: GroundMethod, rel: Matching, x: Addr, y: Addr)
    requires BothRefine(f, g, a, m, rel)
    requires x in Decomposed(f, a, m, rel) && y in Decomposed(f, a, m, rel)
    ensures var rel' := Decomposed(f, a, m, rel);
            (x, y) in ChildOrder(a, m.order) <==> (rel'[x], rel'[y]) in ChildOrder(rel[a], m.order)
  {
    var rel', b := Decomposed(f, a, m, rel), rel[a];
    if (x, y) in ChildOrder(a, m.order) {
      InternalEdge(a, m, (x, y));
      var i := IdOf(a, m.subtasks, x);
      var j := IdOf(a, m.subtasks, y);
      ChildGoes(f, g, a, m, rel, i);
      ChildGoes(f, g, a, m, rel, j);
      InternalIff(a, m, i, j);
      InternalIff(b, m, i, j);
    }
    if (rel'[x], rel'[y]) in ChildOrder(b, m.order) {
      InternalEdge(b, m, (rel'[x], rel'[y]));
      var i := IdOf(b, m.subtasks, rel'[x]);
      var j := IdOf(b, m.subtasks, rel'[y]);
      ChildrenGoToChildren(f, g, a, m, rel, x, i);
      ChildrenGoToChildren(f, g, a, m, rel, y, j);
      InternalIff(a, m, i, j);
      InternalIff(b, m, i, j);
    }
  }

  lemma LastGoes(f: Frontier, g: Frontier, a: Addr, m: GroundMethod, rel: Matching, x: Addr)
    requires BothRefine(f, g, a, m, rel) && x in Decomposed(f, a, m, rel)
    ensures x in Lasts(ChildAddrs(a, m.subtasks), ChildOrder(a, m.order)) <==>
            Decomposed(f, a, m, rel)[x] in Lasts(ChildAddrs(rel[a], m.subtasks), ChildOrder(rel[a], m.order))
  {
    var x', b := Decomposed(f, a, m, rel)[x], rel[a];
    if x in ChildAddrs(a, m.subtasks) {
      var i := IdOf(a, m.subtasks, x);
      ChildGoes(f, g, a, m, rel, i);
      LastIff(a, m, i);
      LastIff(b, m, i);
    } else if x' in ChildAddrs(b, m.subtasks) {
      var i := IdOf(b, m.subtasks, x');
      ChildrenGoToChildren(f, g, a, m, rel, x, i);
      IdHasChild(a, m.subtasks, i);
    }
  }

  /** A constraint between nodes that were there before, or from the decomposed node. */
  lemma OldEdgeGoes(f: Frontier, g: Frontier, a: Addr, m: GroundMethod, rel: Matching, x: Addr, y: Addr)
    requires BothRefine(f, g, a, m, rel)
    requires x in Decomposed(f, a, m, rel) && y in Decomposed(f, a, m, rel)
    ensures var rel' := Decomposed(f, a, m, rel);
            && ((x, y) in f.order <==> (rel'[x], rel'[y]) in g.order)
            && ((a, y) in f.order <==> (rel[a], rel'[y]) in g.order)
  {
    NodeGoes(f, g, a, m, rel, x);
    NodeGoes(f, g, a, m, rel, y);
    hide Decomposed;
  }

  lemma DecomposedKeepsEdges(f: Frontier, g: Frontier, a: Addr, m: GroundMethod, rel: Matching)
    requires BothRefine(f, g, a, m, rel)
    ensures KeepsEdges(Decomposed(f, a, m, rel), Refine(f, a, m).order, Refine(g, rel[a], m).order)
  {
    var rel' := Decomposed(f, a, m, rel);
    EnabledCorrespond(f, g, a, rel);
    hide Decomposed, Refine, BothRefine;
    forall x, y | x in rel' && y in rel'
      ensures (x, y) in Refine(f, a, m).order <==> (rel'[x], rel'[y]) in Refine(g, rel[a], m).order
    {
      EdgeIff(f, a, m, x, y);
      EdgeIff(g, rel[a], m, rel'[x], rel'[y]);
      NodeGoes(f, g, a, m, rel, x);
      NodeGoes(f, g, a, m, rel, y);
      OldEdgeGoes(f, g, a, m, rel, x, y);
      InternalEdgeGoes(f, g, a, m, rel, x, y);
      LastGoes(f, g, a, m, rel, x);
    }
  }

  /** Decomposing corresponding nodes by one method, colliding alike, makes corresponding networks. */
  lemma RefineKeepsMatching(f: Frontier, g: Frontier, a: Addr, m: GroundMethod, rel: Matching)
    requires BothRefine(f, g, a, m, rel)
    ensures Matches(Decomposed(f, a, m, rel), Refine(f, a, m), Refine(g, rel[a], m))
  {
    EnabledCorrespond(f, g, a, rel);
    RefineKeepsEdgesWithin(f, a, m);
    RefineKeepsEdgesWithin(g, rel[a], m);
    hide Decomposed, Refine, EdgesWithin, KeepsTasks, OneToOne, Onto, KeepsEdges, CollideAlike;
    DecomposedKeepsTasks(f, g, a, m, rel);
    DecomposedIsOneToOne(f, g, a, m, rel);
    DecomposedIsOnto(f, g, a, m, rel);
    DecomposedKeepsEdges(f, g, a, m, rel);
  }

  /** Discharging corresponding nodes makes corresponding networks. */
  lemma AdvanceKeepsMatching(f: Frontier, g: Frontier, a: Addr, rel: Matching)
    requires Matches(rel, f, g) && a in f.pending
    ensures Matches(rel - {a}, Advance(f, a), Advance(g, rel[a]))
  {
    var rel', f', g' := rel - {a}, Advance(f, a), Advance(g, rel[a]);
    AdvanceKeepsEdgesWithin(f, a);
    AdvanceKeepsEdgesWithin(g, rel[a]);
    WithoutIsOnto(rel, g.pending.Keys, a);
    WithoutKeepsEdges(rel, f.order, g.order, a);
    assert g'.pending.Keys == g.pending.Keys - {rel[a]};
    assert KeepsTasks(rel', f', g') && OneToOne(rel');
    hide EdgesWithin, KeepsTasks, OneToOne, Onto, KeepsEdges;
  }

  lemma WithoutIsOnto(rel: Matching, nodes: set<Addr>, a: Addr)
    requires Onto(rel, nodes) && a in rel
    ensures Onto(rel - {a}, nodes - {rel[a]})
  {
    forall b | b in nodes - {rel[a]} ensures exists c :: c in rel - {a} && (rel - {a})[c] == b {
      var c :| c in rel && rel[c] == b;
      assert c in rel - {a};
    }
  }

  lemma WithoutKeepsEdges(rel: Matching, order: set<Edge>, order': set<Edge>, a: Addr)
    requires KeepsEdges(rel, order, order') && OneToOne(rel) && a in rel
    ensures KeepsEdges(rel - {a}, Detach(order, a), Detach(order', rel[a]))
  {
  }

  // ---- when one side collides and the other does not ----

  lemma {:induction false} ImageIsNoLarger(rel: Matching, from: set<Addr>, to: set<Addr>)
    requires OneToOne(rel) && from <= rel.Keys && forall a | a in from :: rel[a] in to
    ensures |from| <= |to|
  {
    if from != {} {
      var a :| a in from;
      ImageIsNoLarger(rel, from - {a}, to - {rel[a]});
    }
  }

  lemma MatchedIsNoLarger(rel: Matching, f: Frontier, g: Frontier)
    requires Matches(rel, f, g)
    ensures |f.pending.Keys| <= |g.pending.Keys|
  {
    hide EdgesWithin, OneToOne, Onto, KeepsEdges;
    assert rel.Keys == f.pending.Keys;
    ImageIsNoLarger(rel, f.pending.Keys, g.pending.Keys);
  }

  lemma MatchedSizes(rel: Matching, f: Frontier, g: Frontier)
    requires Matches(rel, f, g)
    ensures |f.pending.Keys| == |g.pending.Keys|
  {
    MatchedIsNoLarger(rel, f, g);
    InverseMatches(rel, f, g);
    hide Matches, Inverse;
    MatchedIsNoLarger(Inverse(rel, g.pending.Keys), g, f);
  }

  lemma NoMoreChildren(a: Addr, b: Addr, sts: seq<GroundSubtask>)
    ensures |ChildAddrs(a, sts)| <= |ChildAddrs(b, sts)|
  {
    var rel: Matching := map c | c in ChildAddrs(a, sts) :: Rebase(a, b, c);
    forall c | c in rel ensures exists id :: c == ChildAddr(a, id) && rel[c] == ChildAddr(b, id) && rel[c] in ChildAddrs(b, sts) {
      var id := IdOf(a, sts, c);
      RebaseChild(a, b, id);
      IdHasChild(b, sts, id);
    }
    forall c, d | c in rel && d in rel && rel[c] == rel[d] ensures c == d {
      var i :| c == ChildAddr(a, i) && rel[c] == ChildAddr(b, i);
      var j :| d == ChildAddr(a, j) && rel[d] == ChildAddr(b, j);
      ChildAddrInjective(b, i, j);
    }
    ImageIsNoLarger(rel, ChildAddrs(a, sts), ChildAddrs(b, sts));
  }

  /** Every fresh child adds a node; a child that takes an address does not. */
  lemma SizeAfter(f: Frontier, a: Addr, m: GroundMethod)
    requires a in f.pending
    ensures var n := |f.pending.Keys| - 1 + |ChildAddrs(a, m.subtasks)|;
            && |Refine(f, a, m).pending.Keys| <= n
            && (|Refine(f, a, m).pending.Keys| == n <==> Fresh(f, a, m))
  {
    var others, children := f.pending.Keys - {a}, ChildAddrs(a, m.subtasks);
    ChildPendingKeys(a, m.subtasks);
    NotItsOwnChild(a, m);
    assert Refine(f, a, m).pending.Keys == others + children;
    assert |others + children| == |others| + |children| - |others * children|;
    if Fresh(f, a, m) {
      assert others * children == {};
    } else {
      var c :| c in children && c in f.pending;
      assert c in others * children;
    }
  }

  /**
   * If the decomposition gives every child a new address on one side, the networks stay alike exactly
   * when it does on the other side too.
   */
  lemma AlikeIffBothFresh(f: Frontier, g: Frontier, a: Addr, m: GroundMethod, rel: Matching)
    requires Matches(rel, f, g) && a in Enabled(f) && CleanOrder(m.subtasks, m.order)
    requires Fresh(f, a, m) || Fresh(g, rel[a], m)
    ensures Alike(Refine(f, a, m), Refine(g, rel[a], m)) <==> Fresh(f, a, m) && Fresh(g, rel[a], m)
  {
    var b := rel[a];
    if Fresh(f, a, m) && Fresh(g, b, m) {
      FreshCollidesAlike(f, g, a, m, rel);
      RefineKeepsMatching(f, g, a, m, rel);
    }
    if Alike(Refine(f, a, m), Refine(g, b, m)) {
      var rel' :| Matches(rel', Refine(f, a, m), Refine(g, b, m));
      hide Matches, Refine, Fresh, ChildAddrs, CleanOrder;
      MatchedSizes(rel, f, g);
      MatchedSizes(rel', Refine(f, a, m), Refine(g, b, m));
      NoMoreChildren(a, b, m.subtasks);
      NoMoreChildren(b, a, m.subtasks);
      MatchedNode(f, g, a, rel);
      SizeAfter(f, a, m);
      SizeAfter(g, b, m);
    }
  }

  lemma MatchedNode(f: Frontier, g: Frontier, a: Addr, rel: Matching)
    requires Matches(rel, f, g) && a in f.pending
    ensures a in rel && rel[a] in g.pending
  {
  }

  lemma FreshCollidesAlike(f: Frontier, g: Frontier, a: Addr, m: GroundMethod, rel: Matching)
    requires Matches(rel, f, g) && a in f.pending && Fresh(f, a, m) && Fresh(g, rel[a], m)
    ensures CollideAlike(f, g, a, m, rel)
  {
    forall id | id in IdsOf(m.subtasks)
      ensures ChildAddr(a, id) !in f.pending && ChildAddr(rel[a], id) !in g.pending && ChildAddr(a, id) !in rel
    {
      IdHasChild(a, m.subtasks, id);
      IdHasChild(rel[a], m.subtasks, id);
      assert ChildAddr(a, id) in f.pending <==> ChildAddr(a, id) in rel;
    }
  }

  // ---- steps ----

  /** The same choice, possibly at another address. */
  predicate SameMove(l: Label, l': Label) {
    match l
    case Decompose(_, m) => l'.Decompose? && l'.m == m
    case Execute(_, act, i) => l'.Execute? && l'.a == act && l'.outcome == i
  }

  /** The matching after corresponding steps. */
  ghost function NextMatching(s: Composite, l: Label, s': Composite, rel: Matching): Matching
    requires rel.Keys == s.frontier.pending.Keys && l.addr in s.frontier.pending
  {
    match l
    case Decompose(a, m) => Decomposed(s.frontier, a, m, rel)
    case Execute(a, _, _) => if s'.frontier == s.frontier then rel else rel - {a}
  }

  /**
   * A step from one of two corresponding states can be followed from the other and gives equal facts.
   * The networks correspond again unless a decomposition collides on one side only, and if it gives
   * every child a new address on one side, they are alike just if it does so on the other.
   */
  lemma StepIsMatched(ir: GroundedIR, s: Composite, l: Label, s': Composite, t: Composite, rel: Matching)
    returns (l': Label, t': Composite)
    requires OrderedIR(ir) && Step(ir, s, l, s') && s.facts == t.facts && Matches(rel, s.frontier, t.frontier)
    ensures Step(ir, t, l', t') && SameMove(l, l') && l'.addr == rel[l.addr] && s'.facts == t'.facts
    ensures l.Execute? || CollideAlike(s.frontier, t.frontier, l.addr, l.m, rel) ==>
              Matches(NextMatching(s, l, s', rel), s'.frontier, t'.frontier)
    ensures l.Decompose? && (Fresh(s.frontier, l.addr, l.m) || Fresh(t.frontier, rel[l.addr], l.m)) ==>
              (Alike(s'.frontier, t'.frontier) <==> Fresh(s.frontier, l.addr, l.m) && Fresh(t.frontier, rel[l.addr], l.m))
  {
    EnabledCorrespond(s.frontier, t.frontier, l.addr, rel);
    match l
    case Decompose(a, m) =>
      l', t' := Decompose(rel[a], m), AfterMethod(t, rel[a], m);
      if CollideAlike(s.frontier, t.frontier, a, m, rel) {
        RefineKeepsMatching(s.frontier, t.frontier, a, m, rel);
      }
      if Fresh(s.frontier, a, m) || Fresh(t.frontier, rel[a], m) {
        AlikeIffBothFresh(s.frontier, t.frontier, a, m, rel);
      }
    case Execute(a, act, i) =>
      l', t' := Execute(rel[a], act, i), AfterOutcome(t, rel[a], act, i);
      if s'.frontier == s.frontier {
        assert a in s'.frontier.pending;
      } else {
        AdvanceKeepsMatching(s.frontier, t.frontier, a, rel);
      }
  }

  // ---- the facts under which a state is stored ----

  /** The facts, the marker, and `htn:done` once nothing is pending. */
  ghost function Augmented(s: Composite): Facts {
    s.facts + {FrontierMarker(s.frontier)} + if s.frontier.pending == map[] then {DONE} else {}
  }

  ghost predicate AtomsOnly(facts: Facts) {
    forall k | k in facts :: exists p, args :: ':' !in p && k == AtomKey(p, args)
  }

  lemma MarkerIsNotAmong(facts: Facts, f: Frontier)
    requires AtomsOnly(facts)
    ensures FrontierMarker(f) !in facts && DONE !in facts
  {
    hide FrontierMarker;
    forall k | k in facts ensures k != FrontierMarker(f) && k != DONE {
      var p, args :| ':' !in p && k == AtomKey(p, args);
      MarkerIsNoFact(f, p, args);
    }
  }

  lemma MarkerIsNotDone(f: Frontier)
    ensures FrontierMarker(f) != DONE
  {
    var k := FrontierMarker(f);
    assert k[3] == '-' && DONE[3] == ':';
  }

  /** From the facts under which a state is stored its own facts can be read, and whether anything is left to be done. */
  lemma StoredFactsTell(s: Composite, p: Name, args: seq<Name>)
    requires AtomsOnly(s.facts) && ':' !in p
    ensures DONE in Augmented(s) <==> s.frontier.pending == map[]
    ensures AtomKey(p, args) in Augmented(s) <==> AtomKey(p, args) in s.facts
  {
    var one := {AtomKey(p, args)};
    assert AtomsOnly(one);
    hide AtomsOnly, FrontierMarker, AtomKey;
    MarkerIsNotAmong(s.facts, s.frontier);
    MarkerIsNotAmong(one, s.frontier);
    MarkerIsNotDone(s.frontier);
  }

  /** States of colon-free atoms stored under the same facts have equal facts and equal markers. */
  lemma StoredAlikeIff(s: Composite, t: Composite)
    requires AtomsOnly(s.facts) && AtomsOnly(t.facts) && EdgesWithin(s.frontier) && EdgesWithin(t.frontier)
    ensures Augmented(s) == Augmented(t) <==>
              s.facts == t.facts && FrontierMarker(s.frontier) == FrontierMarker(t.frontier)
  {
    hide AtomsOnly, EdgesWithin, FrontierMarker, Alike, Augmented;
    MarkerIsNotAmong(s.facts, s.frontier);
    MarkerIsNotAmong(s.facts, t.frontier);
    MarkerIsNotAmong(t.facts, s.frontier);
    MarkerIsNotAmong(t.facts, t.frontier);
    MarkerIsNotDone(s.frontier);
    MarkerIsNotDone(t.frontier);
    if FrontierMarker(s.frontier) == FrontierMarker(t.frontier) {
      EqualMarkersAreAlike(s.frontier, t.frontier);
      AlikeIsSymmetric(s.frontier, t.frontier);
      EmptyTogether(s.frontier, t.frontier);
    }
    AugmentedSplits(s, t);
  }

  lemma AugmentedSplits(s: Composite, t: Composite)
    requires var m, n := FrontierMarker(s.frontier), FrontierMarker(t.frontier);
             && m !in s.facts && n !in s.facts && m !in t.facts && n !in t.facts
             && DONE !in s.facts && DONE !in t.facts && m != DONE && n != DONE
             && (m == n ==> (s.frontier.pending == map[] <==> t.frontier.pending == map[]))
    ensures Augmented(s) == Augmented(t) <==>
              s.facts == t.facts && FrontierMarker(s.frontier) == FrontierMarker(t.frontier)
  {
    hide FrontierMarker;
    var a, b := Augmented(s), Augmented(t);
    if a == b {
      assert FrontierMarker(s.frontier) in b;
      forall k ensures k in s.facts <==> k in t.facts {
        assert k in a <==> k in b;
      }
    }
  }

  lemma EmptyTogether(f: Frontier, g: Frontier)
    requires Alike(f, g) && Alike(g, f)
    ensures f.pending == map[] <==> g.pending == map[]
  {
    hide Alike;
    if f.pending == map[] {
      AlikeToEmpty(f, g);
    }
    if g.pending == map[] {
      AlikeToEmpty(g, f);
    }
  }

  // ---- for total orders the marker misses nothing ----

  lemma MatchedLine(f: Frontier, r: seq<Addr>, g: Frontier, m: Matching) returns (q: seq<Addr>)
    requires IsLine(f, r) && Matches(m, f, g)
    ensures |q| == |r| && (forall i | 0 <= i < |r| :: r[i] in m && q[i] == m[r[i]]) && IsLine(g, q)
  {
    assert forall a :: a in m <==> a in Elems(r);
    q := seq(|r|, i requires 0 <= i < |r| => assert r[i] in Elems(r); m[r[i]]);
    forall i | 0 <= i < |r| ensures r[i] in m && q[i] == m[r[i]] {
      assert r[i] in Elems(r);
    }
    MatchedNodes(f, r, g, m, q);
    forall e | e in g.order ensures exists i, j :: 0 <= i < j < |q| && e == (q[i], q[j]) {
      LineEdge(f, r, g, m, q, e);
    }
    forall i | 0 <= i < |q| - 1 ensures (q[i], q[i + 1]) in g.order {
      assert (r[i], r[i + 1]) in f.order;
    }
  }

  lemma MatchedNodes(f: Frontier, r: seq<Addr>, g: Frontier, m: Matching, q: seq<Addr>)
    requires IsLine(f, r) && Matches(m, f, g)
    requires |q| == |r| && forall i | 0 <= i < |r| :: r[i] in m && q[i] == m[r[i]]
    ensures Unrepeated(q) && Elems(q) == g.pending.Keys
  {
    forall b | b in g.pending.Keys ensures b in Elems(q) {
      var a :| a in m && m[a] == b;
      assert a in Elems(r);
      var i :| 0 <= i < |r| && r[i] == a;
      assert q[i] == b;
    }
  }

  lemma LineEdge(f: Frontier, r: seq<Addr>, g: Frontier, m: Matching, q: seq<Addr>, e: Edge)
    requires IsLine(f, r) && Matches(m, f, g) && e in g.order
    requires |q| == |r| && forall i | 0 <= i < |r| :: r[i] in m && q[i] == m[r[i]]
    ensures exists i, j :: 0 <= i < j < |q| && e == (q[i], q[j])
  {
    assert e.0 in g.pending.Keys && e.1 in g.pending.Keys;
    var a :| a in m && m[a] == e.0;
    var b :| b in m && m[b] == e.1;
    assert (a, b) in f.order;
    var i, j :| 0 <= i < j < |r| && (a, b) == (r[i], r[j]);
    assert e == (q[i], q[j]);
  }

  lemma MatchedRanks(f: Frontier, r: seq<Addr>, g: Frontier, q: seq<Addr>, m: Matching)
    requires IsLine(f, r) && IsLine(g, q) && Matches(m, f, g)
    requires |q| == |r| && forall i | 0 <= i < |r| :: r[i] in m && q[i] == m[r[i]]
    ensures RankedTasks(f, r) == RankedTasks(g, q) && RankedEdges(f.order, r) == RankedEdges(g.order, q)
  {
    forall i | 0 <= i < |r| ensures RankedTasks(f, r)[i] == RankedTasks(g, q)[i] {
      assert r[i] in Elems(r) && q[i] in Elems(q);
    }
    forall x ensures x in RankedEdges(f.order, r) <==> x in RankedEdges(g.order, q) {
      if 0 <= x.0 < |r| && 0 <= x.1 < |r| {
        RankedEdge(f, r, x.0, x.1);
        RankedEdge(g, q, x.0, x.1);
      }
    }
  }

  /** If the first network's nodes are in a line, equal markers are the same as being alike. */
  lemma LineMarkersIff(f: Frontier, g: Frontier)
    requires TotalOrder(f).Some? && EdgesWithin(f) && EdgesWithin(g)
    ensures FrontierMarker(f) == FrontierMarker(g) <==> Alike(f, g)
  {
    var r := TotalOrder(f).value;
    TotalOrderIff(f, r);
    if Alike(f, g) {
      var m :| Matches(m, f, g);
      hide Matches, TotalOrder, IsLine, CanonicalMarker;
      var q := MatchedLine(f, r, g, m);
      MatchedRanks(f, r, g, q, m);
      TotalOrderIff(g, q);
      assert Elems(r) <= f.pending.Keys && Elems(q) <= g.pending.Keys by {
        LineCovers(f, r);
        LineCovers(g, q);
      }
      CanonicalMarkersAgree(f, r, g, q);
    }
    if FrontierMarker(f) == FrontierMarker(g) {
      EqualMarkersAreAlike(f, g);
    }
  }

  lemma LineCovers(f: Frontier, r: seq<Addr>)
    requires IsLine(f, r)
    ensures Elems(r) == f.pending.Keys
  {
  }

  // ---- what the marker leaves out: the depth limit ----

  /** Every condition that is evaluated for the task has an answer. */
  ghost predicate CanEvaluate(ir: GroundedIR, t: string, facts: Facts) {
    && (forall m | m in MethodsFor(ir, t) :: Eval(m.pre, facts).Ok?)
    && (forall act | act in ActionsFor(ir, t) :: Eval(act.pre, facts).Ok?)
  }

  /** The children of every applicable method stay within the limit below a node of this depth. */
  ghost predicate HasRoom(ms: seq<GroundMethod>, facts: Facts, depth: nat, maxDepth: nat) {
    forall m, i | m in ms && Eval(m.pre, facts) == Ok(true) && 0 <= i < |m.subtasks| ::
      depth + 1 + DepthOf(m.subtasks[i].id) <= maxDepth
  }

  lemma {:induction false} TooDeepIff(a: Addr, sts: seq<GroundSubtask>, maxDepth: nat)
    ensures TooDeep(a, sts, maxDepth).None? <==>
              forall i | 0 <= i < |sts| :: DepthOf(a) + 1 + DepthOf(sts[i].id) <= maxDepth
  {
    if sts != [] {
      ChildDepth(a, sts[0].id);
      TooDeepIff(a, sts[1..], maxDepth);
      assert forall i | 1 <= i < |sts| :: sts[i] == sts[1..][i - 1];
    }
  }

  lemma {:induction false} MethodMovesIff(ms: seq<GroundMethod>, s: Composite, a: Addr, maxDepth: nat)
    ensures MethodMoves(ms, s, a, maxDepth).Ok? <==>
              (forall m | m in ms :: Eval(m.pre, s.facts).Ok?) && HasRoom(ms, s.facts, DepthOf(a), maxDepth)
  {
    hide Eval, DepthOf, TooDeep;
    if ms != [] {
      MethodMovesIff(ms[1..], s, a, maxDepth);
      TooDeepIff(a, ms[0].subtasks, maxDepth);
      assert forall m :: m in ms <==> m == ms[0] || m in ms[1..];
      assert ms[0] in ms;
    }
  }

  lemma {:induction false} ActionMovesIff(acts: seq<GroundAction>, s: Composite, a: Addr)
    ensures ActionMoves(acts, s, a).Ok? <==> forall act | act in acts :: Eval(act.pre, s.facts).Ok?
  {
    hide Eval, OutcomeMoves;
    if acts != [] {
      ActionMovesIff(acts[1..], s, a);
      assert forall act :: act in acts <==> act == acts[0] || act in acts[1..];
    }
  }

  /**
   * A node of a given task is refused, with the given facts, for an unanswerable condition wherever it is,
   * and otherwise exactly when its own depth leaves no room for the children of some applicable method.
   */
  lemma RefusedIff(ir: GroundedIR, s: Composite, a: Addr, maxDepth: nat)
    requires a in s.frontier.pending
    ensures MovesAt(ir, s, a, maxDepth).Ok? <==>
              && CanEvaluate(ir, s.frontier.pending[a], s.facts)
              && HasRoom(MethodsFor(ir, s.frontier.pending[a]), s.facts, DepthOf(a), maxDepth)
  {
    var t := s.frontier.pending[a];
    MethodMovesIff(MethodsFor(ir, t), s, a, maxDepth);
    ActionMovesIff(ActionsFor(ir, t), s, a);
  }

  /** Corresponding nodes of states with equal facts and alike networks are refused together just if both have room or neither. */
  lemma RefusedTogetherIff(ir: GroundedIR, s: Composite, t: Composite, rel: Matching, a: Addr, maxDepth: nat)
    requires s.facts == t.facts && Matches(rel, s.frontier, t.frontier) && a in s.frontier.pending
    ensures var task := s.frontier.pending[a];
            && rel[a] in t.frontier.pending
            && ((MovesAt(ir, s, a, maxDepth).Ok? <==> MovesAt(ir, t, rel[a], maxDepth).Ok?)
                <==> (CanEvaluate(ir, task, s.facts) ==>
                        (HasRoom(MethodsFor(ir, task), s.facts, DepthOf(a), maxDepth)
                         <==> HasRoom(MethodsFor(ir, task), s.facts, DepthOf(rel[a]), maxDepth))))
  {
    RefusedIff(ir, s, a, maxDepth);
    RefusedIff(ir, t, rel[a], maxDepth);
  }

  /** One task that can be replaced by itself. */
  const DESCENT: GroundedIR :=
    GroundedIR([], [GroundMethod("go", "t", GEmpty, EMPTY_BRANCH, [GroundSubtask("s", "t")], [])],
               [RootNetwork([GroundSubtask("s", "t")], [])], {}, Empty)

  lemma SingleIsLine(a: Addr, task: string)
    ensures var f := Frontier(map[a := task], {});
            && TotalOrder(f) == Some([a]) && RankedTasks(f, [a]) == [task] && RankedEdges(f.order, [a]) == {}
  {
    var f := Frontier(map[a := task], {});
    assert Elems([a]) == {a} == f.pending.Keys;
    TotalOrderIff(f, [a]);
    assert RankedTasks(f, [a])[0] == task;
  }

  lemma SinglesStoredAlike(a: Addr, b: Addr)
    ensures Augmented(At(a)) == Augmented(At(b))
  {
    var f, g := At(a).frontier, At(b).frontier;
    SingleIsLine(a, "t");
    SingleIsLine(b, "t");
    assert a in f.pending && b in g.pending;
    assert Elems([a]) == {a} && Elems([b]) == {b};
    hide TotalOrder, CanonicalMarker, RankedTasks, RankedEdges;
    CanonicalMarkersAgree(f, [a], g, [b]);
  }

  /** Two states of one run stored under the same facts, of which only the second is refused. */
  lemma DepthIsNotInMarker() returns (states: seq<Composite>, labels: seq<Label>)
    ensures Run(DESCENT, states, labels) && |labels| == 1
    ensures Augmented(states[0]) == Augmented(states[1])
    ensures "r.s" in states[0].frontier.pending && MovesAt(DESCENT, states[0], "r.s", 2).Ok?
    ensures "r.s.s" in states[1].frontier.pending && MovesAt(DESCENT, states[1], "r.s.s", 2).Err?
  {
    hide *;
    var s, s' := At("r.s"), At("r.s.s");
    DescentStarts();
    var l, next := GoStep(DESCENT, s, "r.s", "t", "s");
    DescentMoves(next);
    RunSnoc(DESCENT, [s], [], l, s');
    states, labels := [s] + [s'], [] + [l];
    SinglesStoredAlike("r.s", "r.s.s");
    DescentRefusal("r.s");
    DescentRefusal("r.s.s");
    ThreeLevels();
  }

  /** No facts, and one pending node. */
  function At(a: Addr): (s: Composite)
    ensures a in s.frontier.pending && s.frontier.pending[a] == "t" && s.frontier.order == {}
  {
    Composite({}, Frontier(map[a := "t"], {}))
  }

  lemma DescentMoves(next: Composite)
    requires next == Composite(At("r.s").facts,
                               Frontier(MoveDown(At("r.s").frontier.pending, "r.s", ChildAddr("r.s", "s"), "t"), {}))
    ensures next == At("r.s.s")
  {
    assert ChildAddr("r.s", "s") == "r.s.s";
    assert next.frontier.pending == map["r.s.s" := "t"];
  }

  lemma DescentStarts()
    ensures Run(DESCENT, [At("r.s")], []) && CanGo(DESCENT, "t", "s")
  {
    var net, m := DESCENT.roots[0], DESCENT.methods[0];
    assert net.subtasks[..0] == [] && ChildAddr("r", "s") == "r.s";
    assert ChildPending("r", net.subtasks) == map["r.s" := "t"];
    assert ChildOrder("r", net.order) == {};
    assert InitialState({}, net) == At("r.s");
    assert m in DESCENT.methods && IsGo(m, "t", "s");
  }

  lemma ThreeLevels()
    ensures DepthOf("r.s") == 1 && DepthOf("r.s.s") == 2
  {
    NoDots("s");
    NoDots("r");
    ChildDepth("r", "s");
    ChildDepth("r.s", "s");
    assert ChildAddr("r", "s") == "r.s" && ChildAddr("r.s", "s") == "r.s.s";
  }

  lemma DescentRefusal(a: Addr)
    ensures MovesAt(DESCENT, At(a), a, 2).Ok? <==> DepthOf(a) + 1 <= 2
  {
    var s := At(a);
    var m := DESCENT.methods[0];
    RefusedIff(DESCENT, s, a, 2);
    NoDots("s");
    assert m in DESCENT.methods && ForTask("t")(m);
    assert m in MethodsFor(DESCENT, "t") && m.subtasks[0].id == "s";
    assert Eval(m.pre, {}) == Ok(true);
    assert forall x | x in MethodsFor(DESCENT, "t") :: x == m;
    assert forall x | x in ActionsFor(DESCENT, "t") :: x in DESCENT.actions;
  }
}
