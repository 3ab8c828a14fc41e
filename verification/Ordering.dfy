// The order between pending tasks: decomposition neither loses nor invents a constraint, so nothing
// below a task starts while anything below one of its predecessors is still to be done.
module Ordering {
  import opened Prelude
  import opened HddlAst
  import opened Bindings
  import opened Effects
  import opened Grounders
  import opened Htn
  import opened Addresses
  import opened Preservation
  import opened Relevance
  import opened Validation

  // ---- what an order demands ----

  ghost predicate ClosedUnder(order: set<Edge>, s: set<Addr>) {
    forall e | e in order && e.0 in s :: e.1 in s
  }

  /** `y` is reached from `x` along one or more edges: it is in every closed set with the successors of `x`. */
  ghost predicate Precedes(order: set<Edge>, x: Addr, y: Addr) {
    forall s: set<Addr> | ClosedUnder(order, s) && Successors(order, x) <= s :: y in s
  }

  /** Every constraint is between pending nodes. */
  ghost predicate EdgesWithin(f: Frontier) {
    forall e | e in f.order :: e.0 in f.pending && e.1 in f.pending
  }

  function IdsOf(sts: seq<GroundSubtask>): set<Name> {
    set i | 0 <= i < |sts| :: sts[i].id
  }

  ghost predicate OrderRanked(order: seq<(Name, Name)>, rank: map<Name, nat>) {
    forall k | 0 <= k < |order| :: order[k].0 in rank && order[k].1 in rank && rank[order[k].0] < rank[order[k].1]
  }

  /** Ordering constraints name subtasks of the network and are acyclic. */
  ghost predicate CleanOrder(sts: seq<GroundSubtask>, order: seq<(Name, Name)>) {
    && (forall k | 0 <= k < |order| :: order[k].0 in IdsOf(sts) && order[k].1 in IdsOf(sts))
    && exists rank :: OrderRanked(order, rank)
  }

  ghost predicate OrderedIR(ir: GroundedIR) {
    && (forall m | m in ir.methods :: CleanOrder(m.subtasks, m.order))
    && (forall net | net in ir.roots :: CleanOrder(net.subtasks, net.order))
  }

  /** An enabled node has no predecessor, not even an indirect one. */
  lemma EnabledHasNoPredecessor(f: Frontier, a: Addr, x: Addr)
    requires a in Enabled(f)
    ensures !Precedes(f.order, x, a)
  {
    var s := (set e | e in f.order :: e.1);
    assert ClosedUnder(f.order, s) && Successors(f.order, x) <= s;
    assert a !in s;
  }

  /** A pending node is enabled exactly when nothing precedes it. */
  lemma EnabledIff(f: Frontier, a: Addr)
    ensures a in Enabled(f) <==> a in f.pending && forall x :: !Precedes(f.order, x, a)
  {
    if a in Enabled(f) {
      forall x ensures !Precedes(f.order, x, a) {
        EnabledHasNoPredecessor(f, a, x);
      }
    }
    if e :| e in f.order && e.1 == a {
      assert (e.0, a) in f.order;
      assert a in Successors(f.order, e.0);
      assert Precedes(f.order, e.0, a);
    }
  }

  // ---- executing a node ----

  lemma AdvanceKeepsEdgesWithin(f: Frontier, a: Addr)
    requires EdgesWithin(f)
    ensures EdgesWithin(Advance(f, a))
  {
  }

  /** Discharging an enabled node changes no constraint between others. */
  lemma AdvanceKeepsPrecedes(f: Frontier, a: Addr, x: Addr, y: Addr)
    requires a in Enabled(f) && x != a && y != a
    ensures Precedes(f.order, x, y) <==> Precedes(Advance(f, a).order, x, y)
  {
    var after := Advance(f, a).order;
    if Precedes(f.order, x, y) {
      forall s: set<Addr> | ClosedUnder(after, s) && Successors(after, x) <= s ensures y in s {
        var t := s - {a};
        forall e | e in f.order && e.0 in t ensures e.1 in t {
          assert e.1 != a;
          assert e in after;
        }
        forall v | v in Successors(f.order, x) ensures v in t {
          assert (x, v) in f.order && v != a;
          assert (x, v) in after;
          assert v in Successors(after, x);
        }
        assert y in t;
      }
    }
    if Precedes(after, x, y) {
      forall s: set<Addr> | ClosedUnder(f.order, s) && Successors(f.order, x) <= s ensures y in s {
        assert ClosedUnder(after, s);
        assert Successors(after, x) <= Successors(f.order, x);
      }
    }
  }

  // ---- the subtasks of one method ----

  /** A closed set with all first children contains every child. */
  lemma {:induction false} FirstsReach(
    a: Addr, sts: seq<GroundSubtask>, order: seq<(Name, Name)>, rank: map<Name, nat>, s: set<Addr>, id: Name)
    requires (forall k | 0 <= k < |order| :: order[k].0 in IdsOf(sts) && order[k].1 in IdsOf(sts))
    requires OrderRanked(order, rank) && id in IdsOf(sts)
    requires ClosedUnder(ChildOrder(a, order), s) && Firsts(ChildAddrs(a, sts), ChildOrder(a, order)) <= s
    ensures ChildAddr(a, id) in s
    decreases if id in rank then rank[id] else 0
  {
    var c, internal := ChildAddr(a, id), ChildOrder(a, order);
    if HasIncoming(internal, c) {
      var e :| e in internal && e.1 == c;
      var k :| 0 <= k < |order| && e == (ChildAddr(a, order[k].0), ChildAddr(a, order[k].1));
      ChildAddrInjective(a, order[k].1, id);
      FirstsReach(a, sts, order, rank, s, order[k].0);
    } else {
      var i :| 0 <= i < |sts| && sts[i].id == id;
      assert c in ChildAddrs(a, sts);
    }
  }

  lemma RankLimit(rank: map<Name, nat>) returns (limit: nat)
    ensures forall id | id in rank :: rank[id] <= limit
  {
    limit := MaxRank(rank, rank.Keys);
  }

  lemma {:induction false} MaxRank(rank: map<Name, nat>, ids: set<Name>) returns (limit: nat)
    requires ids <= rank.Keys
    ensures forall id | id in ids :: rank[id] <= limit
  {
    if ids == {} {
      limit := 0;
    } else {
      var id :| id in ids;
      var l := MaxRank(rank, ids - {id});
      limit := if rank[id] > l then rank[id] else l;
    }
  }

  /** From every child in a closed set some last child in that set can be found. */
  lemma {:induction false} LastExists(
    a: Addr, sts: seq<GroundSubtask>, order: seq<(Name, Name)>, rank: map<Name, nat>, limit: nat, s: set<Addr>, id: Name)
    returns (last: Addr)
    requires (forall k | 0 <= k < |order| :: order[k].0 in IdsOf(sts) && order[k].1 in IdsOf(sts))
    requires OrderRanked(order, rank) && id in IdsOf(sts) && forall n | n in rank :: rank[n] <= limit
    requires ClosedUnder(ChildOrder(a, order), s) && ChildAddr(a, id) in s
    ensures last in Lasts(ChildAddrs(a, sts), ChildOrder(a, order)) && last in s
    decreases if id in rank then limit - rank[id] else limit + 1
  {
    var c, internal := ChildAddr(a, id), ChildOrder(a, order);
    if HasOutgoing(internal, c) {
      var e :| e in internal && e.0 == c;
      var k :| 0 <= k < |order| && e == (ChildAddr(a, order[k].0), ChildAddr(a, order[k].1));
      ChildAddrInjective(a, order[k].0, id);
      last := LastExists(a, sts, order, rank, limit, s, order[k].1);
    } else {
      var i :| 0 <= i < |sts| && sts[i].id == id;
      assert c in ChildAddrs(a, sts);
      last := c;
    }
  }

  // ---- decomposing a node ----

  /** A closed set that a predecessor of the node leads into contains all of its children. */
  lemma LeadsIn(f: Frontier, a: Addr, m: GroundMethod, s: set<Addr>, p: Addr)
    requires CleanOrder(m.subtasks, m.order) && (p, a) in f.order
    requires ClosedUnder(Refine(f, a, m).order, s)
    requires p in s || Successors(Refine(f, a, m).order, p) <= s
    ensures ChildAddrs(a, m.subtasks) <= s
  {
    var after, children, internal := Refine(f, a, m).order, ChildAddrs(a, m.subtasks), ChildOrder(a, m.order);
    assert p in Predecessors(f.order, a);
    forall c | c in Firsts(children, internal) ensures c in s {
      assert (p, c) in after;
      assert c in Successors(after, p);
    }
    assert ClosedUnder(internal, s);
    var rank :| OrderRanked(m.order, rank);
    forall c | c in children ensures c in s {
      var i :| 0 <= i < |m.subtasks| && c == ChildAddr(a, m.subtasks[i].id);
      assert m.subtasks[i].id in IdsOf(m.subtasks);
      FirstsReach(a, m.subtasks, m.order, rank, s, m.subtasks[i].id);
    }
  }

  /** A closed set with a child of the node contains all of the node's successors. */
  lemma LeadsOut(f: Frontier, a: Addr, m: GroundMethod, s: set<Addr>, i: nat, v: Addr)
    requires CleanOrder(m.subtasks, m.order) && (a, v) in f.order && i < |m.subtasks|
    requires ClosedUnder(Refine(f, a, m).order, s) && ChildAddr(a, m.subtasks[i].id) in s
    ensures v in s
  {
    var rank :| OrderRanked(m.order, rank);
    var limit := RankLimit(rank);
    assert m.subtasks[i].id in IdsOf(m.subtasks);
    assert ClosedUnder(ChildOrder(a, m.order), s);
    var last := LastExists(a, m.subtasks, m.order, rank, limit, s, m.subtasks[i].id);
    assert v in Successors(f.order, a);
    assert (last, v) in Refine(f, a, m).order;
  }

  /** A closed set that a predecessor of the node leads into contains the node's successors. */
  lemma PassesThrough(f: Frontier, a: Addr, m: GroundMethod, s: set<Addr>, p: Addr, v: Addr)
    requires CleanOrder(m.subtasks, m.order) && (p, a) in f.order && (a, v) in f.order
    requires ClosedUnder(Refine(f, a, m).order, s)
    requires p in s || Successors(Refine(f, a, m).order, p) <= s
    ensures v in s
  {
    LeadsIn(f, a, m, s, p);
    var after := Refine(f, a, m).order;
    if m.subtasks == [] {
      assert ChildAddrs(a, m.subtasks) == {};
      assert p in Predecessors(f.order, a) && v in Successors(f.order, a);
      assert (p, v) in after;
      assert v in Successors(after, p);
    } else {
      assert ChildAddr(a, m.subtasks[0].id) in ChildAddrs(a, m.subtasks);
      LeadsOut(f, a, m, s, 0, v);
    }
  }

  /** A set closed under the new order, with the node put back where a predecessor leads to it. */
  ghost function PutBack(f: Frontier, a: Addr, x: Addr, s: set<Addr>): set<Addr> {
    s - {a} + if exists p :: p in Predecessors(f.order, a) && p != a && (p in s || p == x) then {a} else {}
  }

  lemma PutBackIsClosed(f: Frontier, a: Addr, m: GroundMethod, x: Addr, s: set<Addr>)
    requires CleanOrder(m.subtasks, m.order) && x != a
    requires ClosedUnder(Refine(f, a, m).order, s) && Successors(Refine(f, a, m).order, x) <= s
    ensures ClosedUnder(f.order, PutBack(f, a, x, s)) && Successors(f.order, x) <= PutBack(f, a, x, s)
    ensures a in PutBack(f, a, x, s) ==> ChildAddrs(a, m.subtasks) <= s
  {
    var after, t := Refine(f, a, m).order, PutBack(f, a, x, s);
    if a in t {
      var p :| p in Predecessors(f.order, a) && p != a && (p in s || p == x);
      LeadsIn(f, a, m, s, p);
    }
    forall e | e in f.order && e.0 in t ensures e.1 in t {
      if e.0 == a {
        var p :| p in Predecessors(f.order, a) && p != a && (p in s || p == x);
        if e.1 != a {
          PassesThrough(f, a, m, s, p, e.1);
        }
      } else if e.1 == a {
        assert e.0 in Predecessors(f.order, a);
      } else {
        assert e in after;
      }
    }
    forall v | v in Successors(f.order, x) ensures v in t {
      assert (x, v) in f.order;
      if v == a {
        assert x in Predecessors(f.order, a);
      } else {
        assert (x, v) in after;
        assert v in Successors(after, x);
      }
    }
  }

  /** A set closed under the old order, with the children in place of the node. */
  function Replaced(a: Addr, m: GroundMethod, s: set<Addr>, inside: bool): set<Addr> {
    (s - ChildAddrs(a, m.subtasks)) + if inside then ChildAddrs(a, m.subtasks) else {}
  }

  /** No child takes the address of a pending node. */
  ghost predicate Fresh(f: Frontier, a: Addr, m: GroundMethod) {
    forall c | c in ChildAddrs(a, m.subtasks) :: c !in f.pending
  }

  lemma InternalEdge(a: Addr, m: GroundMethod, e: Edge)
    requires CleanOrder(m.subtasks, m.order) && e in ChildOrder(a, m.order)
    ensures e.0 in ChildAddrs(a, m.subtasks) && e.1 in ChildAddrs(a, m.subtasks)
  {
    var k :| 0 <= k < |m.order| && e == (ChildAddr(a, m.order[k].0), ChildAddr(a, m.order[k].1));
    var i :| 0 <= i < |m.subtasks| && m.subtasks[i].id == m.order[k].0;
    var j :| 0 <= j < |m.subtasks| && m.subtasks[j].id == m.order[k].1;
  }

  /** Each constraint after decomposing, by where it comes from. */
  lemma EdgeAfter(f: Frontier, a: Addr, m: GroundMethod, e: Edge)
    requires CleanOrder(m.subtasks, m.order) && e in Refine(f, a, m).order
    ensures var children := ChildAddrs(a, m.subtasks);
            || (e in f.order && e.0 != a && e.1 != a)
            || (e.0 in children && e.1 in children)
            || ((e.0, a) in f.order && e.1 in children)
            || (e.0 in children && (a, e.1) in f.order)
            || ((e.0, a) in f.order && (a, e.1) in f.order)
  {
    if e in ChildOrder(a, m.order) {
      InternalEdge(a, m, e);
    }
  }

  lemma ReplacedIsClosed(f: Frontier, a: Addr, m: GroundMethod, s: set<Addr>)
    requires a in f.pending && Fresh(f, a, m) && EdgesWithin(f) && CleanOrder(m.subtasks, m.order)
    requires ClosedUnder(f.order, s)
    ensures ClosedUnder(Refine(f, a, m).order, Replaced(a, m, s, a in s))
    ensures forall x | x in f.pending && x != a && Successors(f.order, x) <= s ::
              Successors(Refine(f, a, m).order, x) <= Replaced(a, m, s, a in s)
    ensures Successors(f.order, a) <= s ==> ClosedUnder(Refine(f, a, m).order, Replaced(a, m, s, true))
  {
    hide Refine, ChildAddrs, ChildOrder, CleanOrder;
    var t := Replaced(a, m, s, a in s);
    forall e | e in Refine(f, a, m).order && e.0 in t ensures e.1 in t {
      EdgeAfter(f, a, m, e);
    }
    forall x, v | x in f.pending && x != a && Successors(f.order, x) <= s && v in Successors(Refine(f, a, m).order, x)
      ensures v in t
    {
      EdgeAfter(f, a, m, (x, v));
      if (x, a) in f.order {
        assert a in Successors(f.order, x);
      }
      if (x, v) in f.order {
        assert v in Successors(f.order, x);
      }
    }
    if Successors(f.order, a) <= s {
      forall e | e in Refine(f, a, m).order && e.0 in Replaced(a, m, s, true) ensures e.1 in Replaced(a, m, s, true) {
        EdgeAfter(f, a, m, e);
        if (a, e.1) in f.order {
          assert e.1 in Successors(f.order, a);
        }
      }
    }
  }

  /** Decomposing a node loses no constraint between two others, and adds none if its children are fresh. */
  lemma RefineKeepsPrecedes(f: Frontier, a: Addr, m: GroundMethod, x: Addr, y: Addr)
    requires a in f.pending && EdgesWithin(f) && CleanOrder(m.subtasks, m.order)
    requires x in f.pending && y in f.pending && x != a && y != a
    ensures Precedes(f.order, x, y) ==> Precedes(Refine(f, a, m).order, x, y)
    ensures Fresh(f, a, m) ==> Precedes(Refine(f, a, m).order, x, y) ==> Precedes(f.order, x, y)
  {
    hide Refine, ChildAddrs, CleanOrder;
    var after := Refine(f, a, m).order;
    if Precedes(f.order, x, y) {
      forall s: set<Addr> | ClosedUnder(after, s) && Successors(after, x) <= s ensures y in s {
        PutBackIsClosed(f, a, m, x, s);
        assert y in PutBack(f, a, x, s);
      }
    }
    if Precedes(after, x, y) && Fresh(f, a, m) {
      forall s: set<Addr> | ClosedUnder(f.order, s) && Successors(f.order, x) <= s ensures y in s {
        ReplacedIsClosed(f, a, m, s);
        assert y in Replaced(a, m, s, a in s);
      }
    }
  }

  /** Every child stands behind the nodes its parent stood behind, and behind no others if it is fresh. */
  lemma ChildrenInheritPredecessors(f: Frontier, a: Addr, m: GroundMethod, x: Addr, c: Addr)
    requires a in f.pending && EdgesWithin(f) && CleanOrder(m.subtasks, m.order)
    requires x in f.pending && x != a && c in ChildAddrs(a, m.subtasks)
    ensures Precedes(f.order, x, a) ==> Precedes(Refine(f, a, m).order, x, c)
    ensures Fresh(f, a, m) ==> Precedes(Refine(f, a, m).order, x, c) ==> Precedes(f.order, x, a)
  {
    hide Refine, ChildAddrs, CleanOrder;
    var after := Refine(f, a, m).order;
    if Precedes(f.order, x, a) {
      forall s: set<Addr> | ClosedUnder(after, s) && Successors(after, x) <= s ensures c in s {
        PutBackIsClosed(f, a, m, x, s);
        assert a in PutBack(f, a, x, s);
      }
    }
    if Precedes(after, x, c) && Fresh(f, a, m) {
      forall s: set<Addr> | ClosedUnder(f.order, s) && Successors(f.order, x) <= s ensures a in s {
        ReplacedIsClosed(f, a, m, s);
        assert c in Replaced(a, m, s, a in s);
      }
    }
  }

  lemma SuccessorsAreReached(f: Frontier, a: Addr, m: GroundMethod, s: set<Addr>, i: nat)
    requires CleanOrder(m.subtasks, m.order) && i < |m.subtasks|
    requires var after := Refine(f, a, m).order;
             ClosedUnder(after, s) && Successors(after, ChildAddr(a, m.subtasks[i].id)) <= s
    ensures ClosedUnder(f.order, s + {a}) && Successors(f.order, a) <= s + {a}
  {
    var after, c, internal := Refine(f, a, m).order, ChildAddr(a, m.subtasks[i].id), ChildOrder(a, m.order);
    forall v | v in Successors(f.order, a) ensures v in s {
      assert c in ChildAddrs(a, m.subtasks);
      if HasOutgoing(internal, c) {
        var e :| e in internal && e.0 == c;
        assert e in after && e.1 in Successors(after, c);
        InternalEdge(a, m, e);
        var j :| 0 <= j < |m.subtasks| && e.1 == ChildAddr(a, m.subtasks[j].id);
        LeadsOut(f, a, m, s, j, v);
      } else {
        assert (c, v) in after;
        assert v in Successors(after, c);
      }
    }
    forall e | e in f.order && e.0 in s + {a} ensures e.1 in s + {a} {
      if e.0 == a {
        assert e.1 in Successors(f.order, a);
      } else if e.1 != a {
        assert e in after;
      }
    }
  }

  /** Every child stands before the nodes its parent stood before, and before no others if it is fresh. */
  lemma ChildrenInheritSuccessors(f: Frontier, a: Addr, m: GroundMethod, c: Addr, y: Addr)
    requires a in f.pending && EdgesWithin(f) && CleanOrder(m.subtasks, m.order)
    requires y in f.pending && y != a && c in ChildAddrs(a, m.subtasks)
    ensures Precedes(f.order, a, y) ==> Precedes(Refine(f, a, m).order, c, y)
    ensures Fresh(f, a, m) ==> Precedes(Refine(f, a, m).order, c, y) ==> Precedes(f.order, a, y)
  {
    var i :| 0 <= i < |m.subtasks| && c == ChildAddr(a, m.subtasks[i].id);
    hide Refine, ChildAddrs, CleanOrder;
    var after := Refine(f, a, m).order;
    if Precedes(f.order, a, y) {
      forall s: set<Addr> | ClosedUnder(after, s) && Successors(after, c) <= s ensures y in s {
        SuccessorsAreReached(f, a, m, s, i);
        assert y in s + {a};
      }
    }
    if Precedes(after, c, y) && Fresh(f, a, m) {
      forall s: set<Addr> | ClosedUnder(f.order, s) && Successors(f.order, a) <= s ensures y in s {
        ReplacedIsClosed(f, a, m, s);
        var t := Replaced(a, m, s, true);
        forall v | v in Successors(after, c) ensures v in t {
          assert c in t && (c, v) in after;
        }
        assert y in t;
      }
    }
  }

  // ---- the order among one network's subtasks ----

  /** The ids of these addresses below `a`. */
  ghost function IdsBelow(a: Addr, order: seq<(Name, Name)>, s: set<Addr>): set<Name> {
    set k | 0 <= k < |order| && ChildAddr(a, order[k].1) in s :: order[k].1
  }

  function AddrsBelow(a: Addr, ids: set<Name>): set<Addr> {
    set id | id in ids :: ChildAddr(a, id)
  }

  /** Among the subtasks of one network, addresses are ordered exactly as the network orders the ids. */
  lemma ChildOrderIsIdOrder(a: Addr, order: seq<(Name, Name)>, x: Name, y: Name)
    ensures Precedes(ChildOrder(a, order), ChildAddr(a, x), ChildAddr(a, y)) <==> Precedes(Elems(order), x, y)
  {
    var edges := ChildOrder(a, order);
    assert forall u, v :: ChildAddr(a, u) == ChildAddr(a, v) <==> u == v by {
      forall u, v | ChildAddr(a, u) == ChildAddr(a, v) ensures u == v {
        ChildAddrInjective(a, u, v);
      }
    }
    assert forall u, v :: (u, v) in Elems(order) ==> (ChildAddr(a, u), ChildAddr(a, v)) in edges by {
      forall u, v | (u, v) in Elems(order) ensures (ChildAddr(a, u), ChildAddr(a, v)) in edges {
        var k :| 0 <= k < |order| && order[k] == (u, v);
      }
    }
    hide ChildAddr;
    if Precedes(edges, ChildAddr(a, x), ChildAddr(a, y)) {
      forall s: set<Name> | ClosedUnder(Elems(order), s) && Successors(Elems(order), x) <= s ensures y in s {
        var t := AddrsBelow(a, s);
        forall e | e in edges && (e.0 in t || e.0 == ChildAddr(a, x)) ensures e.1 in t {
          var k :| 0 <= k < |order| && e == (ChildAddr(a, order[k].0), ChildAddr(a, order[k].1));
          assert order[k] in Elems(order);
          assert order[k].0 == x ==> order[k].1 in Successors(Elems(order), x);
        }
        assert ChildAddr(a, y) in t;
      }
    }
    if Precedes(Elems(order), x, y) {
      forall s: set<Addr> | ClosedUnder(edges, s) && Successors(edges, ChildAddr(a, x)) <= s
        ensures ChildAddr(a, y) in s
      {
        var t := IdsBelow(a, order, s);
        forall e | e in Elems(order) && (e.0 in t || e.0 == x) ensures e.1 in t {
          var k :| 0 <= k < |order| && order[k] == e;
          assert (ChildAddr(a, e.0), ChildAddr(a, e.1)) in edges;
          assert e.0 == x ==> ChildAddr(a, e.1) in Successors(edges, ChildAddr(a, x));
        }
        assert y in t;
      }
    }
  }

  /** No constraint leads from outside into an enabled node's fresh children. */
  lemma IntoChildren(f: Frontier, a: Addr, m: GroundMethod, e: Edge)
    requires a in Enabled(f) && EdgesWithin(f) && Fresh(f, a, m) && CleanOrder(m.subtasks, m.order)
    requires e in Refine(f, a, m).order && e.1 in ChildAddrs(a, m.subtasks)
    ensures e in ChildOrder(a, m.order)
  {
    assert !HasIncoming(f.order, a);
    assert forall d | d in f.order :: d.1 !in ChildAddrs(a, m.subtasks);
    assert Predecessors(f.order, a) == {};
    assert forall v | v in Successors(f.order, a) :: (a, v) in f.order;
  }

  lemma OrderWithin(after: set<Edge>, edges: set<Edge>, inside: set<Addr>, x: Addr, y: Addr)
    requires edges <= after && y in inside && forall e | e in edges :: e.0 in inside
    ensures Precedes(edges, x, y) ==> Precedes(after, x, y)
    ensures (forall e | e in after && e.1 in inside :: e in edges) ==> Precedes(after, x, y) ==> Precedes(edges, x, y)
  {
    if Precedes(edges, x, y) {
      forall s: set<Addr> | ClosedUnder(after, s) && Successors(after, x) <= s ensures y in s {
        assert ClosedUnder(edges, s) && Successors(edges, x) <= s;
      }
    }
    if Precedes(after, x, y) && forall e | e in after && e.1 in inside :: e in edges {
      forall s: set<Addr> | ClosedUnder(edges, s) && Successors(edges, x) <= s ensures y in s {
        var t := s + (set e | e in after && e.1 !in inside :: e.1);
        forall v | v in Successors(after, x) ensures v in t {
          assert (x, v) in after;
          assert (x, v) in edges ==> v in Successors(edges, x);
        }
        forall e | e in after && e.0 in t ensures e.1 in t {
          assert e.1 in inside ==> e in edges && e.0 in inside && e.0 in s;
        }
        assert y in t;
      }
    }
  }

  /** Decomposing an enabled node orders its children exactly as the method orders its subtasks, if they are fresh. */
  lemma ChildrenKeepOrder(f: Frontier, a: Addr, m: GroundMethod, x: Name, y: Name)
    requires a in Enabled(f) && EdgesWithin(f) && CleanOrder(m.subtasks, m.order)
    requires y in IdsOf(m.subtasks)
    ensures Precedes(Elems(m.order), x, y) ==> Precedes(Refine(f, a, m).order, a + "." + x, a + "." + y)
    ensures Fresh(f, a, m) ==> Precedes(Refine(f, a, m).order, a + "." + x, a + "." + y) ==> Precedes(Elems(m.order), x, y)
  {
    var i :| 0 <= i < |m.subtasks| && m.subtasks[i].id == y;
    ChildOrderIsIdOrder(a, m.order, x, y);
    assert ChildAddr(a, x) == a + "." + x && ChildAddr(a, y) == a + "." + y;
    assert ChildAddr(a, y) in ChildAddrs(a, m.subtasks);
    var after, edges := Refine(f, a, m).order, ChildOrder(a, m.order);
    assert edges <= after;
    forall e | e in edges ensures e.0 in ChildAddrs(a, m.subtasks) {
      InternalEdge(a, m, e);
    }
    hide ChildAddrs, ChildOrder, CleanOrder, Refine, Precedes;
    if Fresh(f, a, m) {
      forall e | e in after && e.1 in ChildAddrs(a, m.subtasks) ensures e in edges {
        IntoChildren(f, a, m, e);
      }
    }
    OrderWithin(after, edges, ChildAddrs(a, m.subtasks), ChildAddr(a, x), ChildAddr(a, y));
  }

  /** The root subtasks are ordered exactly as the network orders them. */
  lemma RootsKeepOrder(init: Facts, net: RootNetwork, x: Name, y: Name)
    ensures Precedes(InitialState(init, net).frontier.order, "r." + x, "r." + y) <==> Precedes(Elems(net.order), x, y)
  {
    ChildOrderIsIdOrder("r", net.order, x, y);
    assert ChildAddr("r", x) == "r." + x && ChildAddr("r", y) == "r." + y;
  }

  // ---- runs ----

  lemma RefineKeepsEdgesWithin(f: Frontier, a: Addr, m: GroundMethod)
    requires a in Enabled(f) && EdgesWithin(f) && CleanOrder(m.subtasks, m.order)
    ensures EdgesWithin(Refine(f, a, m))
    ensures Refine(f, a, m).pending.Keys == f.pending.Keys - {a} + ChildAddrs(a, m.subtasks)
  {
    ChildPendingKeys(a, m.subtasks);
    var after := Refine(f, a, m);
    assert after.pending.Keys == f.pending.Keys - {a} + ChildAddrs(a, m.subtasks);
    forall e | e in after.order ensures e.0 in after.pending.Keys && e.1 in after.pending.Keys {
      EdgeAfter(f, a, m, e);
      assert !HasIncoming(f.order, a);
    }
  }

  /** Constraints only ever relate pending nodes: one that loses an end is dropped at once. */
  lemma StepKeepsEdgesWithin(ir: GroundedIR, s: Composite, l: Label, s': Composite)
    requires OrderedIR(ir) && Step(ir, s, l, s') && EdgesWithin(s.frontier)
    ensures EdgesWithin(s'.frontier)
  {
    match l
    case Decompose(a, m) => RefineKeepsEdgesWithin(s.frontier, a, m);
    case Execute(a, _, _) => AdvanceKeepsEdgesWithin(s.frontier, a);
  }

  lemma InitialEdgesWithin(init: Facts, net: RootNetwork)
    requires CleanOrder(net.subtasks, net.order)
    ensures EdgesWithin(InitialState(init, net).frontier)
  {
    ChildPendingKeys("r", net.subtasks);
    var f := InitialState(init, net).frontier;
    forall e | e in f.order ensures e.0 in f.pending && e.1 in f.pending {
      var k :| 0 <= k < |net.order| && e == (ChildAddr("r", net.order[k].0), ChildAddr("r", net.order[k].1));
      var i :| 0 <= i < |net.subtasks| && net.subtasks[i].id == net.order[k].0;
      var j :| 0 <= j < |net.subtasks| && net.subtasks[j].id == net.order[k].1;
      assert e.0 in ChildAddrs("r", net.subtasks) && e.1 in ChildAddrs("r", net.subtasks);
    }
  }

  lemma {:induction false} RunKeepsEdgesWithin(ir: GroundedIR, states: seq<Composite>, labels: seq<Label>, i: nat)
    requires OrderedIR(ir) && Run(ir, states, labels) && i <= |labels|
    ensures EdgesWithin(states[i].frontier)
  {
    if i == 0 {
      var net :| net in ir.roots && states[0] == InitialState(ir.init, net);
      InitialEdgesWithin(ir.init, net);
    } else {
      RunKeepsEdgesWithin(ir, states, labels, i - 1);
      StepKeepsEdgesWithin(ir, states[i - 1], labels[i - 1], states[i]);
    }
  }

  // ---- what is left of a node ----

  /** What one step makes of a set of pending nodes: a decomposed one is replaced by its children, an executed one removed. */
  function StillLeft(s: set<Addr>, l: Label, next: Composite): set<Addr> {
    if l.addr !in s then s
    else match l
      case Decompose(a, m) => s - {a} + ChildAddrs(a, m.subtasks)
      case Execute(a, _, _) => if a in next.frontier.pending then s else s - {a}
  }

  /** What is left in state `j` of the node `x` of state `i`. */
  function LeftOf(states: seq<Composite>, labels: seq<Label>, i: nat, j: nat, x: Addr): set<Addr>
    requires |states| == |labels| + 1 && i <= j <= |labels|
    decreases j
  {
    if j == i then {x} else StillLeft(LeftOf(states, labels, i, j - 1, x), labels[j - 1], states[j])
  }

  /** Both sets are pending, and all of the first precedes all of the second. */
  ghost predicate Separated(f: Frontier, xs: set<Addr>, ys: set<Addr>) {
    && xs <= f.pending.Keys && ys <= f.pending.Keys
    && forall z, w | z in xs && w in ys :: Precedes(f.order, z, w)
  }

  lemma RefineKeepsSeparated(f: Frontier, a: Addr, m: GroundMethod, xs: set<Addr>, ys: set<Addr>, xs': set<Addr>, ys': set<Addr>)
    requires a in Enabled(f) && EdgesWithin(f) && CleanOrder(m.subtasks, m.order) && Separated(f, xs, ys)
    requires xs' == if a in xs then xs - {a} + ChildAddrs(a, m.subtasks) else xs
    requires ys' == if a in ys then ys - {a} + ChildAddrs(a, m.subtasks) else ys
    ensures Separated(Refine(f, a, m), xs', ys')
  {
    RefineKeepsEdgesWithin(f, a, m);
    var after, children := Refine(f, a, m), ChildAddrs(a, m.subtasks);
    hide Refine, ChildAddrs, CleanOrder, Precedes;
    forall z, w | z in xs' && w in ys' ensures Precedes(after.order, z, w) {
      if z in xs && z != a {
        if w in ys && w != a {
          RefineKeepsPrecedes(f, a, m, z, w);
        } else {
          ChildrenInheritPredecessors(f, a, m, z, w);
        }
      } else if w in ys && w != a {
        ChildrenInheritSuccessors(f, a, m, z, w);
      } else {
        EnabledHasNoPredecessor(f, a, a);
        assert false;
      }
    }
  }

  lemma StepKeepsSeparated(ir: GroundedIR, s: Composite, l: Label, s': Composite, xs: set<Addr>, ys: set<Addr>)
    requires OrderedIR(ir) && Step(ir, s, l, s') && EdgesWithin(s.frontier) && Separated(s.frontier, xs, ys)
    ensures Separated(s'.frontier, StillLeft(xs, l, s'), StillLeft(ys, l, s'))
  {
    match l
    case Decompose(a, m) => RefineKeepsSeparated(s.frontier, a, m, xs, ys, StillLeft(xs, l, s'), StillLeft(ys, l, s'));
    case Execute(a, act, i) =>
      if s'.frontier != s.frontier {
        hide Precedes;
        forall z, w | z in StillLeft(xs, l, s') && w in StillLeft(ys, l, s') ensures Precedes(s'.frontier.order, z, w) {
          AdvanceKeepsPrecedes(s.frontier, a, z, w);
        }
      }
  }

  lemma {:induction false} RunKeepsSeparated(
    ir: GroundedIR, states: seq<Composite>, labels: seq<Label>, i: nat, j: nat, x: Addr, y: Addr)
    requires OrderedIR(ir) && Run(ir, states, labels) && i <= j <= |labels|
    requires x in states[i].frontier.pending && y in states[i].frontier.pending
    requires Precedes(states[i].frontier.order, x, y)
    ensures Separated(states[j].frontier, LeftOf(states, labels, i, j, x), LeftOf(states, labels, i, j, y))
  {
    hide Step, Precedes, OrderedIR, StillLeft, EdgesWithin;
    if j > i {
      RunKeepsSeparated(ir, states, labels, i, j - 1, x, y);
      RunKeepsEdgesWithin(ir, states, labels, j - 1);
      StepKeepsSeparated(ir, states[j - 1], labels[j - 1], states[j],
                         LeftOf(states, labels, i, j - 1, x), LeftOf(states, labels, i, j - 1, y));
    }
  }

  /**
   * Order is respected along every run, whatever the subtask ids: if `x` must come before `y`, then from
   * that moment on no step decomposes or executes what is left of `y` while anything of `x` is left.
   */
  lemma OrderIsRespected(
    ir: GroundedIR, states: seq<Composite>, labels: seq<Label>, i: nat, j: nat, x: Addr, y: Addr)
    requires OrderedIR(ir) && Run(ir, states, labels) && i <= j < |labels|
    requires x in states[i].frontier.pending && y in states[i].frontier.pending
    requires Precedes(states[i].frontier.order, x, y) && labels[j].addr in LeftOf(states, labels, i, j, y)
    ensures LeftOf(states, labels, i, j, x) == {}
  {
    RunKeepsSeparated(ir, states, labels, i, j, x, y);
    assert Step(ir, states[j], labels[j], states[j + 1]);
    forall z | z in LeftOf(states, labels, i, j, x) ensures false {
      EnabledHasNoPredecessor(states[j].frontier, labels[j].addr, z);
    }
  }

  // ---- what is left lies below ----

  ghost predicate AtOrBelow(ids: Ids, a: Addr, b: Addr) {
    a == b || Below(ids, a, b)
  }

  /** No node strictly above `x` is pending. */
  ghost predicate Unrooted(ids: Ids, f: Frontier, x: Addr) {
    forall b | b in f.pending :: !Below(ids, b, x)
  }

  ghost predicate LeftIsBelow(ids: Ids, f: Frontier, x: Addr, xs: set<Addr>) {
    Unrooted(ids, f, x) && forall z :: z in xs <==> z in f.pending && AtOrBelow(ids, x, z)
  }

  lemma ChildLiesLikeParent(ids: Ids, f: Frontier, a: Addr, m: GroundMethod, x: Addr, c: Addr)
    requires Unambiguous(ids) && IdsWithin(m.subtasks, ids) && NoneBelow(ids, f.pending) && a in f.pending
    requires Unrooted(ids, f, x) && c in ChildAddrs(a, m.subtasks)
    ensures AtOrBelow(ids, x, c) <==> AtOrBelow(ids, x, a)
    ensures !Below(ids, c, x)
  {
    Addresses.ChildrenAreNew(ids, f, a, m.subtasks);
    ChildLies(ids, a, m.subtasks, c, x);
  }

  lemma RefineKeepsLeftBelow(ids: Ids, f: Frontier, a: Addr, m: GroundMethod, x: Addr, xs: set<Addr>)
    requires Unambiguous(ids) && IdsWithin(m.subtasks, ids) && NoneBelow(ids, f.pending) && a in f.pending
    requires LeftIsBelow(ids, f, x, xs)
    ensures LeftIsBelow(ids, Refine(f, a, m), x, if a in xs then xs - {a} + ChildAddrs(a, m.subtasks) else xs)
  {
    var after, children := Refine(f, a, m), ChildAddrs(a, m.subtasks);
    var xs' := if a in xs then xs - {a} + children else xs;
    ChildPendingKeys(a, m.subtasks);
    assert forall z :: z in after.pending <==> (z in f.pending && z != a) || z in children;
    forall c | c in children
      ensures AtOrBelow(ids, x, c) <==> AtOrBelow(ids, x, a)
      ensures !Below(ids, c, x) && c !in f.pending
    {
      ChildLiesLikeParent(ids, f, a, m, x, c);
      Addresses.ChildrenAreNew(ids, f, a, m.subtasks);
    }
    hide Refine, ChildAddrs, AtOrBelow, Below, Unambiguous, NoneBelow;
    forall z ensures z in xs' <==> z in after.pending && AtOrBelow(ids, x, z) {
    }
  }

  lemma StepKeepsLeftBelow(
    ids: Ids, ir: GroundedIR, s: Composite, l: Label, s': Composite, x: Addr, xs: set<Addr>)
    requires Unambiguous(ids) && DrawsFrom(ir, ids) && Step(ir, s, l, s') && NoneBelow(ids, s.frontier.pending)
    requires LeftIsBelow(ids, s.frontier, x, xs)
    ensures LeftIsBelow(ids, s'.frontier, x, StillLeft(xs, l, s'))
  {
    hide Unambiguous, Below, NoneBelow, AtOrBelow;
    match l
    case Decompose(a, m) => RefineKeepsLeftBelow(ids, s.frontier, a, m, x, xs);
    case Execute(_, _, _) =>
  }

  /** With unambiguous ids, what is left of a node is what is pending at or below its address. */
  lemma {:induction false} LeftIsPendingBelow(
    ids: Ids, ir: GroundedIR, states: seq<Composite>, labels: seq<Label>, i: nat, j: nat, x: Addr)
    requires Unambiguous(ids) && DrawsFrom(ir, ids) && Run(ir, states, labels) && i <= j <= |labels|
    requires x in states[i].frontier.pending
    ensures LeftIsBelow(ids, states[j].frontier, x, LeftOf(states, labels, i, j, x))
  {
    hide Unambiguous, Below, NoneBelow, Step, StillLeft;
    if j == i {
      RunKeepsNoneBelow(ids, ir, states, labels, i);
      StartsAsItself(ids, states[i].frontier, x);
    } else {
      LeftIsPendingBelow(ids, ir, states, labels, i, j - 1, x);
      RunKeepsNoneBelow(ids, ir, states, labels, j - 1);
      StepKeepsLeftBelow(ids, ir, states[j - 1], labels[j - 1], states[j], x, LeftOf(states, labels, i, j - 1, x));
    }
  }

  lemma StartsAsItself(ids: Ids, f: Frontier, x: Addr)
    requires NoneBelow(ids, f.pending) && x in f.pending
    ensures LeftIsBelow(ids, f, x, {x})
  {
  }

  // ---- constraints over time ----

  lemma StepKeepsPrecedes(ir: GroundedIR, s: Composite, l: Label, s': Composite, x: Addr, y: Addr)
    requires OrderedIR(ir) && Step(ir, s, l, s') && EdgesWithin(s.frontier)
    requires x in s.frontier.pending && y in s.frontier.pending
    requires x in s'.frontier.pending && y in s'.frontier.pending
    ensures !Collides(s, l) ==> Precedes(s'.frontier.order, x, y) ==> Precedes(s.frontier.order, x, y)
    ensures Precedes(s.frontier.order, x, y) ==> Precedes(s'.frontier.order, x, y)
  {
    var f := s.frontier;
    match l
    case Decompose(a, m) =>
      RefineKeepsEdgesWithin(f, a, m);
      NotItsOwnChild(a, m);
      assert x in s'.frontier.pending.Keys && y in s'.frontier.pending.Keys;
      RefineKeepsPrecedes(f, a, m, x, y);
    case Execute(a, act, i) =>
      if s'.frontier != f {
        AdvanceKeepsPrecedes(f, a, x, y);
      }
  }

  lemma NotItsOwnChild(a: Addr, m: GroundMethod)
    ensures a !in ChildAddrs(a, m.subtasks)
  {
    forall i | 0 <= i < |m.subtasks| ensures ChildAddr(a, m.subtasks[i].id) != a {
      assert |ChildAddr(a, m.subtasks[i].id)| > |a|;
    }
  }

  /**
   * No constraint between two nodes that stay pending is ever lost, and none is added unless a child
   * takes the address of a pending node.
   */
  lemma {:induction false} OrderNeverChanges(
    ir: GroundedIR, states: seq<Composite>, labels: seq<Label>, i: nat, j: nat, x: Addr, y: Addr)
    requires OrderedIR(ir) && Run(ir, states, labels) && i <= j <= |labels|
    requires forall k | i <= k <= j :: x in states[k].frontier.pending && y in states[k].frontier.pending
    ensures Precedes(states[i].frontier.order, x, y) ==> Precedes(states[j].frontier.order, x, y)
    ensures (forall k | i <= k < j :: !Collides(states[k], labels[k])) ==>
              Precedes(states[j].frontier.order, x, y) ==> Precedes(states[i].frontier.order, x, y)
  {
    hide Step, Precedes, OrderedIR, EdgesWithin, Collides;
    if j > i {
      OrderNeverChanges(ir, states, labels, i, j - 1, x, y);
      RunKeepsEdgesWithin(ir, states, labels, j - 1);
      assert x in states[j - 1].frontier.pending && y in states[j - 1].frontier.pending;
      assert x in states[j].frontier.pending && y in states[j].frontier.pending;
      StepKeepsPrecedes(ir, states[j - 1], labels[j - 1], states[j], x, y);
    }
  }

  // ---- what the syntax must satisfy ----

  lemma GroundNetworkIsClean(net: TaskNetwork, b: Binding)
    requires ValidOrder(net) && GroundSubtasks(net.subtasks, b).Ok?
    ensures CleanOrder(GroundSubtasks(net.subtasks, b).value, OrderOf(net.order))
  {
    SubtasksPointwise(net.subtasks, b);
    var gs := GroundSubtasks(net.subtasks, b).value;
    var rank :| EdgesRanked(net.order, rank);
    assert OrderRanked(OrderOf(net.order), rank);
    assert IdsOf(gs) == SubtaskIds(net.subtasks) by {
      forall i | 0 <= i < |gs| ensures gs[i].id == net.subtasks[i].id {
      }
    }
  }

  lemma {:induction false} RootNetworkIsClean(net: TaskNetwork, bs: seq<Binding>, root: RootNetwork)
    requires ValidOrder(net) && RootNetworksUnder(net, bs).Ok? && root in RootNetworksUnder(net, bs).value
    ensures CleanOrder(root.subtasks, root.order)
  {
    var gs := GroundSubtasks(net.subtasks, bs[0]).value;
    if root == RootNetwork(gs, OrderOf(net.order)) {
      GroundNetworkIsClean(net, bs[0]);
    } else {
      RootNetworkIsClean(net, bs[1..], root);
    }
  }

  /** Grounding a problem whose networks are validly ordered gives validly ordered ground networks. */
  lemma ValidOrdersGroundCleanly(d: Domain, p: Problem, objs: ObjectIndex, maxA: nat, maxM: nat, ir: GroundedIR)
    requires IsFullGrounding(d, p, objs, maxA, maxM, ir)
    requires ValidOrder(p.htn) && forall m | m in d.methods :: ValidOrder(m.network)
    ensures OrderedIR(ir)
  {
    hide ValidOrder, CleanOrder;
    forall g | g in ir.methods ensures CleanOrder(g.subtasks, g.order) {
      var m, b := MethodSource(d, objs, maxM, g);
      GroundNetworkIsClean(m.network, b);
    }
    forall net | net in ir.roots ensures CleanOrder(net.subtasks, net.order) {
      RootNetworkIsClean(p.htn, BindingsOf(p.htn.params, objs), net);
    }
  }
}
