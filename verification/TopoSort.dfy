// Kahn's algorithm over successor sets.
module TopoSort {
  import opened Prelude

  type Res = string

  type Graph = map<Res, set<Res>>

  ghost predicate ClosedGraph(g: Graph) {
    forall a | a in g :: g[a] <= g.Keys
  }

  ghost function Preds(g: Graph, o: Res): set<Res> {
    set a | a in g && o in g[a]
  }

  ghost function Seen(s: seq<Res>): set<Res> {
    set r | r in s
  }

  /** No node is listed twice, and none before all of its predecessors. */
  ghost predicate Topological(g: Graph, order: seq<Res>) {
    Unrepeated(order) && forall i | 0 <= i < |order| :: Preds(g, order[i]) <= Seen(order[..i])
  }

  /** Some rank grows along every edge. */
  ghost predicate Acyclic(g: Graph) {
    exists rank :: Ranked(g, rank)
  }

  ghost predicate Ranked(g: Graph, rank: map<Res, nat>) {
    rank.Keys == g.Keys && forall a, b | a in g && b in g && b in g[a] :: rank[a] < rank[b]
  }

  /** Adds an edge from a known node. */
  function AddEdge(g: Graph, a: Res, b: Res): Graph {
    if a in g then g[a := g[a] + {b}] else g
  }

  ghost predicate CountsPreds(g: Graph, indeg: map<Res, nat>) {
    indeg.Keys == g.Keys && forall x | x in g :: indeg[x] == |Preds(g, x)|
  }

  lemma PredsNewEdge(g: Graph, a: Res, b: Res, x: Res)
    requires a in g && b in g && b !in g[a]
    ensures |Preds(AddEdge(g, a, b), x)| == |Preds(g, x)| + if x == b then 1 else 0
  {
    var before, after := Preds(g, x), Preds(AddEdge(g, a, b), x);
    if x == b {
      assert a !in before;
      assert after == before + {a};
    } else {
      assert after == before;
    }
  }

  /** A new edge adds one predecessor to its target. */
  lemma CountNewEdge(g: Graph, indeg: map<Res, nat>, a: Res, b: Res)
    requires CountsPreds(g, indeg) && a in g && b in g
    ensures b !in g[a] ==> CountsPreds(AddEdge(g, a, b), indeg[b := indeg[b] + 1])
    ensures b in g[a] ==> AddEdge(g, a, b) == g
  {
    hide Preds;
    if b in g[a] {
      assert g[a] + {b} == g[a];
    } else {
      forall x | x in g ensures |Preds(AddEdge(g, a, b), x)| == |Preds(g, x)| + if x == b then 1 else 0 {
        PredsNewEdge(g, a, b, x);
      }
    }
  }

  /** In-degrees count the predecessors not yet ordered; those with none are ordered or queued. */
  ghost predicate Kahn(g: Graph, order: seq<Res>, queue: seq<Res>, indeg: map<Res, nat>) {
    && Topological(g, order) && Unrepeated(order + queue)
    && indeg.Keys == g.Keys && Seen(order + queue) <= g.Keys
    && Counts(g, order, indeg, {})
    && ZeroIsListed(g, order + queue, indeg)
  }

  /** The count of each node, one too many for the nodes of `todo`. */
  ghost predicate Counts(g: Graph, order: seq<Res>, indeg: map<Res, nat>, todo: set<Res>)
    requires indeg.Keys == g.Keys
  {
    forall x | x in g :: indeg[x] == |Preds(g, x) - Seen(order)| + if x in todo then 1 else 0
  }

  ghost predicate ZeroIsListed(g: Graph, listed: seq<Res>, indeg: map<Res, nat>)
    requires indeg.Keys == g.Keys
  {
    forall x | x in g :: indeg[x] == 0 <==> x in listed
  }

  lemma UnrepeatedPrefix(s: seq<Res>, t: seq<Res>)
    requires Unrepeated(s + t)
    ensures Unrepeated(s) && Unrepeated(t) && forall x | x in t :: x !in s
  {
    var all := s + t;
    assert forall i | 0 <= i < |s| :: all[i] == s[i];
    assert forall i | 0 <= i < |t| :: all[|s| + i] == t[i];
  }

  lemma TopologicalSnoc(g: Graph, order: seq<Res>, r: Res)
    requires Topological(g, order) && r !in order && Preds(g, r) <= Seen(order)
    ensures Topological(g, order + [r])
  {
    hide Preds;
    var order' := order + [r];
    UnrepeatedSnoc(order, r);
    forall i | 0 <= i < |order'| ensures Preds(g, order'[i]) <= Seen(order'[..i]) {
      if i < |order| {
        assert order'[..i] == order[..i];
      } else {
        assert order'[..i] == order;
      }
    }
  }

  /** Ordering `r` leaves one count too many at each of its successors. */
  lemma CountsAfter(g: Graph, order: seq<Res>, r: Res, indeg: map<Res, nat>)
    requires indeg.Keys == g.Keys && r in g && r !in order && Counts(g, order, indeg, {})
    ensures Counts(g, order + [r], indeg, g[r])
  {
    hide Counts, Preds, Seen;
    forall x | x in g
      ensures |Preds(g, x) - Seen(order)| == |Preds(g, x) - Seen(order + [r])| + if x in g[r] then 1 else 0
    {
      MissingAfter(g, order, r, x);
    }
    CountsFrom(g, order, r, indeg);
  }

  lemma MissingAfter(g: Graph, order: seq<Res>, r: Res, x: Res)
    requires r in g && r !in order
    ensures |Preds(g, x) - Seen(order)| == |Preds(g, x) - Seen(order + [r])| + if x in g[r] then 1 else 0
  {
    var missing := Preds(g, x) - Seen(order);
    assert Preds(g, x) - Seen(order + [r]) == missing - {r};
    assert r in missing <==> x in g[r];
  }

  lemma CountsFrom(g: Graph, order: seq<Res>, r: Res, indeg: map<Res, nat>)
    requires indeg.Keys == g.Keys && r in g && Counts(g, order, indeg, {})
    requires forall x | x in g ::
               |Preds(g, x) - Seen(order)| == |Preds(g, x) - Seen(order + [r])| + if x in g[r] then 1 else 0
    ensures Counts(g, order + [r], indeg, g[r])
  {
    hide Preds, Seen;
  }

  /** Moving the head of the queue to the end of the order. */
  lemma OrderHead(g: Graph, order: seq<Res>, r: Res, queue: seq<Res>, indeg: map<Res, nat>)
    requires ClosedGraph(g) && Kahn(g, order, [r] + queue, indeg)
    ensures r in g && g[r] <= g.Keys && r !in order
    ensures Topological(g, order + [r]) && Unrepeated((order + [r]) + queue)
    ensures Seen((order + [r]) + queue) <= g.Keys
    ensures Counts(g, order + [r], indeg, g[r]) && ZeroIsListed(g, (order + [r]) + queue, indeg)
  {
    hide Topological, Unrepeated;
    assert (order + [r]) + queue == order + ([r] + queue);
    UnrepeatedPrefix(order, [r] + queue);
    assert r in [r] + queue;
    assert r in order + ([r] + queue);
    assert r in Seen(order + ([r] + queue));
    assert indeg[r] == 0;
    assert Preds(g, r) - Seen(order) == {};
    TopologicalSnoc(g, order, r);
    CountsAfter(g, order, r, indeg);
  }

  /** Discounts `o`, and queues it if that was its last missing predecessor. */
  lemma Discount(g: Graph, order: seq<Res>, queue: seq<Res>, indeg: map<Res, nat>, todo: set<Res>, o: Res)
    requires indeg.Keys == g.Keys && o in g && o in todo
    requires Unrepeated(order + queue) && Seen(order + queue) <= g.Keys
    requires Counts(g, order, indeg, todo) && ZeroIsListed(g, order + queue, indeg)
    ensures indeg[o] > 0
    ensures var indeg' := indeg[o := indeg[o] - 1];
            var queue' := if indeg'[o] == 0 then queue + [o] else queue;
            && Unrepeated(order + queue') && Seen(order + queue') <= g.Keys
            && Counts(g, order, indeg', todo - {o}) && ZeroIsListed(g, order + queue', indeg')
  {
    hide Unrepeated, Preds;
    var listed := order + queue;
    assert indeg[o] > 0;
    assert o !in listed;
    var indeg' := indeg[o := indeg[o] - 1];
    DiscountCounts(g, order, indeg, todo, o);
    if indeg'[o] == 0 {
      UnrepeatedSnoc(listed, o);
      assert order + (queue + [o]) == listed + [o];
    }
  }

  lemma DiscountCounts(g: Graph, order: seq<Res>, indeg: map<Res, nat>, todo: set<Res>, o: Res)
    requires indeg.Keys == g.Keys && o in g && o in todo && indeg[o] > 0 && Counts(g, order, indeg, todo)
    ensures Counts(g, order, indeg[o := indeg[o] - 1], todo - {o})
  {
    hide Preds, Seen;
  }

  /** The nodes without predecessors, in order. */
  method Sources(nodes: seq<Res>, indeg: map<Res, nat>) returns (queue: seq<Res>)
    requires Unrepeated(nodes) && Seen(nodes) == indeg.Keys
    ensures Unrepeated(queue)
    ensures forall r :: r in queue <==> r in nodes && indeg[r] == 0
  {
    queue := [];
    for i := 0 to |nodes|
      invariant Unrepeated(queue)
      invariant forall r :: r in queue <==> r in nodes[..i] && indeg[r] == 0
    {
      assert nodes[..i + 1] == nodes[..i] + [nodes[i]];
      if indeg[nodes[i]] == 0 {
        queue := queue + [nodes[i]];
      }
    }
    assert nodes[..|nodes|] == nodes;
  }

  /**
   * The order is topological and lists known nodes only; it lists every node exactly when the
   * graph is acyclic.
   */
  method TopologicalOrder(nodes: seq<Res>, g: Graph, indeg0: map<Res, nat>) returns (order: seq<Res>)
    requires Unrepeated(nodes) && Seen(nodes) == g.Keys && ClosedGraph(g) && CountsPreds(g, indeg0)
    ensures Topological(g, order) && Seen(order) <= g.Keys
    ensures Seen(order) == g.Keys <==> Acyclic(g)
  {
    hide Topological, Preds, ClosedGraph, CountsPreds, Acyclic, Kahn;
    var indeg := indeg0;
    order := [];
    CountsKeys(g, indeg);
    var queue := Sources(nodes, indeg);
    StartKahn(nodes, g, indeg, queue);
    while queue != []
      invariant Kahn(g, order, queue, indeg)
      decreases g.Keys - Seen(order)
    {
      var r := queue[0];
      assert queue == [r] + queue[1..];
      OrderHead(g, order, r, queue[1..], indeg);
      KahnKeys(g, order, queue, indeg);
      queue, indeg := Release(g, order + [r], r, queue[1..], indeg);
      assert r in g.Keys - Seen(order);
      assert Seen(order + [r]) == Seen(order) + {r};
      order := order + [r];
    }
    CompleteIffAcyclic(g, order, indeg);
  }

  lemma CountsKeys(g: Graph, indeg: map<Res, nat>)
    requires CountsPreds(g, indeg)
    ensures indeg.Keys == g.Keys
  {
  }

  lemma KahnKeys(g: Graph, order: seq<Res>, queue: seq<Res>, indeg: map<Res, nat>)
    requires Kahn(g, order, queue, indeg)
    ensures indeg.Keys == g.Keys
  {
  }

  lemma StartKahn(nodes: seq<Res>, g: Graph, indeg: map<Res, nat>, queue: seq<Res>)
    requires Unrepeated(queue) && Seen(nodes) == g.Keys && CountsPreds(g, indeg)
    requires forall r :: r in queue <==> r in nodes && r in indeg && indeg[r] == 0
    ensures Kahn(g, [], queue, indeg)
  {
    assert [] + queue == queue;
    forall x | x in g ensures indeg[x] == |Preds(g, x) - Seen([])| {
      assert Preds(g, x) - Seen([]) == Preds(g, x);
    }
    forall x | x in g ensures x in nodes {
      assert x in Seen(nodes);
    }
  }

  /** Discounts every successor of the node just ordered. */
  method Release(g: Graph, ghost order: seq<Res>, r: Res, queue0: seq<Res>, indeg0: map<Res, nat>)
    returns (queue: seq<Res>, indeg: map<Res, nat>)
    requires r in g && g[r] <= g.Keys == indeg0.Keys
    requires Topological(g, order) && Unrepeated(order + queue0) && Seen(order + queue0) <= g.Keys
    requires Counts(g, order, indeg0, g[r]) && ZeroIsListed(g, order + queue0, indeg0)
    ensures Kahn(g, order, queue, indeg)
  {
    hide Topological, Unrepeated, Counts, ZeroIsListed, Seen;
    queue, indeg := queue0, indeg0;
    var todo := g[r];
    while todo != {}
      invariant todo <= g[r] && indeg.Keys == g.Keys
      invariant Unrepeated(order + queue) && Seen(order + queue) <= g.Keys
      invariant Counts(g, order, indeg, todo) && ZeroIsListed(g, order + queue, indeg)
      decreases todo
    {
      var o :| o in todo;
      Discount(g, order, queue, indeg, todo, o);
      todo := todo - {o};
      indeg := indeg[o := indeg[o] - 1];
      if indeg[o] == 0 {
        queue := queue + [o];
      }
    }
  }

  ghost function Position(order: seq<Res>, r: Res): nat
    requires r in order
    ensures Position(order, r) < |order| && order[Position(order, r)] == r
  {
    var i :| 0 <= i < |order| && order[i] == r;
    i
  }

  /** With an empty queue the order misses nothing exactly when some rank grows along every edge. */
  lemma CompleteIffAcyclic(g: Graph, order: seq<Res>, indeg: map<Res, nat>)
    requires ClosedGraph(g) && Kahn(g, order, [], indeg)
    ensures Topological(g, order) && Seen(order) <= g.Keys
    ensures Seen(order) == g.Keys <==> Acyclic(g)
  {
    assert order + [] == order;
    if Seen(order) == g.Keys {
      OrderGivesRank(g, order);
    }
    if Acyclic(g) {
      var rank :| Ranked(g, rank);
      forall r | r in g ensures r in Seen(order) {
        RankedIsOrdered(g, order, indeg, rank, r);
      }
      assert order + [] == order;
    }
  }

  lemma OrderGivesRank(g: Graph, order: seq<Res>)
    requires Topological(g, order) && Seen(order) == g.Keys
    ensures Acyclic(g)
  {
    assert forall r | r in g :: r in Seen(order);
    var rank := map r | r in g :: Position(order, r);
    forall a, b | a in g && b in g && b in g[a] ensures rank[a] < rank[b] {
      var i := Position(order, b);
      assert a in Preds(g, order[i]);
      assert a in Seen(order[..i]);
      var j :| 0 <= j < i && order[j] == a;
      assert Position(order, a) == j;
    }
    assert Ranked(g, rank);
  }

  /** With nothing queued, a node whose predecessors are all ordered is ordered. */
  lemma {:induction false} RankedIsOrdered(
    g: Graph, order: seq<Res>, indeg: map<Res, nat>, rank: map<Res, nat>, r: Res)
    requires Kahn(g, order, [], indeg) && Ranked(g, rank) && r in g
    ensures r in order
    decreases rank[r]
  {
    forall a | a in Preds(g, r) ensures a in Seen(order) {
      RankedIsOrdered(g, order, indeg, rank, a);
    }
    assert Preds(g, r) - Seen(order) == {};
    assert order + [] == order;
  }
}
