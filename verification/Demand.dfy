// Recipe demand: how often each recipe must fire to make N of a goal, and the raw stock that takes.
module Demand {
  import opened Prelude
  import opened TopoSort

  /** Consumes each listed quantity of each input and produces `qty` of `out`. */
  datatype Recipe = Recipe(name: string, ins: seq<(Res, nat)>, out: Res, qty: nat)

  // ---- what the generators guarantee of their content ----

  predicate OneProducer(recipes: seq<Recipe>) {
    forall i, j | 0 <= i < j < |recipes| :: recipes[i].out != recipes[j].out && recipes[i].name != recipes[j].name
  }

  predicate Covers(resources: seq<Res>, recipes: seq<Recipe>) {
    forall k | 0 <= k < |recipes| ::
      recipes[k].out in resources && recipes[k].qty > 0
      && forall j | 0 <= j < |recipes[k].ins| :: recipes[k].ins[j].0 in resources
  }

  /** Some recipe turns `a` into `b`. */
  ghost predicate Edge(recipes: seq<Recipe>, a: Res, b: Res) {
    exists k, j :: 0 <= k < |recipes| && recipes[k].out == b && 0 <= j < |recipes[k].ins| && recipes[k].ins[j].0 == a
  }

  // ---- the linear system ----

  /** How much of `r` one firing consumes. */
  function Need(ins: seq<(Res, nat)>, r: Res): nat {
    if ins == [] then 0 else (if ins[0].0 == r then ins[0].1 else 0) + Need(ins[1..], r)
  }

  /** How much of `r` the firing vector `x` consumes. */
  function Consumed(recipes: seq<Recipe>, x: seq<nat>, r: Res): nat
    requires |x| == |recipes|
  {
    if recipes == [] then 0 else x[0] * Need(recipes[0].ins, r) + Consumed(recipes[1..], x[1..], r)
  }

  function Produced(recipes: seq<Recipe>, x: seq<nat>, r: Res): nat
    requires |x| == |recipes|
  {
    if recipes == [] then 0
    else (if recipes[0].out == r then x[0] * recipes[0].qty else 0) + Produced(recipes[1..], x[1..], r)
  }

  /** What is asked of `r` when the recipes fire `x` times and `n` of the goal must remain. */
  function Required(recipes: seq<Recipe>, x: seq<nat>, goal: Res, n: nat, r: Res): nat
    requires |x| == |recipes|
  {
    (if r == goal then n else 0) + Consumed(recipes, x, r)
  }

  /** Every produced resource is produced in sufficient quantity; unproduced ones come from stock. */
  ghost predicate Feasible(recipes: seq<Recipe>, x: seq<nat>, goal: Res, n: nat) {
    |x| == |recipes|
    && forall k | 0 <= k < |recipes| :: x[k] * recipes[k].qty >= Required(recipes, x, goal, n, recipes[k].out)
  }

  /** Negated floor division of the negated numerator. */
  function CeilDiv(a: int, b: nat): int
    requires b > 0
  {
    -((-a) / b)
  }

  lemma CeilDivBounds(a: nat, b: nat)
    requires b > 0
    ensures CeilDiv(a, b) >= 0 && CeilDiv(a, b) * b >= a
    ensures forall x: nat | x * b >= a :: CeilDiv(a, b) <= x
    ensures a > 0 ==> CeilDiv(a, b) > 0
    ensures a == 0 ==> CeilDiv(a, b) == 0
  {
    var m: int := -(a as int);
    var q := CeilDiv(a, b);
    Euclid(m, b);
    assert q * b == a + m % b;
    forall x: nat | x * b >= a ensures q <= x {
      if q > x {
        Surplus(q, x, b);
      }
    }
  }

  lemma Euclid(m: int, b: nat)
    requires b > 0
    ensures m == (m / b) * b + m % b && 0 <= m % b < b
    ensures (-(m / b)) * b == -m + m % b
  {
  }

  lemma Surplus(q: int, x: nat, b: nat)
    requires q > x && b > 0
    ensures q * b >= x * b + b
  {
    Scale(x + 1, q, b);
    assert (x + 1) * b == x * b + b;
  }

  // ---- the recipe graph ----

  /** The graph of the first recipes, input to output. */
  function AddInputs(g: Graph, ins: seq<(Res, nat)>, out: Res): Graph {
    if ins == [] then g
    else
      var n := |ins| - 1;
      AddEdge(AddInputs(g, ins[..n], out), ins[n].0, out)
  }

  function AddRecipes(g: Graph, recipes: seq<Recipe>): Graph {
    if recipes == [] then g
    else
      var n := |recipes| - 1;
      AddInputs(AddRecipes(g, recipes[..n]), recipes[n].ins, recipes[n].out)
  }

  function EmptyGraph(resources: seq<Res>): Graph {
    map r | r in resources :: {}
  }

  function RecipeGraph(resources: seq<Res>, recipes: seq<Recipe>): Graph {
    AddRecipes(EmptyGraph(resources), recipes)
  }

  lemma {:induction false} InAddInputs(g: Graph, ins: seq<(Res, nat)>, out: Res, a: Res, b: Res)
    requires a in g
    ensures AddInputs(g, ins, out).Keys == g.Keys
    ensures b in AddInputs(g, ins, out)[a] <==> b in g[a] || (b == out && exists j :: 0 <= j < |ins| && ins[j].0 == a)
  {
    if ins != [] {
      var n := |ins| - 1;
      InAddInputs(g, ins[..n], out, a, b);
      assert forall j | 0 <= j < n :: ins[..n][j] == ins[j];
    }
  }

  lemma {:induction false} InAddRecipes(g: Graph, recipes: seq<Recipe>, a: Res, b: Res)
    requires a in g
    ensures AddRecipes(g, recipes).Keys == g.Keys
    ensures b in AddRecipes(g, recipes)[a] <==> b in g[a] || Edge(recipes, a, b)
  {
    if recipes != [] {
      var n := |recipes| - 1;
      var front := recipes[..n];
      InAddRecipes(g, front, a, b);
      InAddInputs(AddRecipes(g, front), recipes[n].ins, recipes[n].out, a, b);
      assert forall k | 0 <= k < n :: front[k] == recipes[k];
      if Edge(front, a, b) {
        var k, j :| 0 <= k < |front| && front[k].out == b && 0 <= j < |front[k].ins| && front[k].ins[j].0 == a;
        assert recipes[k].out == b && recipes[k].ins[j].0 == a;
      }
      if Edge(recipes, a, b) {
        var k, j :| 0 <= k < |recipes| && recipes[k].out == b && 0 <= j < |recipes[k].ins| && recipes[k].ins[j].0 == a;
        if k < n {
          assert front[k].out == b && front[k].ins[j].0 == a;
        }
      }
    }
  }

  /** The graph has the resources as nodes and the recipes' input-output pairs as edges. */
  lemma RecipeGraphEdges(resources: seq<Res>, recipes: seq<Recipe>)
    requires Covers(resources, recipes)
    ensures var g := RecipeGraph(resources, recipes);
            && g.Keys == Seen(resources) && ClosedGraph(g)
            && forall a, b | a in g :: b in g[a] <==> Edge(recipes, a, b)
  {
    var g0, g := EmptyGraph(resources), RecipeGraph(resources, recipes);
    forall a, b | a in g0 ensures g.Keys == g0.Keys && (b in g[a] <==> Edge(recipes, a, b)) {
      InAddRecipes(g0, recipes, a, b);
    }
    AddRecipesKeys(g0, recipes);
  }

  lemma {:induction false} AddInputsKeys(g: Graph, ins: seq<(Res, nat)>, out: Res)
    ensures AddInputs(g, ins, out).Keys == g.Keys
  {
    if ins != [] {
      AddInputsKeys(g, ins[..|ins| - 1], out);
    }
  }

  lemma {:induction false} AddRecipesKeys(g: Graph, recipes: seq<Recipe>)
    ensures AddRecipes(g, recipes).Keys == g.Keys
  {
    if recipes != [] {
      var n := |recipes| - 1;
      AddRecipesKeys(g, recipes[..n]);
      AddInputsKeys(AddRecipes(g, recipes[..n]), recipes[n].ins, recipes[n].out);
    }
  }

  /** Builds the successor sets and the in-degrees. */
  method BuildGraph(resources: seq<Res>, recipes: seq<Recipe>) returns (g: Graph, indeg: map<Res, nat>)
    requires Covers(resources, recipes)
    ensures g == RecipeGraph(resources, recipes) && CountsPreds(g, indeg)
  {
    hide CountsPreds;
    g := EmptyGraph(resources);
    indeg := map r | r in resources :: 0;
    NoEdges(resources, g, indeg);
    for k := 0 to |recipes|
      invariant g == AddRecipes(EmptyGraph(resources), recipes[..k]) && g.Keys == Seen(resources)
      invariant CountsPreds(g, indeg) && indeg.Keys == g.Keys
    {
      var ins, out := recipes[k].ins, recipes[k].out;
      ghost var before := g;
      assert out in Seen(resources);
      for j := 0 to |ins|
        invariant g == AddInputs(before, ins[..j], out) && g.Keys == Seen(resources)
        invariant CountsPreds(g, indeg) && indeg.Keys == g.Keys
      {
        var r := ins[j].0;
        assert r in Seen(resources);
        assert ins[..j + 1][..j] == ins[..j];
        CountNewEdge(g, indeg, r, out);
        if out !in g[r] {
          g := g[r := g[r] + {out}];
          indeg := indeg[out := indeg[out] + 1];
        }
      }
      assert ins[..|ins|] == ins;
      assert recipes[..k + 1][..k] == recipes[..k];
    }
    assert recipes[..|recipes|] == recipes;
  }

  lemma NoEdges(resources: seq<Res>, g: Graph, indeg: map<Res, nat>)
    requires g == EmptyGraph(resources) && indeg == map r | r in resources :: 0
    ensures CountsPreds(g, indeg)
  {
    forall x | x in g ensures |Preds(g, x)| == 0 {
      assert Preds(g, x) == {};
    }
  }

  // ---- facts about the linear system ----

  lemma {:induction false} NeedSnoc(ins: seq<(Res, nat)>, p: (Res, nat), r: Res)
    ensures Need(ins + [p], r) == Need(ins, r) + if p.0 == r then p.1 else 0
  {
    if ins == [] {
      assert ([] + [p])[1..] == [];
    } else {
      assert (ins + [p])[1..] == ins[1..] + [p];
      NeedSnoc(ins[1..], p, r);
    }
  }

  lemma {:induction false} NeedMeansEdge(ins: seq<(Res, nat)>, r: Res)
    requires Need(ins, r) > 0
    ensures exists j :: 0 <= j < |ins| && ins[j].0 == r
  {
    if ins[0].0 != r {
      NeedMeansEdge(ins[1..], r);
      var j :| 0 <= j < |ins[1..]| && ins[1..][j].0 == r;
      assert ins[j + 1].0 == r;
    }
  }

  /** Raising one entry from zero adds that recipe's consumption. */
  lemma {:induction false} ConsumedUpdate(recipes: seq<Recipe>, x: seq<nat>, k: nat, f: nat, r: Res)
    requires |x| == |recipes| && k < |x| && x[k] == 0
    ensures Consumed(recipes, x[k := f], r) == Consumed(recipes, x, r) + f * Need(recipes[k].ins, r)
  {
    var y := x[k := f];
    if k == 0 {
      assert y[1..] == x[1..];
    } else {
      assert y[1..] == x[1..][k - 1 := f];
      ConsumedUpdate(recipes[1..], x[1..], k - 1, f, r);
    }
  }

  lemma {:induction false} ConsumedMonotone(recipes: seq<Recipe>, x: seq<nat>, y: seq<nat>, r: Res)
    requires |x| == |recipes| == |y|
    requires forall k | 0 <= k < |x| && Need(recipes[k].ins, r) > 0 :: x[k] <= y[k]
    ensures Consumed(recipes, x, r) <= Consumed(recipes, y, r)
  {
    if recipes != [] {
      forall k | 0 <= k < |x[1..]| && Need(recipes[1..][k].ins, r) > 0 ensures x[1..][k] <= y[1..][k] {
        assert x[k + 1] <= y[k + 1];
      }
      ConsumedMonotone(recipes[1..], x[1..], y[1..], r);
      var n := Need(recipes[0].ins, r);
      if n > 0 {
        Scale(x[0], y[0], n);
      }
    }
  }

  lemma Scale(a: nat, b: nat, n: nat)
    requires a <= b
    ensures a * n <= b * n
  {
    var d: nat := b - a;
    assert (a + d) * n == a * n + d * n;
  }

  lemma {:induction false} ConsumedZero(recipes: seq<Recipe>, x: seq<nat>, r: Res)
    requires |x| == |recipes|
    requires forall k | 0 <= k < |x| :: x[k] == 0 || Need(recipes[k].ins, r) == 0
    ensures Consumed(recipes, x, r) == 0
  {
    if recipes != [] {
      forall k | 0 <= k < |x[1..]| ensures x[1..][k] == 0 || Need(recipes[1..][k].ins, r) == 0 {
        assert x[k + 1] == 0 || Need(recipes[k + 1].ins, r) == 0;
      }
      ConsumedZero(recipes[1..], x[1..], r);
    }
  }

  // ---- the reverse pass ----

  /** The firing count recorded for each recipe, zero if none was recorded. */
  function FiringVector(recipes: seq<Recipe>, firings: map<string, nat>): seq<nat> {
    seq(|recipes|, k requires 0 <= k < |recipes| => if recipes[k].name in firings then firings[recipes[k].name] else 0)
  }

  /** `x` fires each recipe just often enough for what is required of its output. */
  ghost predicate Balanced(recipes: seq<Recipe>, x: seq<nat>, goal: Res, n: nat) {
    |x| == |recipes|
    && forall k | 0 <= k < |recipes| && recipes[k].qty > 0 ::
         x[k] == CeilDiv(Required(recipes, x, goal, n, recipes[k].out), recipes[k].qty)
  }

  /** What the reverse pass has established when the resources of `settled` are done. */
  ghost predicate Settled(
    resources: seq<Res>, recipes: seq<Recipe>, goal: Res, n: nat, settled: set<Res>, demand: map<Res, nat>, x: seq<nat>)
  {
    && |x| == |recipes|
    && (forall r | r in resources :: r in demand && demand[r] == Required(recipes, x, goal, n, r))
    && (forall k | 0 <= k < |recipes| && recipes[k].out !in settled :: x[k] == 0)
    && (forall k | 0 <= k < |recipes| && recipes[k].out in settled && recipes[k].qty > 0 ::
          x[k] == CeilDiv(Required(recipes, x, goal, n, recipes[k].out), recipes[k].qty))
  }

  lemma LaterSplits(order: seq<Res>, p: nat)
    requires p < |order| && Unrepeated(order)
    ensures Seen(order[p..]) == Seen(order[p + 1..]) + {order[p]}
    ensures order[p] !in Seen(order[p + 1..])
  {
    assert order[p..] == [order[p]] + order[p + 1..];
  }

  lemma PredecessorIsEarlier(g: Graph, order: seq<Res>, p: nat, r: Res)
    requires Topological(g, order) && p < |order| && r in g && order[p] in g[r]
    ensures exists i :: 0 <= i < p && order[i] == r
  {
    assert r in Preds(g, order[p]);
    assert r in Seen(order[..p]);
  }

  /** A resource at or after position `p` is no input of the recipe that makes `order[p]`. */
  lemma NotAnInput(resources: seq<Res>, recipes: seq<Recipe>, order: seq<Res>, p: nat, k: nat, r: Res)
    requires Covers(resources, recipes) && p < |order| && k < |recipes| && recipes[k].out == order[p]
    requires Topological(RecipeGraph(resources, recipes), order)
    requires r in order[p..]
    ensures Need(recipes[k].ins, r) == 0
  {
    var g := RecipeGraph(resources, recipes);
    var j :| 0 <= j < |order[p..]| && order[p..][j] == r;
    assert order[p + j] == r;
    if Need(recipes[k].ins, r) > 0 {
      NeedMeansEdge(recipes[k].ins, r);
      RecipeGraphEdges(resources, recipes);
      var i :| 0 <= i < |recipes[k].ins| && recipes[k].ins[i].0 == r;
      assert Edge(recipes, r, order[p]);
      PredecessorIsEarlier(g, order, p, r);
    }
  }

  /** Settling `order[p]`: no already settled output is an input of its recipe. */
  lemma SettleOne(
    resources: seq<Res>, recipes: seq<Recipe>, goal: Res, n: nat, order: seq<Res>, p: nat, k: nat,
    demand: map<Res, nat>, x: seq<nat>, f: nat, demand': map<Res, nat>)
    requires Covers(resources, recipes) && OneProducer(recipes) && p < |order|
    requires Topological(RecipeGraph(resources, recipes), order) && Seen(order) <= Seen(resources)
    requires k < |recipes| && recipes[k].out == order[p]
    requires Settled(resources, recipes, goal, n, Seen(order[p + 1..]), demand, x)
    requires order[p] in demand && f == CeilDiv(demand[order[p]], recipes[k].qty)
    requires forall r | r in resources ::
               r in demand && r in demand' && demand'[r] == demand[r] + f * Need(recipes[k].ins, r)
    ensures order[p] in resources
    ensures k < |x| && x[k] == 0 && Settled(resources, recipes, goal, n, Seen(order[p..]), demand', x[k := f])
  {
    var done, r0 := Seen(order[p + 1..]), order[p];
    LaterSplits(order, p);
    forall r
      ensures Required(recipes, x[k := f], goal, n, r) == Required(recipes, x, goal, n, r) + f * Need(recipes[k].ins, r)
    {
      ConsumedUpdate(recipes, x, k, f, r);
    }
    forall r | r in done || r == r0 ensures Need(recipes[k].ins, r) == 0 {
      assert order[p..] == [r0] + order[p + 1..];
      NotAnInput(resources, recipes, order, p, k, r);
    }
    hide *;
    SettledNext(resources, recipes, goal, n, done, r0, k, demand, x, f, demand');
  }

  /** The recipe for `r0` needs nothing that is settled, so firing it settles `r0` and unsettles nothing. */
  lemma SettledNext(
    resources: seq<Res>, recipes: seq<Recipe>, goal: Res, n: nat, done: set<Res>, r0: Res, k: nat,
    demand: map<Res, nat>, x: seq<nat>, f: nat, demand': map<Res, nat>)
    requires Covers(resources, recipes) && OneProducer(recipes)
    requires Settled(resources, recipes, goal, n, done, demand, x)
    requires k < |recipes| && recipes[k].out == r0 && r0 !in done && r0 in resources
    requires r0 in demand && f == CeilDiv(demand[r0], recipes[k].qty)
    requires forall r | r in resources ::
               r in demand && r in demand' && demand'[r] == demand[r] + f * Need(recipes[k].ins, r)
    requires forall r ::
               Required(recipes, x[k := f], goal, n, r) == Required(recipes, x, goal, n, r) + f * Need(recipes[k].ins, r)
    requires forall r | r in done || r == r0 :: Need(recipes[k].ins, r) == 0
    ensures Settled(resources, recipes, goal, n, done + {r0}, demand', x[k := f])
  {
    hide Required, CeilDiv, Need;
    var y := x[k := f];
    forall r | r in done + {r0} ensures Required(recipes, y, goal, n, r) == Required(recipes, x, goal, n, r) {
      TimesZero(f, Need(recipes[k].ins, r));
    }
    forall j | 0 <= j < |recipes| && recipes[j].out in done + {r0} && recipes[j].qty > 0
      ensures y[j] == CeilDiv(Required(recipes, y, goal, n, recipes[j].out), recipes[j].qty)
    {
      if recipes[j].out == r0 {
        assert j == k;
      } else {
        assert j != k;
      }
    }
  }

  lemma TimesZero(f: nat, z: nat)
    requires z == 0
    ensures f * z == 0
  {
  }

  /** The recipe that makes each produced resource. */
  function ProducerOf(recipes: seq<Recipe>): (producer: map<Res, nat>)
    requires OneProducer(recipes)
    ensures forall k | 0 <= k < |recipes| :: recipes[k].out in producer
    ensures forall r | r in producer :: producer[r] < |recipes| && recipes[producer[r]].out == r
  {
    map k | 0 <= k < |recipes| :: recipes[k].out := k
  }

  /**
   * Demand propagation. For an acyclic recipe graph the firing vector is balanced and the demand
   * is exactly what the firings and the goal require of each resource.
   */
  method ComputeDemand(resources: seq<Res>, recipes: seq<Recipe>, goal: Res, n: nat)
    returns (demand: map<Res, nat>, firings: map<string, nat>)
    requires Covers(resources, recipes) && Unrepeated(resources) && OneProducer(recipes) && goal in resources
    ensures forall r | r in resources ::
              r in demand && demand[r] == Required(recipes, FiringVector(recipes, firings), goal, n, r)
    ensures Acyclic(RecipeGraph(resources, recipes)) ==> Balanced(recipes, FiringVector(recipes, firings), goal, n)
  {
    hide Topological, Acyclic, Settled, RecipeGraph, FiringVector, Required, Balanced, CeilDiv, Unrepeated, ClosedGraph,
         CountsPreds, Edge, OneProducer, ProducerOf;
    var producer := ProducerOf(recipes);
    RecipeGraphEdges(resources, recipes);
    var g, indeg := BuildGraph(resources, recipes);
    var order := TopologicalOrder(resources, g, indeg);
    demand := map r | r in resources :: 0;
    demand := demand[goal := n];
    firings := map[];
    ghost var x: seq<nat> := FiringVector(recipes, firings);
    SettleNone(resources, recipes, goal, n, demand);
    var p := |order|;
    assert order[p..] == [];
    while p > 0
      invariant 0 <= p <= |order|
      invariant Settled(resources, recipes, goal, n, Seen(order[p..]), demand, x)
      invariant x == FiringVector(recipes, firings) && |x| == |recipes|
      invariant forall r | r in resources :: r in demand
    {
      p := p - 1;
      var r := order[p];
      assert r in Seen(order);
      if r in producer && demand[r] > 0 {
        var k := producer[r];
        var f := CeilDiv(demand[r], recipes[k].qty);
        CeilDivBounds(demand[r], recipes[k].qty);
        ghost var before := demand;
        demand := AddDemand(demand, recipes[k].ins, f, resources);
        SettleOne(resources, recipes, goal, n, order, p, k, before, x, f, demand);
        FiringRecorded(recipes, firings, k, f);
        firings := firings[recipes[k].name := f];
        x := x[k := f];
      } else {
        SettleIdle(resources, recipes, goal, n, order, p, demand, x);
      }
    }
    assert order[0..] == order;
    AllSettled(resources, recipes, goal, n, order, demand, x);
  }

  lemma SettleNone(resources: seq<Res>, recipes: seq<Recipe>, goal: Res, n: nat, demand: map<Res, nat>)
    requires goal in resources && demand == (map r | r in resources :: 0)[goal := n]
    ensures |FiringVector(recipes, map[])| == |recipes|
    ensures Settled(resources, recipes, goal, n, Seen([]), demand, FiringVector(recipes, map[]))
    ensures forall r | r in resources :: r in demand
  {
    var x := FiringVector(recipes, map[]);
    forall r ensures Consumed(recipes, x, r) == 0 {
      ConsumedZero(recipes, x, r);
    }
  }

  lemma FiringRecorded(recipes: seq<Recipe>, firings: map<string, nat>, k: nat, f: nat)
    requires OneProducer(recipes) && k < |recipes|
    ensures FiringVector(recipes, firings[recipes[k].name := f]) == FiringVector(recipes, firings)[k := f]
  {
  }

  lemma AllSettled(
    resources: seq<Res>, recipes: seq<Recipe>, goal: Res, n: nat, order: seq<Res>, demand: map<Res, nat>, x: seq<nat>)
    requires Covers(resources, recipes)
    requires Settled(resources, recipes, goal, n, Seen(order), demand, x)
    ensures forall r | r in resources :: r in demand && demand[r] == Required(recipes, x, goal, n, r)
    ensures Seen(order) == Seen(resources) ==> Balanced(recipes, x, goal, n)
  {
    forall k | 0 <= k < |recipes| ensures recipes[k].out in Seen(resources) {
    }
  }

  /** Adds `f` firings' worth of inputs to the demand. */
  method AddDemand(demand0: map<Res, nat>, ins: seq<(Res, nat)>, f: nat, ghost resources: seq<Res>)
    returns (demand: map<Res, nat>)
    requires forall r | r in resources :: r in demand0
    requires forall j | 0 <= j < |ins| :: ins[j].0 in resources
    ensures forall r | r in resources :: r in demand && demand[r] == demand0[r] + f * Need(ins, r)
  {
    demand := demand0;
    NothingNeeded(f);
    hide Need;
    for j := 0 to |ins|
      invariant forall r | r in resources :: r in demand && demand[r] == demand0[r] + f * Need(ins[..j], r)
    {
      var i, qy := ins[j].0, ins[j].1;
      forall r {
        NeedNext(ins, j, f, r);
      }
      demand := demand[i := demand[i] + f * qy];
    }
    assert ins[..|ins|] == ins;
  }

  lemma NothingNeeded(f: nat)
    ensures forall r :: f * Need([], r) == 0
  {
  }

  lemma NeedNext(ins: seq<(Res, nat)>, j: nat, f: nat, r: Res)
    requires j < |ins|
    ensures f * Need(ins[..j + 1], r) == f * Need(ins[..j], r) + if ins[j].0 == r then f * ins[j].1 else 0
  {
    assert ins[..j + 1] == ins[..j] + [ins[j]];
    NeedSnoc(ins[..j], ins[j], r);
    hide Need;
    Distribute(f, Need(ins[..j], r), ins[j].1);
  }

  lemma Distribute(f: nat, a: nat, b: nat)
    ensures f * (a + b) == f * a + f * b
  {
  }

  /** An unproduced or undemanded resource settles with no firing. */
  lemma SettleIdle(
    resources: seq<Res>, recipes: seq<Recipe>, goal: Res, n: nat, order: seq<Res>, p: nat, demand: map<Res, nat>,
    x: seq<nat>)
    requires Covers(resources, recipes) && p < |order| && Topological(RecipeGraph(resources, recipes), order)
    requires Settled(resources, recipes, goal, n, Seen(order[p + 1..]), demand, x)
    requires (forall k | 0 <= k < |recipes| :: recipes[k].out != order[p])
             || (order[p] in resources && order[p] in demand && demand[order[p]] == 0)
    ensures Settled(resources, recipes, goal, n, Seen(order[p..]), demand, x)
  {
    LaterSplits(order, p);
    forall k | 0 <= k < |recipes| && recipes[k].out == order[p]
      ensures x[k] == CeilDiv(Required(recipes, x, goal, n, recipes[k].out), recipes[k].qty)
    {
      CeilDivBounds(0, recipes[k].qty);
    }
  }
}
