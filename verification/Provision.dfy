// Why the propagated demand is right: least firings, and a run that never overdraws a stock.
module Provision {
  import opened Prelude
  import opened TopoSort
  import opened Demand

  // ---- the firing vector is the least feasible one ----

  /** Firing a balanced vector makes enough of everything that is made. */
  lemma BalancedIsFeasible(resources: seq<Res>, recipes: seq<Recipe>, x: seq<nat>, goal: Res, n: nat)
    requires Covers(resources, recipes) && Balanced(recipes, x, goal, n)
    ensures Feasible(recipes, x, goal, n)
  {
    forall k | 0 <= k < |recipes| ensures x[k] * recipes[k].qty >= Required(recipes, x, goal, n, recipes[k].out) {
      CeilDivBounds(Required(recipes, x, goal, n, recipes[k].out), recipes[k].qty);
    }
  }

  lemma {:induction false} RankBound(rank: map<Res, nat>, names: set<Res>) returns (bound: nat)
    requires names <= rank.Keys
    ensures forall r | r in names :: rank[r] <= bound
  {
    if names == {} {
      bound := 0;
    } else {
      var r :| r in names;
      var b := RankBound(rank, names - {r});
      bound := if rank[r] > b then rank[r] else b;
    }
  }

  /** No feasible vector fires any recipe less often: by induction from the goal side of the graph. */
  lemma {:induction false} FiredAtMost(
    resources: seq<Res>, recipes: seq<Recipe>, goal: Res, n: nat, x: seq<nat>, y: seq<nat>, rank: map<Res, nat>,
    bound: nat, k: nat)
    requires Covers(resources, recipes) && Balanced(recipes, x, goal, n) && Feasible(recipes, y, goal, n)
    requires Ranked(RecipeGraph(resources, recipes), rank) && forall r | r in rank :: rank[r] <= bound
    requires k < |recipes| && recipes[k].out in rank
    ensures x[k] <= y[k]
    decreases bound - rank[recipes[k].out]
  {
    var out := recipes[k].out;
    RecipeGraphEdges(resources, recipes);
    forall j | 0 <= j < |recipes| && Need(recipes[j].ins, out) > 0 ensures x[j] <= y[j] {
      NeedMeansEdge(recipes[j].ins, out);
      assert Edge(recipes, out, recipes[j].out);
      assert recipes[j].out in Seen(resources);
      FiredAtMost(resources, recipes, goal, n, x, y, rank, bound, j);
    }
    ConsumedMonotone(recipes, x, y, out);
    CeilDivBounds(Required(recipes, x, goal, n, out), recipes[k].qty);
    assert y[k] * recipes[k].qty >= Required(recipes, x, goal, n, out);
  }

  /**
   * For an acyclic recipe graph the computed firings form the pointwise least vector that makes
   * `n` of the goal, and the computed demand for any resource is the least consumption.
   */
  lemma FiringsAreLeast(
    resources: seq<Res>, recipes: seq<Recipe>, goal: Res, n: nat, x: seq<nat>, y: seq<nat>)
    requires Covers(resources, recipes) && Acyclic(RecipeGraph(resources, recipes))
    requires Balanced(recipes, x, goal, n)
    ensures Feasible(recipes, x, goal, n)
    ensures Feasible(recipes, y, goal, n) ==> forall k | 0 <= k < |recipes| :: x[k] <= y[k]
    ensures Feasible(recipes, y, goal, n) ==>
              forall r :: Required(recipes, x, goal, n, r) <= Required(recipes, y, goal, n, r)
  {
    BalancedIsFeasible(resources, recipes, x, goal, n);
    if Feasible(recipes, y, goal, n) {
      var g := RecipeGraph(resources, recipes);
      RecipeGraphEdges(resources, recipes);
      var rank :| Ranked(g, rank);
      var bound := RankBound(rank, rank.Keys);
      forall k | 0 <= k < |recipes| ensures x[k] <= y[k] {
        assert recipes[k].out in Seen(resources);
        FiredAtMost(resources, recipes, goal, n, x, y, rank, bound, k);
      }
      forall r ensures Required(recipes, x, goal, n, r) <= Required(recipes, y, goal, n, r) {
        ConsumedMonotone(recipes, x, y, r);
      }
    }
  }

  // ---- what the goal needs ----

  /** With something made, the set has every input of which its recipe takes a positive quantity. */
  ghost predicate ClosedUnderNeeds(recipes: seq<Recipe>, s: set<Res>) {
    forall k, r | 0 <= k < |recipes| && recipes[k].out in s && Need(recipes[k].ins, r) > 0 :: r in s
  }

  /** The goal needs `r`, directly or through other recipes. */
  ghost predicate Needed(recipes: seq<Recipe>, goal: Res, r: Res) {
    forall s: set<Res> | goal in s && ClosedUnderNeeds(recipes, s) :: r in s
  }

  lemma {:induction false} ConsumedPart(recipes: seq<Recipe>, x: seq<nat>, k: nat, r: Res)
    requires |x| == |recipes| && k < |recipes|
    ensures Consumed(recipes, x, r) >= x[k] * Need(recipes[k].ins, r)
  {
    if k > 0 {
      ConsumedPart(recipes[1..], x[1..], k - 1, r);
    }
  }

  lemma {:induction false} Consumer(recipes: seq<Recipe>, x: seq<nat>, r: Res) returns (k: nat)
    requires |x| == |recipes| && Consumed(recipes, x, r) > 0
    ensures k < |recipes| && x[k] > 0 && Need(recipes[k].ins, r) > 0
  {
    if x[0] * Need(recipes[0].ins, r) > 0 {
      k := 0;
    } else {
      var j := Consumer(recipes[1..], x[1..], r);
      k := j + 1;
    }
  }

  lemma NeedIsCovered(resources: seq<Res>, recipes: seq<Recipe>, k: nat, r: Res)
    requires Covers(resources, recipes) && k < |recipes| && Need(recipes[k].ins, r) > 0
    ensures r in resources
  {
    NeedMeansEdge(recipes[k].ins, r);
  }

  /** A recipe is fired exactly when something is asked of its output. */
  lemma FiredIffRequired(resources: seq<Res>, recipes: seq<Recipe>, x: seq<nat>, goal: Res, n: nat, k: nat)
    requires Covers(resources, recipes) && Balanced(recipes, x, goal, n) && k < |recipes|
    ensures x[k] > 0 <==> Required(recipes, x, goal, n, recipes[k].out) > 0
  {
    CeilDivBounds(Required(recipes, x, goal, n, recipes[k].out), recipes[k].qty);
  }

  lemma Positive(a: nat, b: nat)
    requires a > 0 && b > 0
    ensures a * b > 0
  {
  }

  lemma NeededIsRequired(resources: seq<Res>, recipes: seq<Recipe>, x: seq<nat>, goal: Res, n: nat, r: Res)
    requires Covers(resources, recipes) && Balanced(recipes, x, goal, n) && goal in resources && n > 0
    requires Needed(recipes, goal, r)
    ensures Required(recipes, x, goal, n, r) > 0 && r in resources
  {
    var s := set y | y in resources && Required(recipes, x, goal, n, y) > 0;
    forall k, y | 0 <= k < |recipes| && recipes[k].out in s && Need(recipes[k].ins, y) > 0 ensures y in s {
      NeedIsCovered(resources, recipes, k, y);
      FiredIffRequired(resources, recipes, x, goal, n, k);
      ConsumedPart(recipes, x, k, y);
      Positive(x[k], Need(recipes[k].ins, y));
    }
    assert goal in s && ClosedUnderNeeds(recipes, s);
    assert r in s;
  }

  lemma {:induction false} RequiredIsNeeded(
    resources: seq<Res>, recipes: seq<Recipe>, x: seq<nat>, goal: Res, n: nat, rank: map<Res, nat>, bound: nat, r: Res)
    requires Covers(resources, recipes) && Balanced(recipes, x, goal, n)
    requires Ranked(RecipeGraph(resources, recipes), rank) && forall y | y in rank :: rank[y] <= bound
    requires r in resources && r in rank && Required(recipes, x, goal, n, r) > 0
    ensures n > 0 && Needed(recipes, goal, r)
    decreases bound - rank[r]
  {
    if Consumed(recipes, x, r) > 0 {
      var k := Consumer(recipes, x, r);
      var out := recipes[k].out;
      NeedMeansEdge(recipes[k].ins, r);
      RecipeGraphEdges(resources, recipes);
      assert Edge(recipes, r, out);
      assert out in Seen(resources);
      FiredIffRequired(resources, recipes, x, goal, n, k);
      RequiredIsNeeded(resources, recipes, x, goal, n, rank, bound, out);
      forall s: set<Res> | goal in s && ClosedUnderNeeds(recipes, s) ensures r in s {
        assert out in s;
      }
    }
  }

  /** The computed demand for a resource is positive exactly when the goal needs it. */
  lemma DemandedIffNeeded(
    resources: seq<Res>, recipes: seq<Recipe>, x: seq<nat>, goal: Res, n: nat, r: Res)
    requires Covers(resources, recipes) && Acyclic(RecipeGraph(resources, recipes))
    requires Balanced(recipes, x, goal, n) && goal in resources
    ensures r in resources && Required(recipes, x, goal, n, r) > 0 <==> n > 0 && Needed(recipes, goal, r)
  {
    if n > 0 && Needed(recipes, goal, r) {
      NeededIsRequired(resources, recipes, x, goal, n, r);
    }
    if r in resources && Required(recipes, x, goal, n, r) > 0 {
      var rank :| Ranked(RecipeGraph(resources, recipes), rank);
      var bound := RankBound(rank, rank.Keys);
      RecipeGraphEdges(resources, recipes);
      assert r in Seen(resources);
      RequiredIsNeeded(resources, recipes, x, goal, n, rank, bound, r);
    }
  }

  // ---- raw stock ----

  /** Demanded raws start with exactly their demand, other raws with a small floor, the rest with none. */
  function RawInit(resources: seq<Res>, demand: map<Res, nat>, raws: set<Res>): map<Res, nat>
    requires forall r | r in resources :: r in demand
  {
    map r | r in resources :: if r in raws then (if demand[r] > 0 then demand[r] else 4) else 0
  }

  /** What is left of `r` after firing the recipes `x` times. */
  function Stock(recipes: seq<Recipe>, init: map<Res, nat>, x: seq<nat>, r: Res): int
    requires |x| == |recipes| && r in init
  {
    init[r] + Produced(recipes, x, r) - Consumed(recipes, x, r)
  }

  predicate IsProduced(recipes: seq<Recipe>, r: Res) {
    exists k :: 0 <= k < |recipes| && recipes[k].out == r
  }

  /** If any of the goal is wanted, every resource it needs that no recipe makes is a raw. */
  ghost predicate Supplied(recipes: seq<Recipe>, goal: Res, n: nat, raws: set<Res>) {
    n > 0 ==> forall r | Needed(recipes, goal, r) && !IsProduced(recipes, r) :: r in raws
  }

  /** Part of the firings done, inputs first: a recipe fires only when all makers of its inputs are finished. */
  ghost predicate InputsFirst(recipes: seq<Recipe>, full: seq<nat>, x: seq<nat>) {
    && |x| == |recipes| == |full|
    && (forall k | 0 <= k < |x| :: x[k] <= full[k])
    && forall k, j | 0 <= k < |x| && 0 <= j < |x| && x[k] > 0 && Need(recipes[k].ins, recipes[j].out) > 0 ::
         x[j] == full[j]
  }

  lemma {:induction false} ProducedBy(recipes: seq<Recipe>, x: seq<nat>, k: nat)
    requires |x| == |recipes| && k < |x|
    ensures Produced(recipes, x, recipes[k].out) >= x[k] * recipes[k].qty
  {
    if k > 0 {
      ProducedBy(recipes[1..], x[1..], k - 1);
    }
  }

  lemma {:induction false} ProducedNothing(recipes: seq<Recipe>, x: seq<nat>, r: Res)
    requires |x| == |recipes| && !IsProduced(recipes, r)
    ensures Produced(recipes, x, r) == 0
  {
    if recipes != [] {
      assert recipes[0].out != r;
      forall k | 0 <= k < |recipes[1..]| ensures recipes[1..][k].out != r {
        assert recipes[k + 1].out != r;
      }
      ProducedNothing(recipes[1..], x[1..], r);
    }
  }

  /**
   * At every stage of an inputs-first run a stock is non-negative exactly when the resource is made or
   * raw, or has not been consumed.
   */
  lemma StockNeverNegative(
    resources: seq<Res>, recipes: seq<Recipe>, goal: Res, n: nat, demand: map<Res, nat>, full: seq<nat>,
    raws: set<Res>, x: seq<nat>, r: Res)
    requires Covers(resources, recipes) && Balanced(recipes, full, goal, n)
    requires forall s | s in resources :: s in demand && demand[s] == Required(recipes, full, goal, n, s)
    requires InputsFirst(recipes, full, x) && r in resources
    ensures Stock(recipes, RawInit(resources, demand, raws), x, r) >= 0
       <==> IsProduced(recipes, r) || r in raws || Consumed(recipes, x, r) == 0
  {
    ConsumedMonotone(recipes, x, full, r);
    if k :| 0 <= k < |recipes| && recipes[k].out == r {
      BalancedIsFeasible(resources, recipes, full, goal, n);
      ProducedBy(recipes, x, k);
      if x[k] != full[k] {
        ConsumedZero(recipes, x, r);
      }
    } else {
      ProducedNothing(recipes, x, r);
    }
  }

  /** At the end of the run, the goal's stock. */
  lemma GoalStock(
    resources: seq<Res>, recipes: seq<Recipe>, goal: Res, n: nat, demand: map<Res, nat>, full: seq<nat>, raws: set<Res>)
    requires Covers(resources, recipes) && Balanced(recipes, full, goal, n) && goal in resources
    requires forall s | s in resources :: s in demand && demand[s] == Required(recipes, full, goal, n, s)
    ensures Stock(recipes, RawInit(resources, demand, raws), full, goal) >= n
       <==> IsProduced(recipes, goal) || goal in raws || demand[goal] == 0
  {
    if k :| 0 <= k < |recipes| && recipes[k].out == goal {
      BalancedIsFeasible(resources, recipes, full, goal, n);
      ProducedBy(recipes, full, k);
    } else {
      ProducedNothing(recipes, full, goal);
    }
  }

  /**
   * Firing everything from the raw stock leaves every stock non-negative and `n` of the goal
   * exactly when each resource that the goal needs and no recipe makes is a raw.
   */
  lemma ProvisionSufficesIff(
    resources: seq<Res>, recipes: seq<Recipe>, goal: Res, n: nat, demand: map<Res, nat>, full: seq<nat>, raws: set<Res>)
    requires Covers(resources, recipes) && Acyclic(RecipeGraph(resources, recipes))
    requires Balanced(recipes, full, goal, n) && goal in resources
    requires forall s | s in resources :: s in demand && demand[s] == Required(recipes, full, goal, n, s)
    ensures Supplied(recipes, goal, n, raws) <==>
              && (forall r | r in resources :: Stock(recipes, RawInit(resources, demand, raws), full, r) >= 0)
              && Stock(recipes, RawInit(resources, demand, raws), full, goal) >= n
  {
    var init := RawInit(resources, demand, raws);
    GoalStock(resources, recipes, goal, n, demand, full, raws);
    forall r
      ensures r in resources && demand[r] > 0 <==> n > 0 && Needed(recipes, goal, r)
      ensures r in resources ==>
                (Stock(recipes, init, full, r) >= 0 <==> IsProduced(recipes, r) || r in raws || Consumed(recipes, full, r) == 0)
    {
      DemandedIffNeeded(resources, recipes, full, goal, n, r);
      if r in resources {
        StockNeverNegative(resources, recipes, goal, n, demand, full, raws, full, r);
      }
    }
    hide Needed, IsProduced, Stock, Balanced, RecipeGraph, RawInit, Covers;
    if !Supplied(recipes, goal, n, raws) {
      var r :| Needed(recipes, goal, r) && !IsProduced(recipes, r) && r !in raws;
      assert demand[r] > 0;
    }
  }

  /**
   * The raw stock is tight: a demanded raw gets no more than any feasible vector consumes of it, and
   * a raw that nothing demands still gets some, so its recipes can start.
   */
  lemma RawStockIsTight(
    resources: seq<Res>, recipes: seq<Recipe>, goal: Res, n: nat, demand: map<Res, nat>, full: seq<nat>,
    raws: set<Res>, y: seq<nat>, r: Res)
    requires Covers(resources, recipes) && Acyclic(RecipeGraph(resources, recipes)) && Balanced(recipes, full, goal, n)
    requires forall s | s in resources :: s in demand && demand[s] == Required(recipes, full, goal, n, s)
    requires Feasible(recipes, y, goal, n) && r in raws && r in resources
    ensures var init := RawInit(resources, demand, raws);
            && init[r] > 0
            && (demand[r] > 0 ==> init[r] == demand[r] <= Required(recipes, y, goal, n, r))
  {
    FiringsAreLeast(resources, recipes, goal, n, full, y);
  }

  /**
   * When everything has fired, of a resource that no recipe makes the wanted goal is left, four if it is a
   * raw that the goal does not need, and otherwise nothing; what is not a raw is short by all that was used.
   */
  lemma LeftAtTheEnd(
    resources: seq<Res>, recipes: seq<Recipe>, goal: Res, n: nat, demand: map<Res, nat>, full: seq<nat>,
    raws: set<Res>, r: Res)
    requires Covers(resources, recipes) && Acyclic(RecipeGraph(resources, recipes)) && Balanced(recipes, full, goal, n)
    requires forall s | s in resources :: s in demand && demand[s] == Required(recipes, full, goal, n, s)
    requires goal in resources && r in resources && !IsProduced(recipes, r)
    ensures Stock(recipes, RawInit(resources, demand, raws), full, r) ==
              if r !in raws then 0 - Consumed(recipes, full, r)
              else if n == 0 || !Needed(recipes, goal, r) then 4
              else if r == goal then n else 0
  {
    ProducedNothing(recipes, full, r);
    DemandedIffNeeded(resources, recipes, full, goal, n, r);
  }

  // ---- the topological schedule ----

  /** Every recipe's firings, in the order of the outputs. */
  function Schedule(recipes: seq<Recipe>, full: seq<nat>, order: seq<Res>): seq<nat>
    requires OneProducer(recipes) && |full| == |recipes|
  {
    if order == [] then []
    else
      var t := |order| - 1;
      Schedule(recipes, full, order[..t]) + Batch(recipes, full, order[t])
  }

  /** All firings of the recipe that makes `r`, if there is one. */
  function Batch(recipes: seq<Recipe>, full: seq<nat>, r: Res): seq<nat>
    requires OneProducer(recipes) && |full| == |recipes|
  {
    var producer := ProducerOf(recipes);
    if r in producer then seq(full[producer[r]], _ => producer[r]) else []
  }

  /** How often each recipe occurs in a schedule. */
  function Counts(size: nat, sched: seq<nat>): seq<nat> {
    seq(size, k => multiset(sched)[k])
  }

  lemma {:induction false} ConstantCount(k: nat, c: nat, i: nat)
    ensures multiset(seq(c, _ => k))[i] == if i == k then c else 0
  {
    if c > 0 {
      assert seq(c, _ => k) == seq(c - 1, _ => k) + [k];
      ConstantCount(k, c - 1, i);
    }
  }

  lemma BatchCount(recipes: seq<Recipe>, full: seq<nat>, r: Res, c: nat, k: nat)
    requires OneProducer(recipes) && |full| == |recipes| && k < |recipes|
    requires c <= |Batch(recipes, full, r)|
    ensures multiset(Batch(recipes, full, r)[..c])[k] == if recipes[k].out == r then c else 0
    ensures recipes[k].out == r ==> |Batch(recipes, full, r)| == full[k]
  {
    var producer := ProducerOf(recipes);
    if r in producer {
      assert Batch(recipes, full, r)[..c] == seq(c, _ => producer[r]);
      ConstantCount(producer[r], c, k);
    }
  }

  lemma {:induction false} ScheduleCount(recipes: seq<Recipe>, full: seq<nat>, order: seq<Res>, k: nat)
    requires OneProducer(recipes) && |full| == |recipes| && k < |recipes| && Unrepeated(order)
    ensures multiset(Schedule(recipes, full, order))[k] == if recipes[k].out in order then full[k] else 0
  {
    if order != [] {
      hide Batch, OneProducer;
      var t := |order| - 1;
      var batch := Batch(recipes, full, order[t]);
      ScheduleCount(recipes, full, order[..t], k);
      BatchCount(recipes, full, order[t], |batch|, k);
      assert batch[..|batch|] == batch;
      InFrontOrLast(order, recipes[k].out);
      CountConcat(Schedule(recipes, full, order[..t]), batch, k);
    }
  }

  lemma CountConcat(a: seq<nat>, b: seq<nat>, k: nat)
    ensures multiset(a + b)[k] == multiset(a)[k] + multiset(b)[k]
  {
  }

  lemma InFrontOrLast(order: seq<Res>, r: Res)
    requires order != [] && Unrepeated(order)
    ensures var t := |order| - 1;
            (r in order <==> r in order[..t] || r == order[t]) && order[t] !in order[..t] && Unrepeated(order[..t])
  {
    var t := |order| - 1;
    assert order == order[..t] + [order[t]];
  }

  lemma TopologicalPrefix(g: Graph, order: seq<Res>, t: nat)
    requires Topological(g, order) && t <= |order|
    ensures Topological(g, order[..t])
  {
    forall i | 0 <= i < t ensures Preds(g, order[..t][i]) <= Seen(order[..t][..i]) {
      assert order[..t][..i] == order[..i];
    }
  }

  /** Every prefix of the topological schedule fires inputs first. */
  lemma {:induction false} SchedulePrefixInputsFirst(
    resources: seq<Res>, recipes: seq<Recipe>, full: seq<nat>, order: seq<Res>, p: nat)
    requires Covers(resources, recipes) && OneProducer(recipes) && |full| == |recipes|
    requires Topological(RecipeGraph(resources, recipes), order) && p <= |Schedule(recipes, full, order)|
    ensures InputsFirst(recipes, full, Counts(|recipes|, Schedule(recipes, full, order)[..p]))
  {
    hide InputsFirst, Batch, Topological, Covers, RecipeGraph, OneProducer;
    if order == [] {
      NothingFired(recipes, full);
      assert Schedule(recipes, full, order)[..p] == [];
    } else {
      var t := |order| - 1;
      var front, batch := Schedule(recipes, full, order[..t]), Batch(recipes, full, order[t]);
      if p <= |front| {
        TopologicalPrefix(RecipeGraph(resources, recipes), order, t);
        SchedulePrefixInputsFirst(resources, recipes, full, order[..t], p);
        assert (front + batch)[..p] == front[..p];
      } else {
        var c := p - |front|;
        assert (front + batch)[..p] == front + batch[..c];
        forall k | 0 <= k < |recipes| {
          LastBatchCount(resources, recipes, full, order, c, k);
        }
        StageInputsFirst(resources, recipes, full, order, c, Counts(|recipes|, front + batch[..c]));
      }
    }
  }

  lemma NothingFired(recipes: seq<Recipe>, full: seq<nat>)
    requires |full| == |recipes|
    ensures InputsFirst(recipes, full, Counts(|recipes|, []))
  {
    assert forall k | 0 <= k < |recipes| :: Counts(|recipes|, [])[k] == 0;
  }

  /** Everything before the last resource finished, its own recipe fired `c` times: inputs came first. */
  lemma StageInputsFirst(
    resources: seq<Res>, recipes: seq<Recipe>, full: seq<nat>, order: seq<Res>, c: nat, x: seq<nat>)
    requires Covers(resources, recipes) && |full| == |recipes| == |x| && order != []
    requires Topological(RecipeGraph(resources, recipes), order)
    requires forall k | 0 <= k < |recipes| ::
               x[k] == StageCount(recipes, full, order, c, k)
               && (recipes[k].out == order[|order| - 1] ==> c <= full[k])
    ensures InputsFirst(recipes, full, x)
  {
    var t := |order| - 1;
    LastIsNew(RecipeGraph(resources, recipes), order);
    assert forall r | r in order :: r in order[..t] || r == order[t] by {
      assert order == order[..t] + [order[t]];
    }
    hide Topological, RecipeGraph, Covers, Need;
    forall k, j | 0 <= k < |x| && 0 <= j < |x| && x[k] > 0 && Need(recipes[k].ins, recipes[j].out) > 0
      ensures x[j] == full[j]
    {
      assert recipes[k].out in order;
      EarlierInput(resources, recipes, order, k, j);
    }
  }

  ghost function StageCount(recipes: seq<Recipe>, full: seq<nat>, order: seq<Res>, c: nat, k: nat): nat
    requires |full| == |recipes| && order != [] && k < |recipes|
  {
    var t := |order| - 1;
    (if recipes[k].out in order[..t] then full[k] else 0) + (if recipes[k].out == order[t] then c else 0)
  }

  lemma LastIsNew(g: Graph, order: seq<Res>)
    requires order != [] && Topological(g, order)
    ensures order[|order| - 1] !in order[..|order| - 1]
  {
  }

  lemma LastBatchCount(
    resources: seq<Res>, recipes: seq<Recipe>, full: seq<nat>, order: seq<Res>, c: nat, k: nat)
    requires OneProducer(recipes) && |full| == |recipes| && order != [] && k < |recipes|
    requires Topological(RecipeGraph(resources, recipes), order)
    requires c <= |Batch(recipes, full, order[|order| - 1])|
    ensures var t := |order| - 1;
            Counts(|recipes|, Schedule(recipes, full, order[..t]) + Batch(recipes, full, order[t])[..c])[k]
              == StageCount(recipes, full, order, c, k)
    ensures recipes[k].out == order[|order| - 1] ==> c <= full[k]
  {
    var t := |order| - 1;
    ScheduleCount(recipes, full, order[..t], k);
    BatchCount(recipes, full, order[t], c, k);
  }

  /** An input of something ordered is ordered strictly before it, so not last. */
  lemma EarlierInput(resources: seq<Res>, recipes: seq<Recipe>, order: seq<Res>, k: nat, j: nat)
    requires Covers(resources, recipes) && order != [] && Topological(RecipeGraph(resources, recipes), order)
    requires k < |recipes| && j < |recipes| && recipes[k].out in order && Need(recipes[k].ins, recipes[j].out) > 0
    ensures recipes[j].out in order[..|order| - 1] && recipes[j].out != order[|order| - 1]
  {
    var p :| 0 <= p < |order| && order[p] == recipes[k].out;
    NeedMeansEdge(recipes[k].ins, recipes[j].out);
    RecipeGraphEdges(resources, recipes);
    assert recipes[j].out in Seen(resources);
    assert Edge(recipes, recipes[j].out, order[p]);
    PredecessorIsEarlier(RecipeGraph(resources, recipes), order, p, recipes[j].out);
  }

  lemma ScheduleFiresAll(resources: seq<Res>, recipes: seq<Recipe>, full: seq<nat>, order: seq<Res>)
    requires Covers(resources, recipes) && OneProducer(recipes) && |full| == |recipes|
    requires Topological(RecipeGraph(resources, recipes), order) && Seen(order) == Seen(resources)
    ensures Counts(|recipes|, Schedule(recipes, full, order)) == full
  {
    var sched := Schedule(recipes, full, order);
    forall k | 0 <= k < |recipes| ensures Counts(|recipes|, sched)[k] == full[k] {
      assert recipes[k].out in Seen(order);
      ScheduleCount(recipes, full, order, k);
    }
  }

  /** After some of the scheduled firings no stock is negative. */
  ghost predicate NothingOverdrawn(
    resources: seq<Res>, recipes: seq<Recipe>, init: map<Res, nat>, fired: seq<nat>)
    requires forall r | r in resources :: r in init
  {
    forall r | r in resources :: Stock(recipes, init, Counts(|recipes|, fired), r) >= 0
  }

  /**
   * Firing in topological order from the raw stock fires every recipe its full count. After every
   * single firing no stock is negative, and at the end `n` of the goal are left, exactly when each
   * resource that the goal needs and no recipe makes is a raw.
   */
  lemma TopologicalRunNeverOverdraws(
    resources: seq<Res>, recipes: seq<Recipe>, goal: Res, n: nat, demand: map<Res, nat>, full: seq<nat>,
    raws: set<Res>, order: seq<Res>)
    requires Covers(resources, recipes) && OneProducer(recipes) && Balanced(recipes, full, goal, n) && goal in resources
    requires forall s | s in resources :: s in demand && demand[s] == Required(recipes, full, goal, n, s)
    requires Topological(RecipeGraph(resources, recipes), order) && Seen(order) == Seen(resources)
    requires Acyclic(RecipeGraph(resources, recipes))
    ensures var sched, init := Schedule(recipes, full, order), RawInit(resources, demand, raws);
            && Counts(|recipes|, sched) == full
            && (Supplied(recipes, goal, n, raws) <==>
                  && (forall p | 0 <= p <= |sched| :: NothingOverdrawn(resources, recipes, init, sched[..p]))
                  && Stock(recipes, init, full, goal) >= n)
  {
    var sched, init := Schedule(recipes, full, order), RawInit(resources, demand, raws);
    ScheduleFiresAll(resources, recipes, full, order);
    ProvisionSufficesIff(resources, recipes, goal, n, demand, full, raws);
    assert sched[..|sched|] == sched;
    if Supplied(recipes, goal, n, raws) {
      forall p | 0 <= p <= |sched| ensures NothingOverdrawn(resources, recipes, init, sched[..p]) {
        SchedulePrefixInputsFirst(resources, recipes, full, order, p);
        NeverOverdrawn(resources, recipes, goal, n, demand, full, raws, sched[..p]);
      }
    }
  }

  lemma NeverOverdrawn(
    resources: seq<Res>, recipes: seq<Recipe>, goal: Res, n: nat, demand: map<Res, nat>, full: seq<nat>,
    raws: set<Res>, fired: seq<nat>)
    requires Covers(resources, recipes) && Acyclic(RecipeGraph(resources, recipes))
    requires Balanced(recipes, full, goal, n) && goal in resources && Supplied(recipes, goal, n, raws)
    requires forall s | s in resources :: s in demand && demand[s] == Required(recipes, full, goal, n, s)
    requires InputsFirst(recipes, full, Counts(|recipes|, fired))
    ensures NothingOverdrawn(resources, recipes, RawInit(resources, demand, raws), fired)
  {
    var x := Counts(|recipes|, fired);
    forall r | r in resources ensures Stock(recipes, RawInit(resources, demand, raws), x, r) >= 0 {
      StockNeverNegative(resources, recipes, goal, n, demand, full, raws, x, r);
      DemandedIffNeeded(resources, recipes, full, goal, n, r);
      ConsumedMonotone(recipes, x, full, r);
    }
  }
}
