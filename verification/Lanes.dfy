// Greedy lane packing for the timeline: each step goes to the first lane that is free when it starts.
module Lanes {
  import opened Prelude

  datatype PlanStep = PlanStep(time: Option<real>, duration: Option<real>)

  datatype Interval = Interval(start: real, end: real)

  const TOLERANCE: real := 0.000001

  function OrZero(o: Option<real>): real {
    match o
    case None => 0.0
    case Some(x) => x
  }

  /** A step without a time starts at 0. */
  function StartOf(s: PlanStep): real {
    OrZero(s.time)
  }

  /** A step without a duration is over when it starts. */
  function Length(s: PlanStep): real {
    OrZero(s.duration)
  }

  function IntervalOf(s: PlanStep): Interval {
    Interval(OrZero(s.time), OrZero(s.time) + OrZero(s.duration))
  }

  // ---- the order of placement ----

  function Start(steps: seq<PlanStep>, a: nat): real
    requires a < |steps|
  {
    StartOf(steps[a])
  }

  /** `a` is placed before `b`: it starts earlier, or at the same time and comes first in the plan. */
  predicate Before(steps: seq<PlanStep>, a: nat, b: nat)
    requires a < |steps| && b < |steps|
  {
    Start(steps, a) < Start(steps, b) || (Start(steps, a) == Start(steps, b) && a < b)
  }

  ghost predicate InRange(steps: seq<PlanStep>, order: seq<nat>) {
    forall i | 0 <= i < |order| :: order[i] < |steps|
  }

  function Indices(n: nat): seq<nat> {
    seq(n, i => i)
  }

  /** Every step once, by start time, ties in plan order. */
  ghost predicate PlacementOrder(steps: seq<PlanStep>, order: seq<nat>) {
    && multiset(order) == multiset(Indices(|steps|))
    && InRange(steps, order)
    && forall i, j | 0 <= i < j < |order| :: Before(steps, order[i], order[j])
  }

  lemma IndicesInRange(steps: seq<PlanStep>, order: seq<nat>)
    requires multiset(order) == multiset(Indices(|steps|))
    ensures |order| == |steps| && InRange(steps, order)
  {
    assert |multiset(order)| == |multiset(Indices(|steps|))|;
    forall i | 0 <= i < |order| ensures order[i] < |steps| {
      assert order[i] in multiset(order);
      assert order[i] in Indices(|steps|);
    }
  }

  ghost predicate SortedUpTo(steps: seq<PlanStep>, order: seq<nat>, i: nat) {
    && i <= |order|
    && (forall k | 0 <= k < i :: order[k] < i && order[k] < |steps|)
    && forall k, m | 0 <= k < m < i :: Before(steps, order[k], order[m])
  }

  /** `was` with the entry at `i` moved forwards to `j`. */
  function Moved(was: seq<nat>, i: nat, j: nat): seq<nat>
    requires j <= i < |was|
  {
    was[..j] + [was[i]] + was[j..i] + was[i + 1..]
  }

  lemma MovedAt(was: seq<nat>, i: nat, j: nat)
    requires j <= i < |was|
    ensures var now := Moved(was, i, j);
            && |now| == |was| && now[j] == was[i]
            && (forall k | 0 <= k < j || i < k < |was| :: now[k] == was[k])
            && (forall k | j < k <= i :: now[k] == was[k - 1])
            && multiset(now) == multiset(was)
  {
    assert was == was[..j] + was[j..i] + [was[i]] + was[i + 1..];
  }

  lemma SwapMoves(was: seq<nat>, i: nat, j: nat)
    requires 0 < j <= i < |was|
    ensures var s := Moved(was, i, j);
            && |s| == |was| && s[j - 1] == was[j - 1] && s[j] == was[i] && (j > 1 ==> s[j - 2] == was[j - 2])
            && Moved(was, i, j - 1) == s[j := s[j - 1]][j - 1 := s[j]]
  {
    MovedAt(was, i, j);
    MovedAt(was, i, j - 1);
  }

  /** Moving the step at `i` forwards past exactly the steps that start after it keeps the order. */
  lemma MoveKeepsOrder(steps: seq<PlanStep>, was: seq<nat>, i: nat, j: nat)
    requires j <= i < |was| == |steps| && was[i] == i && SortedUpTo(steps, was, i)
    requires forall k | j <= k < i :: Start(steps, i) < Start(steps, was[k])
    requires j > 0 ==> Start(steps, was[j - 1]) <= Start(steps, i)
    ensures SortedUpTo(steps, Moved(was, i, j), i + 1)
  {
    var now := Moved(was, i, j);
    MovedAt(was, i, j);
    forall k, m | 0 <= k < m < i + 1 ensures now[k] <= i && now[m] <= i && Before(steps, now[k], now[m]) {
      var k', m' := if k > j then k - 1 else k, if m > j then m - 1 else m;
      assert k' < m' < i ==> Before(steps, was[k'], was[m']);
      if m == j && k < j - 1 {
        assert Before(steps, was[k], was[j - 1]);
      }
    }
    assert i == 0 ==> now[0] == 0;
  }

  lemma SortedInRange(steps: seq<PlanStep>, order: seq<nat>, i: nat)
    requires SortedUpTo(steps, order, i)
    ensures i <= |order| && InRange(steps, order[..i])
  {
  }

  /** Swaps the step at position `i` forwards past every earlier placed step that starts after it. */
  method Sink(steps: seq<PlanStep>, order: array<nat>, i: nat)
    requires i < order.Length == |steps| && order[i] == i && SortedUpTo(steps, order[..], i)
    modifies order
    ensures multiset(order[..]) == multiset(old(order[..]))
    ensures forall k | i < k < order.Length :: order[k] == old(order[k])
    ensures SortedUpTo(steps, order[..], i + 1)
  {
    hide Before, Start, SortedUpTo, Moved;
    ghost var was := order[..];
    assert InRange(steps, was[..i]) by {
      SortedInRange(steps, was, i);
    }
    assert Moved(was, i, i) == was by {
      MovedAt(was, i, i);
    }
    var j := i;
    while j > 0 && Start(steps, order[j - 1]) > Start(steps, order[j])
      invariant 0 <= j <= i
      invariant order[..] == Moved(was, i, j)
      invariant order[j] == i && (j > 0 ==> order[j - 1] == was[j - 1])
      invariant forall k | j <= k < i :: Start(steps, i) < Start(steps, was[k])
    {
      SwapMoves(was, i, j);
      ghost var s := order[..];
      order[j], order[j - 1] := order[j - 1], order[j];
      j := j - 1;
      assert order[..] == s[j + 1 := s[j]][j := s[j + 1]];
    }
    MoveKeepsOrder(steps, was, i, j);
    MovedAt(was, i, j);
  }

  /** A stable sort by start time, in place. */
  method SortByStart(steps: seq<PlanStep>, order: array<nat>)
    requires order[..] == Indices(|steps|)
    modifies order
    ensures PlacementOrder(steps, order[..])
  {
    var n := order.Length;
    assert n == |steps| by {
      assert |order[..]| == n;
    }
    for i := 0 to n
      invariant multiset(order[..]) == multiset(Indices(|steps|))
      invariant forall k | i <= k < n :: order[k] == k
      invariant SortedUpTo(steps, order[..], i)
    {
      Sink(steps, order, i);
    }
    IndicesInRange(steps, order[..]);
  }

  // ---- packing ----

  /** The end of the last interval in each lane, and the lane of each interval in placement order. */
  datatype Packing = Packing(laneEnd: seq<real>, lanes: seq<nat>)

  /** The first lane free at `start`, or a new one. */
  function FirstFree(laneEnd: seq<real>, start: real): (lane: nat)
    ensures lane <= |laneEnd|
    ensures lane < |laneEnd| ==> laneEnd[lane] <= start + TOLERANCE
    ensures forall l | 0 <= l < lane :: laneEnd[l] > start + TOLERANCE
  {
    if laneEnd == [] then 0
    else if laneEnd[0] <= start + TOLERANCE then 0
    else 1 + FirstFree(laneEnd[1..], start)
  }

  function Place(p: Packing, x: Interval): Packing {
    var lane := FirstFree(p.laneEnd, x.start);
    Packing(
      if lane < |p.laneEnd| then p.laneEnd[lane := x.end] else p.laneEnd + [x.end],
      p.lanes + [lane])
  }

  function Pack(xs: seq<Interval>): Packing {
    if xs == [] then Packing([], [])
    else Place(Pack(xs[..|xs| - 1]), xs[|xs| - 1])
  }

  /** The steps' intervals in placement order. */
  function Arranged(steps: seq<PlanStep>, order: seq<nat>): (xs: seq<Interval>)
    requires forall i | 0 <= i < |order| :: order[i] < |steps|
  {
    seq(|order|, i requires 0 <= i < |order| => IntervalOf(steps[order[i]]))
  }

  /** An empty plan still shows one lane. */
  function LaneCount(p: Packing): nat {
    if |p.laneEnd| > 1 then |p.laneEnd| else 1
  }

  function StepsOf(placed: seq<(nat, nat)>): seq<nat> {
    seq(|placed|, i requires 0 <= i < |placed| => placed[i].1)
  }

  function LanesOf(placed: seq<(nat, nat)>): seq<nat> {
    seq(|placed|, i requires 0 <= i < |placed| => placed[i].0)
  }

  /** The lane and step pairs in placement order, and the number of lanes. */
  method PackLanes(steps: seq<PlanStep>) returns (placed: seq<(nat, nat)>, lanes: nat)
    ensures PlacementOrder(steps, StepsOf(placed))
    ensures var p := Pack(Arranged(steps, StepsOf(placed)));
            LanesOf(placed) == p.lanes && lanes == LaneCount(p)
    ensures forall i | 0 <= i < |placed| :: placed[i].0 < lanes
    ensures if steps == [] then lanes == 1 else forall l | 0 <= l < lanes :: l in LanesOf(placed)
  {
    hide PlacementOrder, Place, Pack, FirstFree;
    var sorted := new nat[|steps|](i => i);
    assert sorted[..] == Indices(|steps|);
    SortByStart(steps, sorted);
    ghost var order := sorted[..];
    OrderInRange(steps, order);
    ghost var xs := Arranged(steps, order);
    PackEmpty(xs);
    var laneEnd: seq<real> := [];
    placed := [];
    for k := 0 to sorted.Length
      invariant sorted[..] == order
      invariant laneEnd == Pack(xs[..k]).laneEnd
      invariant |placed| == |Pack(xs[..k]).lanes| == k
      invariant forall i | 0 <= i < k :: placed[i] == (Pack(xs[..k]).lanes[i], order[i])
    {
      PackNext(xs, k);
      var idx := sorted[k];
      var start := IntervalOf(steps[idx]).start;
      var end := IntervalOf(steps[idx]).end;
      var lane := Position(laneEnd, start);
      if lane == |laneEnd| {
        laneEnd := laneEnd + [0.0];
      }
      laneEnd := laneEnd[lane := end];
      placed := placed + [(lane, idx)];
    }
    assert xs[..|order|] == xs;
    assert StepsOf(placed) == order && LanesOf(placed) == Pack(xs).lanes;
    lanes := if |laneEnd| > 1 then |laneEnd| else 1;
    LanesAreUsed(xs);
    forall i | 0 <= i < |placed| ensures placed[i].0 < lanes {
      assert LanesOf(placed)[i] == placed[i].0;
      assert LanesOf(placed)[i] in Pack(xs).lanes;
    }
  }

  /** The lanes of the placed intervals are those below the number of lanes opened. */
  lemma {:induction false} LanesAreUsed(xs: seq<Interval>)
    ensures var p := Pack(xs);
            && |p.lanes| == |xs| && (xs != [] ==> p.laneEnd != [])
            && forall l: nat :: l in p.lanes <==> l < |p.laneEnd|
  {
    if xs != [] {
      LanesAreUsed(xs[..|xs| - 1]);
    }
  }

  lemma PackEmpty(xs: seq<Interval>)
    ensures Pack(xs[..0]) == Packing([], [])
  {
  }

  lemma PackNext(xs: seq<Interval>, k: nat)
    requires k < |xs|
    ensures var p, q := Pack(xs[..k]), Pack(xs[..k + 1]);
            var lane := FirstFree(p.laneEnd, xs[k].start);
            && lane <= |p.laneEnd|
            && q.lanes == p.lanes + [lane]
            && q.laneEnd == (if lane == |p.laneEnd| then p.laneEnd + [0.0] else p.laneEnd)[lane := xs[k].end]
  {
    assert xs[..k + 1][..k] == xs[..k];
  }

  lemma OrderInRange(steps: seq<PlanStep>, order: seq<nat>)
    requires PlacementOrder(steps, order)
    ensures InRange(steps, order) && |order| == |steps|
  {
    IndicesInRange(steps, order);
  }

  /** Scans the lanes from the first for one that is free. */
  method Position(laneEnd: seq<real>, start: real) returns (lane: nat)
    ensures lane == FirstFree(laneEnd, start)
  {
    lane := 0;
    while lane < |laneEnd| && !(laneEnd[lane] <= start + TOLERANCE)
      invariant lane <= |laneEnd|
      invariant FirstFree(laneEnd, start) == lane + FirstFree(laneEnd[lane..], start)
    {
      assert laneEnd[lane..][1..] == laneEnd[lane + 1..];
      lane := lane + 1;
    }
  }

  // ---- every packing is sound ----

  /** `a` is over, up to the tolerance, when `b` starts. */
  predicate Clears(a: Interval, b: Interval) {
    a.end <= b.start + TOLERANCE
  }

  /** The position of the last interval placed in `lane`. */
  function LastIn(lanes: seq<nat>, lane: nat): (k: int)
    ensures -1 <= k < |lanes|
    ensures k >= 0 ==> lanes[k] == lane
    ensures forall m | k < m < |lanes| :: lanes[m] != lane
  {
    if lanes == [] then -1
    else if lanes[|lanes| - 1] == lane then |lanes| - 1
    else LastIn(lanes[..|lanes| - 1], lane)
  }

  ghost predicate ByStart(xs: seq<Interval>) {
    forall i, j | 0 <= i < j < |xs| :: xs[i].start <= xs[j].start
  }

  /** A lane below `m` for every interval, in which the earlier placed of two is over when the other starts. */
  ghost predicate Chronological(xs: seq<Interval>, lanes: seq<nat>, m: nat) {
    && |lanes| == |xs|
    && (forall i | 0 <= i < |lanes| :: lanes[i] < m)
    && forall i, j | 0 <= i < j < |xs| && lanes[i] == lanes[j] :: Clears(xs[i], xs[j])
  }

  ghost predicate EndsAreLast(xs: seq<Interval>, p: Packing) {
    && |p.lanes| == |xs|
    && forall l | 0 <= l < |p.laneEnd| :: LastIn(p.lanes, l) >= 0 && p.laneEnd[l] == xs[LastIn(p.lanes, l)].end
  }

  lemma {:induction false} PackIsSound(xs: seq<Interval>)
    requires ByStart(xs)
    ensures EndsAreLast(xs, Pack(xs)) && Chronological(xs, Pack(xs).lanes, |Pack(xs).laneEnd|)
  {
    hide ByStart, EndsAreLast, Chronological, Place;
    if xs == [] {
      NothingPacked();
    } else {
      var n := |xs| - 1;
      assert xs == xs[..n] + [xs[n]];
      ByStartPrefix(xs);
      PackIsSound(xs[..n]);
      PlaceKeepsEnds(xs[..n], Pack(xs[..n]), xs[n]);
      PlaceKeepsLanes(xs, Pack(xs[..n]));
    }
  }

  lemma NothingPacked()
    ensures EndsAreLast([], Pack([])) && Chronological([], Pack([]).lanes, |Pack([]).laneEnd|)
  {
  }

  lemma ByStartPrefix(xs: seq<Interval>)
    requires xs != [] && ByStart(xs)
    ensures ByStart(xs[..|xs| - 1])
  {
  }

  lemma PlaceKeepsLanes(xs: seq<Interval>, p: Packing)
    requires xs != [] && ByStart(xs) && EndsAreLast(xs[..|xs| - 1], p)
    requires Chronological(xs[..|xs| - 1], p.lanes, |p.laneEnd|)
    ensures var q := Place(p, xs[|xs| - 1]); Chronological(xs, q.lanes, |q.laneEnd|)
  {
    var n := |xs| - 1;
    var front, lane := xs[..n], FirstFree(p.laneEnd, xs[n].start);
    forall i | 0 <= i < n && p.lanes[i] == lane ensures Clears(xs[i], xs[n]) {
      var k := LastIn(p.lanes, lane);
      if i < k {
        assert Clears(front[i], front[k]);
      }
    }
    forall i, j | 0 <= i < j < n && p.lanes[i] == p.lanes[j] ensures Clears(xs[i], xs[j]) {
      assert Clears(front[i], front[j]);
    }
  }

  lemma PlaceKeepsEnds(front: seq<Interval>, p: Packing, x: Interval)
    requires EndsAreLast(front, p)
    ensures EndsAreLast(front + [x], Place(p, x))
  {
    var q := Place(p, x);
    assert q.lanes[..|front|] == p.lanes;
  }

  // ---- how many lanes are needed ----

  /** Pairwise, the earlier placed of two intervals is not over when the later one starts. */
  ghost predicate Clique(xs: seq<Interval>, c: seq<nat>) {
    && (forall i | 0 <= i < |c| :: c[i] < |xs|)
    && (forall i, j | 0 <= i < j < |c| :: c[i] != c[j])
    && forall i, j | 0 <= i < |c| && 0 <= j < |c| && c[i] < c[j] :: !Clears(xs[c[i]], xs[c[j]])
  }

  /** When no lane is free, the last intervals in the lanes and the next one form a clique. */
  lemma NewLaneHasClique(xs: seq<Interval>, p: Packing) returns (c: seq<nat>)
    requires xs != [] && ByStart(xs) && EndsAreLast(xs[..|xs| - 1], p)
    requires FirstFree(p.laneEnd, xs[|xs| - 1].start) == |p.laneEnd|
    ensures Clique(xs, c) && |c| == |p.laneEnd| + 1
  {
    hide FirstFree, LastIn;
    var n := |xs| - 1;
    var last: seq<nat> := seq(|p.laneEnd|, l requires 0 <= l < |p.laneEnd| => LastIn(p.lanes, l));
    assert forall l | 0 <= l < |last| :: p.lanes[last[l]] == l && last[l] < n;
    assert forall l | 0 <= l < |last| :: p.laneEnd[l] == xs[last[l]].end && p.laneEnd[l] > xs[n].start + TOLERANCE;
    c := last + [n];
  }

  /** Opening a lane exhibits that many intervals each still running when a later one starts. */
  lemma {:induction false} PackHasClique(xs: seq<Interval>) returns (c: seq<nat>)
    requires ByStart(xs)
    ensures Clique(xs, c) && |c| == |Pack(xs).laneEnd|
  {
    if xs == [] {
      c := [];
    } else {
      var n := |xs| - 1;
      var p := Pack(xs[..n]);
      if FirstFree(p.laneEnd, xs[n].start) < |p.laneEnd| {
        c := PackHasClique(xs[..n]);
      } else {
        PackIsSound(xs[..n]);
        c := NewLaneHasClique(xs, p);
      }
    }
  }

  lemma {:induction false} Pigeonhole(s: seq<nat>, m: nat)
    requires forall i | 0 <= i < |s| :: s[i] < m
    requires forall i, j | 0 <= i < j < |s| :: s[i] != s[j]
    ensures |s| <= m
  {
    if |s| > 0 {
      assert s[0] < m;
      if k :| 0 <= k < |s| && s[k] == m - 1 {
        Pigeonhole(s[..k] + s[k + 1..], m - 1);
      } else {
        Pigeonhole(s, m - 1);
      }
    }
  }

  /** No assignment that respects the placement order uses fewer lanes than the packing. */
  lemma PackIsLeastChronological(xs: seq<Interval>, lanes: seq<nat>, m: nat)
    requires xs != [] && ByStart(xs) && Chronological(xs, lanes, m)
    ensures LaneCount(Pack(xs)) <= m
  {
    var c := PackHasClique(xs);
    var used := seq(|c|, i requires 0 <= i < |c| => lanes[c[i]]);
    forall i, j | 0 <= i < j < |c| ensures used[i] != used[j] {
      if c[i] < c[j] {
        assert !Clears(xs[c[i]], xs[c[j]]);
      } else {
        assert !Clears(xs[c[j]], xs[c[i]]);
      }
    }
    Pigeonhole(used, m);
    assert lanes[0] < m;
  }

  // ---- the same, about the steps of a plan ----

  /** `a` is over, up to the tolerance, when `b` starts. */
  predicate Follows(b: PlanStep, a: PlanStep) {
    StartOf(a) + Length(a) <= StartOf(b) + TOLERANCE
  }

  /** Neither step can follow the other in one lane. */
  predicate Conflict(steps: seq<PlanStep>, a: nat, b: nat)
    requires a < |steps| && b < |steps|
  {
    !Follows(steps[b], steps[a]) && !Follows(steps[a], steps[b])
  }

  /** A lane below `m` for every step, in which steps that share a lane do not conflict. */
  ghost predicate ValidAssignment(steps: seq<PlanStep>, lanes: seq<nat>, m: nat) {
    && |lanes| == |steps|
    && (forall i | 0 <= i < |lanes| :: lanes[i] < m)
    && forall i, j | 0 <= i < j < |steps| && lanes[i] == lanes[j] :: !Conflict(steps, i, j)
  }

  lemma ArrangedByStart(steps: seq<PlanStep>, order: seq<nat>)
    requires PlacementOrder(steps, order)
    ensures |order| == |steps| && InRange(steps, order) && ByStart(Arranged(steps, order))
  {
    IndicesInRange(steps, order);
    var xs := Arranged(steps, order);
    forall i, j | 0 <= i < j < |xs| ensures xs[i].start <= xs[j].start {
      assert Before(steps, order[i], order[j]);
    }
  }

  /**
   * Every step is placed exactly once, and of any two steps in one lane, not only neighbours, the
   * one placed first is over, up to the tolerance, when the other starts.
   */
  lemma PackingIsSound(steps: seq<PlanStep>, order: seq<nat>)
    requires PlacementOrder(steps, order)
    ensures |Pack(Arranged(steps, order)).lanes| == |order| == |steps|
    ensures forall s: nat | s < |steps| :: s in order
    ensures forall i, j | 0 <= i < j < |order| :: order[i] != order[j]
    ensures var p := Pack(Arranged(steps, order));
            forall i, j | 0 <= i < j < |order| && p.lanes[i] == p.lanes[j] ::
              Follows(steps[order[j]], steps[order[i]])
  {
    ArrangedByStart(steps, order);
    PackIsSound(Arranged(steps, order));
    var xs := Arranged(steps, order);
    forall s: nat | s < |steps| ensures s in order {
      assert Indices(|steps|)[s] == s;
      assert s in multiset(Indices(|steps|));
    }
    forall i, j | 0 <= i < j < |order| && Pack(xs).lanes[i] == Pack(xs).lanes[j]
      ensures Follows(steps[order[j]], steps[order[i]])
    {
      assert Clears(xs[i], xs[j]);
    }
    forall i, j | 0 <= i < j < |order| ensures order[i] != order[j] {
      assert Before(steps, order[i], order[j]);
    }
  }

  predicate IsShort(d: real) {
    d <= TOLERANCE
  }

  /** No short step is placed after a longer one that it could have gone before in the same lane. */
  predicate NoLateShort(steps: seq<PlanStep>) {
    forall i, j | 0 <= i < |steps| && 0 <= j < |steps| && Before(steps, i, j) ::
      IsShort(Length(steps[i])) || !IsShort(Length(steps[j])) || !Follows(steps[i], steps[j])
  }

  /** Then no assignment at all uses fewer lanes than the packing. */
  lemma PackingIsOptimal(steps: seq<PlanStep>, order: seq<nat>, lanes: seq<nat>, m: nat)
    requires steps != [] && NoLateShort(steps)
    requires PlacementOrder(steps, order) && ValidAssignment(steps, lanes, m)
    ensures LaneCount(Pack(Arranged(steps, order))) <= m
  {
    ArrangedByStart(steps, order);
    var xs := Arranged(steps, order);
    var byPlacement := seq(|order|, k requires 0 <= k < |order| => lanes[order[k]]);
    forall i, j | 0 <= i < j < |xs| && byPlacement[i] == byPlacement[j] ensures Clears(xs[i], xs[j]) {
      assert Before(steps, order[i], order[j]);
      if order[i] < order[j] {
        assert !Conflict(steps, order[i], order[j]);
      } else {
        assert !Conflict(steps, order[j], order[i]);
      }
    }
    PackIsLeastChronological(xs, byPlacement, m);
  }

  /** Where step `s` comes in the order of placement. */
  ghost function PlaceOf(order: seq<nat>, s: nat): (k: nat)
    requires s in order
    ensures k < |order| && order[k] == s
  {
    var k :| 0 <= k < |order| && order[k] == s;
    k
  }

  /** The lanes that the packing gives to the steps, in plan order, are a valid assignment to the reported number of lanes. */
  lemma CountIsAttained(steps: seq<PlanStep>, order: seq<nat>) returns (lanes: seq<nat>)
    requires PlacementOrder(steps, order)
    ensures ValidAssignment(steps, lanes, LaneCount(Pack(Arranged(steps, order))))
    ensures var p := Pack(Arranged(steps, order));
            |p.lanes| == |order| && forall k | 0 <= k < |order| :: lanes[order[k]] == p.lanes[k]
  {
    PackingIsSound(steps, order);
    var p := Pack(Arranged(steps, order));
    LanesAreUsed(Arranged(steps, order));
    hide PlacementOrder, Pack, Arranged;
    lanes := seq(|steps|, s requires 0 <= s < |steps| => p.lanes[PlaceOf(order, s)]);
    forall s | 0 <= s < |steps| ensures lanes[s] < LaneCount(p) {
      assert p.lanes[PlaceOf(order, s)] in p.lanes;
    }
    forall i, j | 0 <= i < j < |steps| && lanes[i] == lanes[j] ensures !Conflict(steps, i, j) {
      var k, l := PlaceOf(order, i), PlaceOf(order, j);
      assert if k < l then Follows(steps[order[l]], steps[order[k]]) else Follows(steps[order[k]], steps[order[l]]);
    }
    forall k | 0 <= k < |order| ensures lanes[order[k]] == p.lanes[k] {
      assert order[k] in order && PlaceOf(order, order[k]) == k;
    }
  }

  /** Some valid assignment uses `m` lanes, and none uses fewer. */
  ghost predicate IsMinimum(steps: seq<PlanStep>, m: nat) {
    && (exists lanes :: ValidAssignment(steps, lanes, m))
    && forall lanes, k | ValidAssignment(steps, lanes, k) :: m <= k
  }

  ghost predicate LengthsIn(steps: seq<PlanStep>, lengths: iset<real>) {
    forall i | 0 <= i < |steps| :: Length(steps[i]) in lengths
  }

  /** For every plan with these lengths the packing's lane count is the least possible. */
  ghost predicate AlwaysOptimal(lengths: iset<real>) {
    forall steps, order | steps != [] && LengthsIn(steps, lengths) && PlacementOrder(steps, order) ::
      IsMinimum(steps, LaneCount(Pack(Arranged(steps, order))))
  }

  /** A long step and then a short one at the same time take two lanes where one would do. */
  lemma MixedLengthsWasteALane(long: real, short: real)
    requires !IsShort(long) && IsShort(short)
    ensures var steps := [PlanStep(Some(0.0), Some(long)), PlanStep(Some(0.0), Some(short))];
            && PlacementOrder(steps, [0, 1])
            && LaneCount(Pack(Arranged(steps, [0, 1]))) == 2
            && ValidAssignment(steps, [0, 0], 1)
  {
    var steps := [PlanStep(Some(0.0), Some(long)), PlanStep(Some(0.0), Some(short))];
    assert Indices(2) == [0, 1];
    var xs := Arranged(steps, [0, 1]);
    assert xs == [Interval(0.0, long), Interval(0.0, short)];
    PackEmpty(xs);
    PackNext(xs, 0);
    PackNext(xs, 1);
    assert xs[..2] == xs;
    var p := Pack(xs[..1]);
    assert p.laneEnd == [long];
    assert FirstFree([long], 0.0) == 1;
  }

  /**
   * The lane count is the minimum over all valid assignments, for every plan built from given
   * lengths, exactly when those lengths do not mix short ones (within the tolerance) with longer ones.
   */
  lemma OptimalIffUniformLengths(lengths: iset<real>)
    ensures AlwaysOptimal(lengths) <==>
              (forall d | d in lengths :: IsShort(d)) || (forall d | d in lengths :: !IsShort(d))
  {
    hide ValidAssignment, Pack;
    if (forall d | d in lengths :: IsShort(d)) || (forall d | d in lengths :: !IsShort(d)) {
      forall steps, order | steps != [] && LengthsIn(steps, lengths) && PlacementOrder(steps, order)
        ensures IsMinimum(steps, LaneCount(Pack(Arranged(steps, order))))
      {
        var attained := CountIsAttained(steps, order);
        forall lanes, m | ValidAssignment(steps, lanes, m) ensures LaneCount(Pack(Arranged(steps, order))) <= m {
          PackingIsOptimal(steps, order, lanes, m);
        }
      }
    } else {
      var long :| long in lengths && !IsShort(long);
      var short :| short in lengths && IsShort(short);
      MixedLengthsWasteALane(long, short);
      var steps := [PlanStep(Some(0.0), Some(long)), PlanStep(Some(0.0), Some(short))];
      assert LengthsIn(steps, lengths);
    }
  }
}
