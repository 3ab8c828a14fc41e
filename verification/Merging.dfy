// Merging states that are stored under the same facts: when what one of them can still do, so can the other.
module Merging {
  import opened Prelude
  import opened HddlAst
  import opened Grounders
  import opened Htn
  import opened Addresses
  import opened Ordering
  import opened Markers
  import opened Bisimulation

  // ---- continuations ----

  /** Consecutive states joined by steps, from any state. */
  ghost predicate Path(ir: GroundedIR, states: seq<Composite>, labels: seq<Label>) {
    |states| == |labels| + 1 && forall i | 0 <= i < |labels| :: Step(ir, states[i], labels[i], states[i + 1])
  }

  /** A path that empties the task network in a goal state. */
  ghost predicate Finishes(ir: GroundedIR, states: seq<Composite>, labels: seq<Label>) {
    && Path(ir, states, labels)
    && states[|labels|].frontier.pending == map[] && GoalHolds(ir.goal, states[|labels|].facts)
  }

  /** Some path from the state empties the network in a goal state. */
  ghost predicate CanFinishFrom(ir: GroundedIR, s: Composite) {
    exists states, labels :: Finishes(ir, states, labels) && states[0] == s
  }

  lemma PathRest(ir: GroundedIR, states: seq<Composite>, labels: seq<Label>)
    requires Path(ir, states, labels) && labels != []
    ensures Path(ir, states[1..], labels[1..]) && Step(ir, states[0], labels[0], states[1])
  {
    forall i | 0 <= i < |labels[1..]| ensures Step(ir, states[1..][i], labels[1..][i], states[1..][i + 1]) {
      assert Step(ir, states[i + 1], labels[i + 1], states[i + 1 + 1]);
    }
  }

  lemma PathCons(ir: GroundedIR, s: Composite, l: Label, states: seq<Composite>, labels: seq<Label>)
    requires Path(ir, states, labels) && Step(ir, s, l, states[0])
    ensures Path(ir, [s] + states, [l] + labels)
  {
    var states', labels' := [s] + states, [l] + labels;
    forall i | 0 <= i < |labels'| ensures Step(ir, states'[i], labels'[i], states'[i + 1]) {
      if i > 0 {
        assert states'[i] == states[i - 1] && labels'[i] == labels[i - 1] && states'[i + 1] == states[i];
        assert Step(ir, states[i - 1], labels[i - 1], states[i - 1 + 1]);
      }
    }
  }

  // ---- networks that can never be emptied ----

  /** Some pending node has to come before itself. */
  ghost predicate Dead(f: Frontier) {
    exists x :: x in f.pending && Precedes(f.order, x, x)
  }

  lemma StepStaysDead(ir: GroundedIR, s: Composite, l: Label, s': Composite)
    requires OrderedIR(ir) && EdgesWithin(s.frontier) && Step(ir, s, l, s') && Dead(s.frontier)
    ensures Dead(s'.frontier)
  {
    var f := s.frontier;
    var x :| x in f.pending && Precedes(f.order, x, x);
    EnabledHasNoPredecessor(f, l.addr, x);
    match l
    case Decompose(a, m) =>
      RefineKeepsPrecedes(f, a, m, x, x);
      PendingAfter(f, a, m, x);
    case Execute(a, _, _) =>
      if s'.frontier != f {
        AdvanceKeepsPrecedes(f, a, x, x);
      }
  }

  lemma {:induction false} PathStaysDead(ir: GroundedIR, states: seq<Composite>, labels: seq<Label>)
    requires OrderedIR(ir) && Path(ir, states, labels) && EdgesWithin(states[0].frontier) && Dead(states[0].frontier)
    ensures Dead(states[|labels|].frontier)
    decreases |labels|
  {
    if labels != [] {
      PathRest(ir, states, labels);
      StepStaysDead(ir, states[0], labels[0], states[1]);
      StepKeepsEdgesWithin(ir, states[0], labels[0], states[1]);
      PathStaysDead(ir, states[1..], labels[1..]);
    }
  }

  lemma DeadCannotFinish(ir: GroundedIR, s: Composite)
    requires OrderedIR(ir) && EdgesWithin(s.frontier) && Dead(s.frontier)
    ensures !CanFinishFrom(ir, s)
  {
    hide Step, Precedes, GoalHolds;
    if states, labels :| Finishes(ir, states, labels) && states[0] == s {
      PathStaysDead(ir, states, labels);
    }
  }

  /** A child that takes the address of a node its parent had to precede has to precede itself. */
  lemma HitIsDead(f: Frontier, a: Addr, m: GroundMethod, y: Addr)
    requires a in Enabled(f) && EdgesWithin(f) && CleanOrder(m.subtasks, m.order)
    requires y in f.pending && y in ChildAddrs(a, m.subtasks) && Precedes(f.order, a, y)
    ensures Dead(Refine(f, a, m))
  {
    NotItsOwnChild(a, m);
    ChildrenInheritSuccessors(f, a, m, y, y);
    PendingAfter(f, a, m, y);
  }

  // ---- addresses below an address ----

  /** What a sequence of subtask ids appends to an address. */
  function Suffix(v: seq<Name>): string {
    if v == [] then "" else Suffix(v[..|v| - 1]) + "." + v[|v| - 1]
  }

  lemma SuffixSnoc(a: Addr, v: seq<Name>, id: Name)
    ensures a + Suffix(v + [id]) == ChildAddr(a + Suffix(v), id)
  {
    assert (v + [id])[..|v|] == v;
  }

  lemma {:induction false} SuffixOfAddress(v: seq<Name>)
    ensures AddrOf(v) == "r" + Suffix(v)
  {
    if v != [] {
      SuffixOfAddress(v[..|v| - 1]);
    }
  }

  lemma {:induction false} SuffixAppend(v: seq<Name>, w: seq<Name>)
    ensures Suffix(v + w) == Suffix(v) + Suffix(w)
  {
    if w == [] {
      assert v + w == v;
    } else {
      var n := |w| - 1;
      SuffixAppend(v, w[..n]);
      assert v + w == (v + w[..n]) + [w[n]];
      SuffixSnoc("", v + w[..n], w[n]);
    }
  }

  lemma SuffixIsInjectiveAbove(a: Addr, v: seq<Name>, w: seq<Name>)
    requires a + Suffix(v) == a + Suffix(w)
    ensures Suffix(v) == Suffix(w)
  {
    assert Suffix(v) == (a + Suffix(v))[|a|..];
    assert Suffix(w) == (a + Suffix(w))[|a|..];
  }

  /** Below the `k`-th address of a list, these ids lead to a later one. */
  ghost predicate Hits(r: seq<Addr>, k: nat, v: seq<Name>)
    requires k < |r|
  {
    v != [] && exists l :: k < l < |r| && r[l] == r[k] + Suffix(v)
  }

  /** On the way down from the `k`-th address of a list, along these ids, a later one is met. */
  ghost predicate Blocked(r: seq<Addr>, k: nat, v: seq<Name>)
    requires k < |r|
  {
    exists n :: 0 < n <= |v| && Hits(r, k, v[..n])
  }

  /** Rank by rank, the same ways down are blocked. */
  ghost predicate SameBlocks(ids: Ids, r: seq<Addr>, q: seq<Addr>) {
    |r| == |q| && forall k, v | 0 <= k < |r| && Over(v, ids) :: Blocked(r, k, v) <==> Blocked(q, k, v)
  }

  lemma NotBlockedYet(r: seq<Addr>, k: nat)
    requires k < |r|
    ensures !Blocked(r, k, [])
  {
  }

  lemma NotBlockedFurther(r: seq<Addr>, k: nat, v: seq<Name>, id: Name)
    requires k < |r| && !Blocked(r, k, v)
    ensures Blocked(r, k, v + [id]) <==> Hits(r, k, v + [id])
  {
    var w := v + [id];
    assert w[..|w|] == w;
    forall n | 0 < n < |w| ensures !Hits(r, k, w[..n]) {
      assert w[..n] == v[..n];
    }
  }

  // ---- working through two lines ----

  /** Corresponding nodes below the nodes of rank `k`. */
  ghost predicate OfCurrent(ids: Ids, r: seq<Addr>, q: seq<Addr>, k: nat, x: Addr, y: Addr)
    requires k < |r| == |q|
  {
    exists v :: Over(v, ids) && !Blocked(r, k, v) && x == r[k] + Suffix(v) && y == q[k] + Suffix(v)
  }

  /** Nodes of one later rank. */
  ghost predicate OfLater(r: seq<Addr>, q: seq<Addr>, k: nat, x: Addr, y: Addr)
    requires |r| == |q|
  {
    exists l :: k < l < |r| && x == r[l] && y == q[l]
  }

  ghost predicate LaterMatch(r: seq<Addr>, q: seq<Addr>, k: nat, rel: Matching)
    requires |r| == |q|
  {
    forall l | k < l < |r| :: r[l] in rel && rel[r[l]] == q[l]
  }

  ghost predicate OfRank(r: seq<Addr>, l: nat, x: Addr) {
    exists i :: l <= i < |r| && r[i] == x
  }

  /** Whatever is not of that rank or a later one precedes the node of each later rank. */
  ghost predicate LaterWait(f: Frontier, r: seq<Addr>, k: nat) {
    forall x, l | x in f.pending && k < l < |r| && !OfRank(r, l, x) :: Precedes(f.order, x, r[l])
  }

  ghost predicate InStage(ids: Ids, r: seq<Addr>, q: seq<Addr>, k: nat, rel: Matching)
    requires k < |r| == |q|
  {
    forall x | x in rel :: OfCurrent(ids, r, q, k, x, rel[x]) || OfLater(r, q, k, x, rel[x])
  }

  /** Everything before rank `k` is done on both sides, and everything after it untouched. */
  ghost predicate Staged(ids: Ids, r: seq<Addr>, q: seq<Addr>, k: nat, f: Frontier, g: Frontier, rel: Matching) {
    && k < |r| == |q| && Unrepeated(r) && Unrepeated(q) && Matches(rel, f, g)
    && InStage(ids, r, q, k, rel) && LaterMatch(r, q, k, rel) && LaterWait(f, r, k)
  }

  lemma {:induction false} LinePrecedes(f: Frontier, r: seq<Addr>, i: nat, j: nat)
    requires IsLine(f, r) && i < j < |r|
    ensures Precedes(f.order, r[i], r[j])
    decreases j
  {
    assert (r[j - 1], r[j - 1 + 1]) in f.order;
    forall s: set<Addr> | ClosedUnder(f.order, s) && Successors(f.order, r[i]) <= s ensures r[j] in s {
      if i == j - 1 {
        assert r[j] in Successors(f.order, r[i]);
      } else {
        LinePrecedes(f, r, i, j - 1);
      }
    }
  }

  lemma LineWaits(f: Frontier, r: seq<Addr>)
    requires IsLine(f, r)
    ensures LaterWait(f, r, 0)
  {
    forall x, l | x in f.pending && 0 < l < |r| && !OfRank(r, l, x) ensures Precedes(f.order, x, r[l]) {
      assert x in Elems(r);
      var i :| 0 <= i < |r| && r[i] == x;
      LinePrecedes(f, r, i, l);
    }
  }

  /** Only nodes of this rank and later ones are left, each where its rank has it. */
  ghost predicate OnlyRanks(r: seq<Addr>, q: seq<Addr>, k: nat, rel: Matching)
    requires |r| == |q|
  {
    forall x | x in rel :: exists i :: k <= i < |r| && x == r[i] && rel[x] == q[i]
  }

  lemma RankIsStaged(ids: Ids, r: seq<Addr>, q: seq<Addr>, k: nat, i: nat)
    requires k <= i < |r| == |q|
    ensures if i == k then OfCurrent(ids, r, q, k, r[i], q[i]) else OfLater(r, q, k, r[i], q[i])
  {
    if i == k {
      NotBlockedYet(r, k);
      assert Over([], ids) && r[i] == r[k] + Suffix([]) && q[i] == q[k] + Suffix([]);
    }
  }

  lemma RanksAreStaged(ids: Ids, r: seq<Addr>, q: seq<Addr>, k: nat, rel: Matching)
    requires k < |r| == |q| && OnlyRanks(r, q, k, rel)
    ensures InStage(ids, r, q, k, rel)
  {
    hide OfCurrent, OfLater;
    forall x | x in rel ensures OfCurrent(ids, r, q, k, x, rel[x]) || OfLater(r, q, k, x, rel[x]) {
      var i :| k <= i < |r| && x == r[i] && rel[x] == q[i];
      RankIsStaged(ids, r, q, k, i);
    }
  }

  lemma MatchedKeys(f: Frontier, g: Frontier, rel: Matching)
    requires Matches(rel, f, g)
    ensures rel.Keys == f.pending.Keys && EdgesWithin(f) && EdgesWithin(g)
  {
  }

  lemma LinesAreRanked(r: seq<Addr>, q: seq<Addr>)
    requires |r| == |q| && Unrepeated(r)
    ensures OnlyRanks(r, q, 0, ByRank(r, q)) && LaterMatch(r, q, 0, ByRank(r, q))
  {
    forall l | 0 < l < |r| ensures r[l] in ByRank(r, q) && ByRank(r, q)[r[l]] == q[l] {
      ByRankAt(r, q, l);
    }
    forall x | x in ByRank(r, q) ensures exists i :: 0 <= i < |r| && x == r[i] && ByRank(r, q)[x] == q[i] {
      var i := RankOf(r, x);
    }
  }

  lemma LinesAreStaged(ids: Ids, f: Frontier, r: seq<Addr>, g: Frontier, q: seq<Addr>)
    requires IsLine(f, r) && IsLine(g, q) && |r| == |q| > 0 && Matches(ByRank(r, q), f, g)
    ensures Staged(ids, r, q, 0, f, g, ByRank(r, q))
  {
    LineWaits(f, r);
    LinesAreRanked(r, q);
    RanksAreStaged(ids, r, q, 0, ByRank(r, q));
    hide Matches, LaterWait, InStage, LaterMatch, OnlyRanks, ByRank;
  }

  /** When a node of a later rank is enabled, only that rank and later ones are left. */
  lemma EarlierAreDone(r: seq<Addr>, k: nat, f: Frontier, l: nat)
    requires LaterWait(f, r, k) && k < l < |r| && r[l] in Enabled(f)
    ensures forall x | x in f.pending :: OfRank(r, l, x)
  {
    hide Precedes, OfRank;
    forall x | x in f.pending ensures OfRank(r, l, x) {
      EnabledHasNoPredecessor(f, r[l], x);
    }
  }

  lemma RanksRemain(r: seq<Addr>, q: seq<Addr>, k: nat, f: Frontier, rel: Matching, l: nat)
    requires k < l < |r| == |q| && Unrepeated(r) && LaterMatch(r, q, k, rel) && rel.Keys == f.pending.Keys
    requires forall x | x in f.pending :: OfRank(r, l, x)
    ensures l == k + 1 && OnlyRanks(r, q, l, rel)
  {
    assert r[k + 1] in rel.Keys;
    forall x | x in rel ensures exists i :: l <= i < |r| && x == r[i] && rel[x] == q[i] {
      assert x in f.pending.Keys;
    }
  }

  /** A node of a later rank is enabled only when nothing of the current one is left; then its rank is the next. */
  lemma NextStage(ids: Ids, r: seq<Addr>, q: seq<Addr>, k: nat, f: Frontier, g: Frontier, rel: Matching, a: Addr)
    requires Staged(ids, r, q, k, f, g, rel) && a in Enabled(f) && OfLater(r, q, k, a, rel[a])
    ensures k + 1 < |r| && Staged(ids, r, q, k + 1, f, g, rel) && OfCurrent(ids, r, q, k + 1, a, rel[a])
  {
    hide Precedes, OfCurrent, OfRank, Enabled, Matches, OnlyRanks, InStage;
    var l :| k < l < |r| && a == r[l] && rel[a] == q[l];
    MatchedKeys(f, g, rel);
    EarlierAreDone(r, k, f, l);
    RanksRemain(r, q, k, f, rel, l);
    RanksAreStaged(ids, r, q, l, rel);
    RankIsStaged(ids, r, q, l, l);
  }

  // ---- one step at a node of the current rank ----

  lemma CurrentIsNotLater(r: seq<Addr>, k: nat, v: seq<Name>, l: nat)
    requires Unrepeated(r) && k < l < |r| && !Blocked(r, k, v)
    ensures r[k] + Suffix(v) != r[l] && !OfRank(r, l, r[k] + Suffix(v))
  {
    assert v[..|v|] == v;
    if v == [] {
      assert r[k] + Suffix(v) == r[k];
    } else {
      assert !Hits(r, k, v);
    }
  }

  /** A node below the current rank, and the way down to it. */
  ghost predicate At(ids: Ids, r: seq<Addr>, q: seq<Addr>, k: nat, v: seq<Name>, x: Addr, y: Addr)
    requires k < |r| == |q|
  {
    Over(v, ids) && !Blocked(r, k, v) && x == r[k] + Suffix(v) && y == q[k] + Suffix(v)
  }

  lemma PairOfFirst(ids: Ids, r: seq<Addr>, q: seq<Addr>, k: nat, rel: Matching, v: seq<Name>)
    requires k < |r| == |q| && Unrepeated(r) && InStage(ids, r, q, k, rel) && !Blocked(r, k, v)
    ensures r[k] + Suffix(v) in rel ==> rel[r[k] + Suffix(v)] == q[k] + Suffix(v)
  {
    var c := r[k] + Suffix(v);
    if c in rel {
      if OfLater(r, q, k, c, rel[c]) {
        var l :| k < l < |r| && c == r[l];
        CurrentIsNotLater(r, k, v, l);
      } else {
        var w :| Over(w, ids) && !Blocked(r, k, w) && c == r[k] + Suffix(w) && rel[c] == q[k] + Suffix(w);
        SuffixIsInjectiveAbove(r[k], v, w);
      }
    }
  }

  lemma PairOfSecond(ids: Ids, r: seq<Addr>, q: seq<Addr>, k: nat, rel: Matching, v: seq<Name>, x: Addr)
    requires k < |r| == |q| && Unrepeated(q) && InStage(ids, r, q, k, rel) && !Blocked(q, k, v)
    requires x in rel && rel[x] == q[k] + Suffix(v)
    ensures x == r[k] + Suffix(v)
  {
    if OfLater(r, q, k, x, rel[x]) {
      var l :| k < l < |r| && rel[x] == q[l];
      CurrentIsNotLater(q, k, v, l);
    } else {
      var w :| Over(w, ids) && !Blocked(r, k, w) && x == r[k] + Suffix(w) && rel[x] == q[k] + Suffix(w);
      SuffixIsInjectiveAbove(q[k], v, w);
    }
  }

  /** While the network can still be emptied, no child meets a later rank. */
  lemma ChildIsNotBlocked(
    ids: Ids, r: seq<Addr>, q: seq<Addr>, k: nat, f: Frontier, g: Frontier, rel: Matching, a: Addr, m: GroundMethod,
    v: seq<Name>, id: Name)
    requires Staged(ids, r, q, k, f, g, rel) && SameBlocks(ids, r, q) && a in Enabled(f) && CleanOrder(m.subtasks, m.order)
    requires At(ids, r, q, k, v, a, rel[a]) && !Dead(Refine(f, a, m))
    requires id in ids && id in IdsOf(m.subtasks)
    ensures At(ids, r, q, k, v + [id], ChildAddr(a, id), ChildAddr(rel[a], id)) && !Blocked(q, k, v + [id])
  {
    SuffixSnoc(r[k], v, id);
    SuffixSnoc(q[k], v, id);
    NotBlockedFurther(r, k, v, id);
    if Hits(r, k, v + [id]) {
      var l :| k < l < |r| && r[l] == r[k] + Suffix(v + [id]);
      CurrentIsNotLater(r, k, v, l);
      IdHasChild(a, m.subtasks, id);
      HitIsDead(f, a, m, r[l]);
    }
    assert Over(v + [id], ids);
  }

  lemma ChildCollidesAlike(
    ids: Ids, r: seq<Addr>, q: seq<Addr>, k: nat, f: Frontier, g: Frontier, rel: Matching, v: seq<Name>, c: Addr, d: Addr)
    requires Staged(ids, r, q, k, f, g, rel) && At(ids, r, q, k, v, c, d) && !Blocked(q, k, v)
    ensures (c in f.pending <==> d in g.pending) && (c in rel ==> rel[c] == d)
  {
    PairOfFirst(ids, r, q, k, rel, v);
    assert c in f.pending.Keys <==> c in rel.Keys;
    if d in g.pending.Keys {
      var x :| x in rel && rel[x] == d;
      PairOfSecond(ids, r, q, k, rel, v, x);
    }
  }

  /** The children of corresponding nodes collide alike. */
  lemma StagedCollideAlike(
    ids: Ids, r: seq<Addr>, q: seq<Addr>, k: nat, f: Frontier, g: Frontier, rel: Matching, a: Addr, m: GroundMethod,
    v: seq<Name>)
    requires Staged(ids, r, q, k, f, g, rel) && SameBlocks(ids, r, q) && a in Enabled(f) && CleanOrder(m.subtasks, m.order)
    requires a in rel && At(ids, r, q, k, v, a, rel[a]) && !Dead(Refine(f, a, m)) && IdsWithin(m.subtasks, ids)
    ensures CollideAlike(f, g, a, m, rel)
  {
    hide Dead, Enabled, CleanOrder, Refine, SameBlocks, Staged, At, Blocked;
    forall id | id in IdsOf(m.subtasks)
      ensures ChildAddr(a, id) in f.pending <==> ChildAddr(rel[a], id) in g.pending
      ensures ChildAddr(a, id) in rel ==> rel[ChildAddr(a, id)] == ChildAddr(rel[a], id)
    {
      ChildIsNotBlocked(ids, r, q, k, f, g, rel, a, m, v, id);
      ChildCollidesAlike(ids, r, q, k, f, g, rel, v + [id], ChildAddr(a, id), ChildAddr(rel[a], id));
    }
  }

  lemma LaterIsKept(
    ids: Ids, r: seq<Addr>, q: seq<Addr>, k: nat, f: Frontier, g: Frontier, rel: Matching, a: Addr, v: seq<Name>, l: nat)
    requires Staged(ids, r, q, k, f, g, rel) && a in f.pending && At(ids, r, q, k, v, a, rel[a]) && k < l < |r|
    ensures r[l] in rel && r[l] in f.pending && r[l] != a && Precedes(f.order, a, r[l])
  {
    CurrentIsNotLater(r, k, v, l);
    assert r[l] in rel.Keys && rel.Keys == f.pending.Keys;
  }

  lemma DecomposingKeepsLaterMatch(
    ids: Ids, r: seq<Addr>, q: seq<Addr>, k: nat, f: Frontier, g: Frontier, rel: Matching, a: Addr, m: GroundMethod,
    v: seq<Name>)
    requires Staged(ids, r, q, k, f, g, rel) && BothRefine(f, g, a, m, rel) && At(ids, r, q, k, v, a, rel[a])
    ensures LaterMatch(r, q, k, Decomposed(f, a, m, rel))
  {
    var rel' := Decomposed(f, a, m, rel);
    hide Decomposed, Staged, BothRefine, At, Refine;
    forall l | k < l < |r| ensures r[l] in rel' && rel'[r[l]] == q[l] {
      LaterGoes(ids, r, q, k, f, g, rel, a, m, v, l);
    }
  }

  lemma LaterGoes(
    ids: Ids, r: seq<Addr>, q: seq<Addr>, k: nat, f: Frontier, g: Frontier, rel: Matching, a: Addr, m: GroundMethod,
    v: seq<Name>, l: nat)
    requires Staged(ids, r, q, k, f, g, rel) && BothRefine(f, g, a, m, rel) && At(ids, r, q, k, v, a, rel[a])
    requires k < l < |r|
    ensures r[l] in Decomposed(f, a, m, rel) && Decomposed(f, a, m, rel)[r[l]] == q[l]
  {
    LaterIsKept(ids, r, q, k, f, g, rel, a, v, l);
    PendingAfter(f, a, m, r[l]);
    NodeGoes(f, g, a, m, rel, r[l]);
  }

  lemma DecomposingKeepsWaiting(
    ids: Ids, r: seq<Addr>, q: seq<Addr>, k: nat, f: Frontier, g: Frontier, rel: Matching, a: Addr, m: GroundMethod,
    v: seq<Name>)
    requires Staged(ids, r, q, k, f, g, rel) && BothRefine(f, g, a, m, rel) && At(ids, r, q, k, v, a, rel[a])
    ensures LaterWait(Refine(f, a, m), r, k)
  {
    var after := Refine(f, a, m);
    hide Precedes, OfRank, Refine, At;
    forall x, l | x in after.pending && k < l < |r| && !OfRank(r, l, x) ensures Precedes(after.order, x, r[l]) {
      LaterIsKept(ids, r, q, k, f, g, rel, a, v, l);
      PendingAfter(f, a, m, x);
      if x in ChildAddrs(a, m.subtasks) {
        ChildrenInheritSuccessors(f, a, m, x, r[l]);
      } else {
        RefineKeepsPrecedes(f, a, m, x, r[l]);
      }
    }
  }

  lemma DecomposingKeepsInStage(
    ids: Ids, r: seq<Addr>, q: seq<Addr>, k: nat, f: Frontier, g: Frontier, rel: Matching, a: Addr, m: GroundMethod,
    v: seq<Name>)
    requires Staged(ids, r, q, k, f, g, rel) && SameBlocks(ids, r, q) && BothRefine(f, g, a, m, rel)
    requires At(ids, r, q, k, v, a, rel[a]) && !Dead(Refine(f, a, m)) && IdsWithin(m.subtasks, ids)
    ensures InStage(ids, r, q, k, Decomposed(f, a, m, rel))
  {
    var rel' := Decomposed(f, a, m, rel);
    hide Decomposed, Refine, OfLater, SameBlocks, Dead, Enabled, CollideAlike, LaterMatch, LaterWait, CleanOrder;
    forall x | x in rel' ensures OfCurrent(ids, r, q, k, x, rel'[x]) || OfLater(r, q, k, x, rel'[x]) {
      NodeGoes(f, g, a, m, rel, x);
      if x !in rel {
        NewIsChild(f, g, a, m, rel, x);
        var id := IdOf(a, m.subtasks, x);
        ChildGoes(f, g, a, m, rel, id);
        ChildIsNotBlocked(ids, r, q, k, f, g, rel, a, m, v, id);
      }
    }
  }

  lemma NewIsChild(f: Frontier, g: Frontier, a: Addr, m: GroundMethod, rel: Matching, x: Addr)
    requires Matches(rel, f, g) && a in f.pending && x in Decomposed(f, a, m, rel) && x !in rel
    ensures x in ChildAddrs(a, m.subtasks)
  {
    PendingAfter(f, a, m, x);
    assert x in f.pending <==> x in rel;
  }

  lemma StagedDecompose(
    ids: Ids, r: seq<Addr>, q: seq<Addr>, k: nat, f: Frontier, g: Frontier, rel: Matching, a: Addr, m: GroundMethod,
    v: seq<Name>)
    requires Staged(ids, r, q, k, f, g, rel) && SameBlocks(ids, r, q) && a in Enabled(f) && CleanOrder(m.subtasks, m.order)
    requires a in rel && At(ids, r, q, k, v, a, rel[a]) && !Dead(Refine(f, a, m)) && IdsWithin(m.subtasks, ids)
    ensures CollideAlike(f, g, a, m, rel)
    ensures Staged(ids, r, q, k, Refine(f, a, m), Refine(g, rel[a], m), Decomposed(f, a, m, rel))
  {
    hide Dead, CleanOrder, Refine, SameBlocks, At, InStage, LaterMatch, LaterWait, Decomposed, CollideAlike;
    StagedCollideAlike(ids, r, q, k, f, g, rel, a, m, v);
    assert BothRefine(f, g, a, m, rel);
    RefineKeepsMatching(f, g, a, m, rel);
    hide BothRefine, Enabled, Matches;
    DecomposingKeepsInStage(ids, r, q, k, f, g, rel, a, m, v);
    DecomposingKeepsLaterMatch(ids, r, q, k, f, g, rel, a, m, v);
    DecomposingKeepsWaiting(ids, r, q, k, f, g, rel, a, m, v);
  }

  lemma AdvancingKeepsLater(
    ids: Ids, r: seq<Addr>, q: seq<Addr>, k: nat, f: Frontier, g: Frontier, rel: Matching, a: Addr, v: seq<Name>)
    requires Staged(ids, r, q, k, f, g, rel) && a in Enabled(f) && At(ids, r, q, k, v, a, rel[a])
    ensures LaterMatch(r, q, k, rel - {a}) && LaterWait(Advance(f, a), r, k)
  {
    var after := Advance(f, a);
    hide Precedes, OfRank, At, InStage;
    forall l | k < l < |r| ensures r[l] in rel && r[l] != a {
      LaterIsKept(ids, r, q, k, f, g, rel, a, v, l);
    }
    forall x, l | x in after.pending && k < l < |r| && !OfRank(r, l, x) ensures Precedes(after.order, x, r[l]) {
      AdvanceKeepsPrecedes(f, a, x, r[l]);
    }
  }

  lemma StagedAdvance(
    ids: Ids, r: seq<Addr>, q: seq<Addr>, k: nat, f: Frontier, g: Frontier, rel: Matching, a: Addr, v: seq<Name>)
    requires Staged(ids, r, q, k, f, g, rel) && a in Enabled(f) && At(ids, r, q, k, v, a, rel[a])
    ensures Staged(ids, r, q, k, Advance(f, a), Advance(g, rel[a]), rel - {a})
  {
    AdvanceKeepsMatching(f, g, a, rel);
    AdvancingKeepsLater(ids, r, q, k, f, g, rel, a, v);
    hide Matches, LaterMatch, LaterWait, OfCurrent, OfLater, At;
  }

  /** A step that leaves the network possible to empty is followed from the other state. */
  lemma StagedMove(
    ids: Ids, r: seq<Addr>, q: seq<Addr>, k: nat, ir: GroundedIR, s: Composite, l: Label, s': Composite, t: Composite,
    rel: Matching, v: seq<Name>)
    returns (l': Label, t': Composite)
    requires OrderedIR(ir) && DrawsFrom(ir, ids) && SameBlocks(ids, r, q) && s.facts == t.facts
    requires Staged(ids, r, q, k, s.frontier, t.frontier, rel) && Step(ir, s, l, s') && !Dead(s'.frontier)
    requires l.addr in rel && At(ids, r, q, k, v, l.addr, rel[l.addr])
    ensures Step(ir, t, l', t') && SameMove(l, l') && s'.facts == t'.facts
    ensures Staged(ids, r, q, k, s'.frontier, t'.frontier, NextMatching(s, l, s', rel))
  {
    hide Dead, At, InStage, LaterMatch, LaterWait, SameBlocks;
    match l
    case Decompose(a, m) =>
      StagedDecompose(ids, r, q, k, s.frontier, t.frontier, rel, a, m, v);
      hide Matches, Refine, Decomposed, CollideAlike;
      l', t' := StepIsMatched(ir, s, l, s', t, rel);
      assert t' == AfterMethod(t, rel[a], m);
    case Execute(a, act, i) =>
      StagedAdvance(ids, r, q, k, s.frontier, t.frontier, rel, a, v);
      hide Matches, Advance;
      l', t' := StepIsMatched(ir, s, l, s', t, rel);
      assert t' == AfterOutcome(t, rel[a], act, i);
  }

  /** The stage to which an enabled node belongs, and the way down to it. */
  lemma StageOf(ids: Ids, r: seq<Addr>, q: seq<Addr>, k: nat, f: Frontier, g: Frontier, rel: Matching, a: Addr)
    returns (k': nat, v: seq<Name>)
    requires Staged(ids, r, q, k, f, g, rel) && a in Enabled(f)
    ensures rel.Keys == f.pending.Keys && a in f.pending
    ensures Staged(ids, r, q, k', f, g, rel) && At(ids, r, q, k', v, a, rel[a])
  {
    MatchedKeys(f, g, rel);
    assert a in rel.Keys;
    hide Matches, Enabled, OfLater, LaterMatch, LaterWait;
    k' := k;
    if OfLater(r, q, k, a, rel[a]) {
      NextStage(ids, r, q, k, f, g, rel, a);
      k' := k + 1;
    }
    v :| Over(v, ids) && !Blocked(r, k', v) && a == r[k'] + Suffix(v) && rel[a] == q[k'] + Suffix(v);
  }

  lemma StepIsEnabled(ir: GroundedIR, s: Composite, l: Label, s': Composite)
    requires Step(ir, s, l, s')
    ensures l.addr in Enabled(s.frontier)
  {
  }

  lemma StagedStep(
    ids: Ids, r: seq<Addr>, q: seq<Addr>, k: nat, ir: GroundedIR, s: Composite, l: Label, s': Composite, t: Composite,
    rel: Matching)
    returns (k': nat, l': Label, t': Composite, rel': Matching)
    requires OrderedIR(ir) && DrawsFrom(ir, ids) && SameBlocks(ids, r, q) && s.facts == t.facts
    requires Staged(ids, r, q, k, s.frontier, t.frontier, rel) && Step(ir, s, l, s') && !Dead(s'.frontier)
    ensures Step(ir, t, l', t') && SameMove(l, l') && s'.facts == t'.facts
    ensures Staged(ids, r, q, k', s'.frontier, t'.frontier, rel')
  {
    hide *;
    StepIsEnabled(ir, s, l, s');
    var n, v := StageOf(ids, r, q, k, s.frontier, t.frontier, rel, l.addr);
    l', t' := StagedMove(ids, r, q, n, ir, s, l, s', t, rel, v);
    k' := n;
    rel' := NextMatching(s, l, s', rel);
  }

  lemma StagedIsAlike(ids: Ids, r: seq<Addr>, q: seq<Addr>, k: nat, f: Frontier, g: Frontier, rel: Matching)
    requires Staged(ids, r, q, k, f, g, rel)
    ensures Alike(f, g) && EdgesWithin(f)
  {
  }

  /** Move by move the same choices, from and to states with equal facts and alike networks. */
  ghost predicate SameCourse(states: seq<Composite>, labels: seq<Label>, others: seq<Composite>, moves: seq<Label>) {
    && |states| == |labels| + 1 == |others| && |moves| == |labels|
    && (forall i | 0 <= i < |labels| :: SameMove(labels[i], moves[i]))
    && forall i | 0 <= i < |states| :: states[i].facts == others[i].facts && Alike(states[i].frontier, others[i].frontier)
  }

  lemma SameCourseCons(
    states: seq<Composite>, labels: seq<Label>, t: Composite, l': Label, others: seq<Composite>, moves: seq<Label>)
    requires labels != [] && |states| == |labels| + 1 && SameCourse(states[1..], labels[1..], others, moves)
    requires SameMove(labels[0], l') && states[0].facts == t.facts && Alike(states[0].frontier, t.frontier)
    ensures SameCourse(states, labels, [t] + others, [l'] + moves)
  {
    hide Alike, SameMove;
    forall i | 0 <= i < |labels| ensures SameMove(labels[i], ([l'] + moves)[i]) {
      if i > 0 {
        assert labels[1..][i - 1] == labels[i];
      }
    }
    forall i | 0 <= i < |states|
      ensures states[i].facts == ([t] + others)[i].facts && Alike(states[i].frontier, ([t] + others)[i].frontier)
    {
      if i > 0 {
        assert states[1..][i - 1] == states[i];
      }
    }
  }

  lemma AliveNext(ir: GroundedIR, states: seq<Composite>, labels: seq<Label>)
    requires OrderedIR(ir) && Path(ir, states, labels) && EdgesWithin(states[0].frontier)
    requires labels != [] && !Dead(states[|labels|].frontier)
    ensures !Dead(states[1].frontier)
  {
    PathRest(ir, states, labels);
    StepKeepsEdgesWithin(ir, states[0], labels[0], states[1]);
    if Dead(states[1].frontier) {
      PathStaysDead(ir, states[1..], labels[1..]);
    }
  }

  lemma PathStarts(ir: GroundedIR, states: seq<Composite>, labels: seq<Label>)
    requires Path(ir, states, labels)
    ensures |states| == |labels| + 1
  {
  }

  lemma StaysPut(ir: GroundedIR, states: seq<Composite>, t: Composite)
    requires |states| == 1 && states[0].facts == t.facts && Alike(states[0].frontier, t.frontier)
    ensures Path(ir, [t], []) && SameCourse(states, [], [t], [])
    ensures states[0] == t ==> states == [t]
  {
  }

  /** Every path that leaves the network possible to empty can be followed, choice by choice, from the other state. */
  lemma {:induction false} CourseIsReplayed(
    ids: Ids, r: seq<Addr>, q: seq<Addr>, k: nat, rel: Matching, ir: GroundedIR, states: seq<Composite>,
    labels: seq<Label>, t: Composite)
    returns (others: seq<Composite>, moves: seq<Label>)
    requires OrderedIR(ir) && DrawsFrom(ir, ids) && SameBlocks(ids, r, q) && Path(ir, states, labels)
    requires states[0].facts == t.facts && Staged(ids, r, q, k, states[0].frontier, t.frontier, rel)
    requires !Dead(states[|labels|].frontier)
    ensures Path(ir, others, moves) && others[0] == t && SameCourse(states, labels, others, moves)
    decreases |labels|
  {
    hide *;
    PathStarts(ir, states, labels);
    StagedIsAlike(ids, r, q, k, states[0].frontier, t.frontier, rel);
    if labels == [] {
      others, moves := [t], [];
      StaysPut(ir, states, t);
    } else {
      PathRest(ir, states, labels);
      AliveNext(ir, states, labels);
      var k', l', t', rel' := StagedStep(ids, r, q, k, ir, states[0], labels[0], states[1], t, rel);
      var rest, turns := CourseIsReplayed(ids, r, q, k', rel', ir, states[1..], labels[1..], t');
      others, moves := [t] + rest, [l'] + turns;
      PathStarts(ir, rest, turns);
      PathCons(ir, t, l', rest, turns);
      SameCourseCons(states, labels, t, l', rest, turns);
    }
  }

  // ---- states stored under the same facts ----

  /** If both networks are lines, the same ways down are blocked in both. */
  ghost predicate BlockAlike(ids: Ids, f: Frontier, g: Frontier) {
    forall r, q | IsLine(f, r) && IsLine(g, q) :: SameBlocks(ids, r, q)
  }

  lemma StepHasNode(ir: GroundedIR, s: Composite, l: Label, s': Composite)
    requires Step(ir, s, l, s')
    ensures s.frontier.pending != map[]
  {
    assert l.addr in s.frontier.pending;
  }

  lemma EmptyPath(ir: GroundedIR, states: seq<Composite>, labels: seq<Label>)
    requires Path(ir, states, labels) && states[0].frontier.pending == map[]
    ensures labels == []
  {
    hide Step;
    if labels != [] {
      PathRest(ir, states, labels);
      StepHasNode(ir, states[0], labels[0], states[1]);
    }
  }

  lemma LineIsEmpty(f: Frontier)
    requires IsLine(f, [])
    ensures f.pending == map[]
  {
    assert Elems<Addr>([]) == {};
    assert f.pending.Keys == {};
  }

  /** From a line to a line with the same marker. */
  lemma LineIsReplayed(
    ids: Ids, r: seq<Addr>, q: seq<Addr>, ir: GroundedIR, states: seq<Composite>, labels: seq<Label>, t: Composite)
    returns (others: seq<Composite>, moves: seq<Label>)
    requires OrderedIR(ir) && DrawsFrom(ir, ids) && Path(ir, states, labels) && SameBlocks(ids, r, q)
    requires IsLine(states[0].frontier, r) && IsLine(t.frontier, q) && |r| == |q|
    requires Matches(ByRank(r, q), states[0].frontier, t.frontier)
    requires states[0].facts == t.facts && !Dead(states[|labels|].frontier)
    ensures Path(ir, others, moves) && others[0] == t && SameCourse(states, labels, others, moves)
  {
    hide *;
    PathStarts(ir, states, labels);
    if r == [] {
      LineIsEmpty(states[0].frontier);
      EmptyPath(ir, states, labels);
      MatchedIsAlike(ByRank(r, q), states[0].frontier, t.frontier);
      others, moves := [t], [];
      StaysPut(ir, states, t);
    } else {
      LinesAreStaged(ids, states[0].frontier, r, t.frontier, q);
      others, moves := CourseIsReplayed(ids, r, q, 0, ByRank(r, q), ir, states, labels, t);
    }
  }

  lemma MatchedIsAlike(rel: Matching, f: Frontier, g: Frontier)
    requires Matches(rel, f, g)
    ensures Alike(f, g)
  {
  }

  lemma {:induction false} SameAsItself(ir: GroundedIR, states: seq<Composite>, labels: seq<Label>)
    requires OrderedIR(ir) && Path(ir, states, labels) && EdgesWithin(states[0].frontier)
    ensures SameCourse(states, labels, states, labels)
    decreases |labels|
  {
    hide *;
    PathStarts(ir, states, labels);
    AlikeToItself(states[0].frontier);
    if labels == [] {
      StaysPut(ir, states, states[0]);
    } else {
      PathRest(ir, states, labels);
      StepKeepsEdgesWithin(ir, states[0], labels[0], states[1]);
      SameAsItself(ir, states[1..], labels[1..]);
      SameMoveAsItself(labels[0]);
      SameCourseCons(states, labels, states[0], labels[0], states[1..], labels[1..]);
      assert states == [states[0]] + states[1..] && labels == [labels[0]] + labels[1..];
    }
  }

  lemma SameMoveAsItself(l: Label)
    ensures SameMove(l, l)
  {
  }

  /** Equal markers by rank are between lines, which match rank by rank; equal markers by address are of one network. */
  lemma SameMarkerCases(f: Frontier, g: Frontier) returns (line: bool, r: seq<Addr>, q: seq<Addr>)
    requires EdgesWithin(f) && EdgesWithin(g) && FrontierMarker(f) == FrontierMarker(g)
    ensures !line ==> f == g
    ensures line ==> IsLine(f, r) && IsLine(g, q) && |r| == |q| && Matches(ByRank(r, q), f, g)
  {
    hide EdgesWithin, Matches, CanonicalMarker, RawMarker, TotalOrder;
    line, r, q := false, [], [];
    match (TotalOrder(f), TotalOrder(g))
    case (Some(r'), Some(q')) =>
      TotalOrderIff(f, r');
      TotalOrderIff(g, q');
      CanonicalMarkersAgree(f, r', g, q');
      LinesMatch(f, r', g, q');
      line, r, q := true, r', q';
    case (None, None) => RawMarkersAgree(f, g);
    case (Some(_), None) => KindsDiffer(f, g);
    case (None, Some(_)) => KindsDiffer(g, f);
  }

  /**
   * Two states with equal facts and equal markers that block alike: every path from one of them that
   * leaves the network possible to empty can be followed from the other, choice by choice.
   */
  lemma PathIsReplayed(ids: Ids, ir: GroundedIR, states: seq<Composite>, labels: seq<Label>, t: Composite)
    returns (others: seq<Composite>, moves: seq<Label>)
    requires OrderedIR(ir) && DrawsFrom(ir, ids) && Path(ir, states, labels)
    requires EdgesWithin(states[0].frontier) && EdgesWithin(t.frontier) && BlockAlike(ids, states[0].frontier, t.frontier)
    requires states[0].facts == t.facts && FrontierMarker(states[0].frontier) == FrontierMarker(t.frontier)
    requires !Dead(states[|labels|].frontier)
    ensures Path(ir, others, moves) && others[0] == t && SameCourse(states, labels, others, moves)
  {
    var line, r, q := SameMarkerCases(states[0].frontier, t.frontier);
    hide Path, IsLine, Matches, SameBlocks, SameCourse, Dead, FrontierMarker, OrderedIR, DrawsFrom, EdgesWithin;
    if line {
      others, moves := LineIsReplayed(ids, r, q, ir, states, labels, t);
    } else {
      SameAsItself(ir, states, labels);
      others, moves := states, labels;
    }
  }

  lemma EmptyIsAlive(f: Frontier)
    requires f.pending == map[]
    ensures !Dead(f)
  {
  }

  lemma FinishIsReplayed(ids: Ids, ir: GroundedIR, s: Composite, t: Composite)
    requires OrderedIR(ir) && DrawsFrom(ir, ids) && s.facts == t.facts
    requires EdgesWithin(s.frontier) && EdgesWithin(t.frontier) && BlockAlike(ids, s.frontier, t.frontier)
    requires FrontierMarker(s.frontier) == FrontierMarker(t.frontier) && CanFinishFrom(ir, s)
    ensures CanFinishFrom(ir, t)
  {
    var states: seq<Composite>, labels: seq<Label> :| Finishes(ir, states, labels) && states[0] == s;
    PathStarts(ir, states, labels);
    hide Path, SameBlocks, Dead, Alike, FrontierMarker, OrderedIR, DrawsFrom, EdgesWithin, BlockAlike, GoalHolds;
    EmptyIsAlive(states[|labels|].frontier);
    var others, moves := PathIsReplayed(ids, ir, states, labels, t);
    AlikeToEmpty(states[|labels|].frontier, others[|moves|].frontier);
    assert Finishes(ir, others, moves);
  }

  lemma BlockAlikeIsSymmetric(ids: Ids, f: Frontier, g: Frontier)
    requires BlockAlike(ids, f, g)
    ensures BlockAlike(ids, g, f)
  {
    hide IsLine, Blocked, Over;
    forall q, r | IsLine(g, q) && IsLine(f, r) ensures SameBlocks(ids, q, r) {
      assert SameBlocks(ids, r, q);
    }
  }

  /** Two states with equal facts and equal markers that block alike can both be finished, or neither can. */
  lemma MarkedStatesFinishAlike(ids: Ids, ir: GroundedIR, s: Composite, t: Composite)
    requires OrderedIR(ir) && DrawsFrom(ir, ids) && s.facts == t.facts
    requires EdgesWithin(s.frontier) && EdgesWithin(t.frontier) && BlockAlike(ids, s.frontier, t.frontier)
    requires FrontierMarker(s.frontier) == FrontierMarker(t.frontier)
    ensures CanFinishFrom(ir, s) <==> CanFinishFrom(ir, t)
  {
    hide CanFinishFrom, FrontierMarker, OrderedIR, DrawsFrom, EdgesWithin, BlockAlike;
    BlockAlikeIsSymmetric(ids, s.frontier, t.frontier);
    if CanFinishFrom(ir, s) {
      FinishIsReplayed(ids, ir, s, t);
    }
    if CanFinishFrom(ir, t) {
      FinishIsReplayed(ids, ir, t, s);
    }
  }

  // ---- runs ----

  ghost predicate Extends(states: seq<Composite>, labels: seq<Label>, states': seq<Composite>, labels': seq<Label>) {
    states <= states' && labels <= labels'
  }

  /** The run can be continued to an empty network in a goal state. */
  ghost predicate CanFinish(ir: GroundedIR, states: seq<Composite>, labels: seq<Label>) {
    exists states', labels' :: Extends(states, labels, states', labels') && GoalSolution(ir, states', labels')
  }

  lemma RestIsPath(ir: GroundedIR, states: seq<Composite>, labels: seq<Label>, n: nat)
    requires Run(ir, states, labels) && n <= |labels|
    ensures Path(ir, states[n..], labels[n..])
  {
    forall i | 0 <= i < |labels[n..]| ensures Step(ir, states[n..][i], labels[n..][i], states[n..][i + 1]) {
      assert Step(ir, states[n + i], labels[n + i], states[n + i + 1]);
    }
  }

  lemma RunThenPath(
    ir: GroundedIR, states: seq<Composite>, labels: seq<Label>, states': seq<Composite>, labels': seq<Label>)
    requires Run(ir, states, labels) && Path(ir, states', labels') && states'[0] == states[|labels|]
    ensures Run(ir, states + states'[1..], labels + labels')
  {
    var all, moves := states + states'[1..], labels + labels';
    assert |states| == |labels| + 1;
    forall i | 0 <= i < |moves| ensures Step(ir, all[i], moves[i], all[i + 1]) {
      hide Step;
      if i < |labels| {
        assert Step(ir, states[i], labels[i], states[i + 1]);
        assert all[i] == states[i] && all[i + 1] == states[i + 1];
      } else {
        var j := i - |labels|;
        assert Step(ir, states'[j], labels'[j], states'[j + 1]);
        assert all[i] == states'[j] && all[i + 1] == states'[j + 1];
      }
    }
  }

  /** Whether a run can be completed depends on its last state only. */
  lemma CanFinishIff(ir: GroundedIR, states: seq<Composite>, labels: seq<Label>)
    requires Run(ir, states, labels)
    ensures CanFinish(ir, states, labels) <==> CanFinishFrom(ir, states[|labels|])
  {
    var n := |labels|;
    if CanFinish(ir, states, labels) {
      var states', labels' :| Extends(states, labels, states', labels') && GoalSolution(ir, states', labels');
      RestIsPath(ir, states', labels', n);
      assert Finishes(ir, states'[n..], labels'[n..]) && states'[n..][0] == states[n];
    }
    if CanFinishFrom(ir, states[n]) {
      var states', labels' :| Finishes(ir, states', labels') && states'[0] == states[n];
      RunThenPath(ir, states, labels, states', labels');
      assert (states + states'[1..])[|labels + labels'|] == states'[|labels'|];
      assert Extends(states, labels, states + states'[1..], labels + labels');
    }
  }

  /**
   * Two runs that end with equal facts and equal markers, in networks that block alike, can both be
   * continued to the goal, or neither can.
   */
  lemma MergedStatesSolveAlike(
    ids: Ids, ir: GroundedIR, states: seq<Composite>, labels: seq<Label>, others: seq<Composite>, moves: seq<Label>)
    requires OrderedIR(ir) && DrawsFrom(ir, ids) && Run(ir, states, labels) && Run(ir, others, moves)
    requires states[|labels|].facts == others[|moves|].facts
    requires FrontierMarker(states[|labels|].frontier) == FrontierMarker(others[|moves|].frontier)
    requires BlockAlike(ids, states[|labels|].frontier, others[|moves|].frontier)
    ensures CanFinish(ir, states, labels) <==> CanFinish(ir, others, moves)
  {
    RunKeepsEdgesWithin(ir, states, labels, |labels|);
    RunKeepsEdgesWithin(ir, others, moves, |moves|);
    CanFinishIff(ir, states, labels);
    CanFinishIff(ir, others, moves);
    hide Run, CanFinish, OrderedIR, FrontierMarker, DrawsFrom, BlockAlike, CanFinishFrom, EdgesWithin;
    MarkedStatesFinishAlike(ids, ir, states[|labels|], others[|moves|]);
  }
}
