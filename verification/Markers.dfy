// The marker fact that stands for a task network: equal markers mean networks of one shape.
module Markers {
  import opened Prelude
  import opened HddlAst
  import opened Names
  import opened TypeClosure
  import opened Htn

  // ---- fields with their lengths ----

  function Digit(d: nat): char
    requires d < 10
  {
    "0123456789"[d]
  }

  function Decimal(n: nat): (s: string)
    ensures s != "" && forall c | c in s :: c in "0123456789"
  {
    if n < 10 then [Digit(n)] else Decimal(n / 10) + [Digit(n % 10)]
  }

  /** A length-prefixed field. */
  function Field(s: string): string {
    Decimal(|s|) + ":" + s
  }

  function Fields(xs: seq<string>): string {
    if xs == [] then "" else Field(xs[0]) + Fields(xs[1..])
  }

  lemma {:induction false} DecimalInjective(m: nat, n: nat)
    requires Decimal(m) == Decimal(n)
    ensures m == n
  {
    OneDigit(m);
    OneDigit(n);
    if m < 10 {
      assert Decimal(m)[0] == Digit(m) && Decimal(n)[0] == Digit(n);
    } else {
      var s := Decimal(m);
      assert Decimal(m / 10) == s[..|s| - 1] == Decimal(n / 10);
      assert Digit(m % 10) == s[|s| - 1] == Digit(n % 10);
      DecimalInjective(m / 10, n / 10);
    }
  }

  lemma OneDigit(n: nat)
    ensures |Decimal(n)| == 1 <==> n < 10
  {
  }

  /** Two colon-free words followed by a colon can be told apart. */
  lemma SplitAtColon(a: string, s: string, b: string, t: string)
    requires ':' !in a && ':' !in b
    requires a + ":" + s == b + ":" + t
    ensures a == b && s == t
  {
    var u := a + ":" + s;
    assert u[|a|] == ':' && u[|b|] == ':';
    assert forall i | 0 <= i < |a| :: u[i] == a[i];
    assert forall i | 0 <= i < |b| :: u[i] == b[i];
    assert a == u[..|a|] == b;
    assert s == u[|a| + 1..] == t;
  }

  /** A field determines its content and what follows, whatever characters the content has. */
  lemma FieldSplits(x: string, s: string, y: string, t: string)
    requires Field(x) + s == Field(y) + t
    ensures x == y && s == t
  {
    assert Field(x) + s == Decimal(|x|) + ":" + (x + s);
    assert Field(y) + t == Decimal(|y|) + ":" + (y + t);
    SplitAtColon(Decimal(|x|), x + s, Decimal(|y|), y + t);
    DecimalInjective(|x|, |y|);
    assert x == (x + s)[..|x|] && y == (y + t)[..|y|];
    assert s == (x + s)[|x|..] && t == (y + t)[|y|..];
  }

  /** Two lists of fields, a semicolon between them, can be told apart. */
  lemma {:induction false} FieldsSplit(xs: seq<string>, s: string, ys: seq<string>, t: string)
    requires Fields(xs) + ";" + s == Fields(ys) + ";" + t
    ensures xs == ys && s == t
  {
    FirstCharacter(xs, s);
    FirstCharacter(ys, t);
    if xs == [] {
      assert (Fields(xs) + ";" + s)[1..] == s && (Fields(ys) + ";" + t)[1..] == t;
    } else {
      var u, w := Fields(xs[1..]) + ";" + s, Fields(ys[1..]) + ";" + t;
      FirstField(xs, s);
      FirstField(ys, t);
      hide Field, Fields;
      FieldSplits(xs[0], u, ys[0], w);
      FieldsSplit(xs[1..], s, ys[1..], t);
      assert xs == [xs[0]] + xs[1..] && ys == [ys[0]] + ys[1..];
    }
  }

  lemma FirstField(xs: seq<string>, s: string)
    requires xs != []
    ensures Fields(xs) + ";" + s == Field(xs[0]) + (Fields(xs[1..]) + ";" + s)
  {
  }

  lemma FirstCharacter(xs: seq<string>, s: string)
    ensures var u := Fields(xs) + ";" + s; u != "" && (u[0] == ';' <==> xs == [])
  {
    var u := Fields(xs) + ";" + s;
    if xs == [] {
      assert u == ";" + s;
    } else {
      var d := Decimal(|xs[0]|);
      assert u[0] == d[0] && d[0] in d;
    }
  }

  // ---- listing a set in order ----

  ghost predicate TotallyOrders<T(!new)>(leq: (T, T) -> bool) {
    && (forall x, y :: leq(x, y) || leq(y, x))
    && (forall x, y | leq(x, y) && leq(y, x) :: x == y)
    && (forall x, y, z | leq(x, y) && leq(y, z) :: leq(x, z))
  }

  lemma {:induction false} HasLeast<T(!new)>(s: set<T>, leq: (T, T) -> bool) returns (least: T)
    requires s != {} && TotallyOrders(leq)
    ensures least in s && forall x | x in s :: leq(least, x)
  {
    var x :| x in s;
    if s == {x} {
      least := x;
    } else {
      var l := HasLeast(s - {x}, leq);
      least := if leq(x, l) then x else l;
      assert forall y | y in s :: y == x || y in s - {x};
    }
  }

  /** The elements in increasing order. */
  ghost function InOrder<T(!new)>(s: set<T>, leq: (T, T) -> bool): (r: seq<T>)
    requires TotallyOrders(leq)
    ensures forall x :: x in r <==> x in s
    ensures forall i, j | 0 <= i < j < |r| :: leq(r[i], r[j]) && r[i] != r[j]
  {
    if s == {} then []
    else
      assert exists x :: x in s && forall y | y in s :: leq(x, y) by {
        var l := HasLeast(s, leq);
      }
      var x :| x in s && forall y | y in s :: leq(x, y);
      [x] + InOrder(s - {x}, leq)
  }

  lemma NamesAreOrdered()
    ensures TotallyOrders(NameLeq)
  {
    hide NameLeq;
    forall a: Name, b: Name ensures NameLeq(a, b) || NameLeq(b, a) ensures NameLeq(a, b) && NameLeq(b, a) ==> a == b {
      NameLeqTotal(a, b);
    }
    forall a: Name, b: Name, c: Name | NameLeq(a, b) && NameLeq(b, c) ensures NameLeq(a, c) {
      NameLeqTransitive(a, b, c);
    }
  }

  /** By the first component, then by the second. */
  predicate EdgeLeq(x: Edge, y: Edge) {
    if x.0 == y.0 then NameLeq(x.1, y.1) else NameLeq(x.0, y.0)
  }

  lemma EdgesAreOrdered()
    ensures TotallyOrders(EdgeLeq)
  {
    NamesAreOrdered();
    hide NameLeq;
    forall x: Edge, y: Edge, z: Edge | EdgeLeq(x, y) && EdgeLeq(y, z) ensures EdgeLeq(x, z) {
      assert NameLeq(x.0, z.0);
    }
  }

  predicate RankLeq(x: (nat, nat), y: (nat, nat)) {
    x.0 < y.0 || (x.0 == y.0 && x.1 <= y.1)
  }

  // ---- total orders ----

  /** Every constraint into `a` starts at a node already ranked. */
  predicate Ready(order: set<Edge>, done: seq<Addr>, a: Addr) {
    forall e | e in order && e.1 == a :: e.0 in done
  }

  function ReadyNodes(f: Frontier, done: seq<Addr>): set<Addr> {
    set a | a in f.pending && a !in done && Ready(f.order, done, a)
  }

  /** Ranks one node after the other, as long as exactly one is ready. */
  ghost function RankFrom(f: Frontier, done: seq<Addr>): Option<seq<Addr>>
    requires Elems(done) <= f.pending.Keys
    decreases |f.pending.Keys - Elems(done)|
  {
    if Elems(done) == f.pending.Keys then Some(done)
    else if |ReadyNodes(f, done)| != 1 then None
    else
      var a :| a in ReadyNodes(f, done);
      assert f.pending.Keys - Elems(done + [a]) == f.pending.Keys - Elems(done) - {a};
      RankFrom(f, done + [a])
  }

  /** The pending nodes by rank, if the constraints leave no choice between them. */
  ghost function TotalOrder(f: Frontier): Option<seq<Addr>> {
    if exists e | e in f.order :: e.1 !in f.pending then None else RankFrom(f, [])
  }

  /** Every constraint goes forward in the list. */
  ghost predicate Forward(order: set<Edge>, r: seq<Addr>) {
    forall e | e in order :: exists i, j :: 0 <= i < j < |r| && e == (r[i], r[j])
  }

  /** A constraint leads from each node of the list to the next. */
  ghost predicate Consecutive(order: set<Edge>, r: seq<Addr>) {
    forall i | 0 <= i < |r| - 1 :: (r[i], r[i + 1]) in order
  }

  /** The pending nodes, in the only order that the constraints allow. */
  ghost predicate IsLine(f: Frontier, r: seq<Addr>) {
    Unrepeated(r) && Elems(r) == f.pending.Keys && Forward(f.order, r) && Consecutive(f.order, r)
  }

  /** What has been ranked so far: constraints into it come from before, and each node leads to the next. */
  ghost predicate LineSoFar(f: Frontier, done: seq<Addr>) {
    && Unrepeated(done) && Elems(done) <= f.pending.Keys
    && (forall e, j | e in f.order && 0 <= j < |done| && e.1 == done[j] :: e.0 in done[..j])
    && forall i | 0 <= i < |done| - 1 :: (done[i], done[i + 1]) in f.order
  }

  lemma TheOnly(s: set<Addr>, a: Addr, b: Addr)
    requires |s| == 1 && a in s && b in s
    ensures a == b
  {
    assert |s - {a}| == 0;
    assert a != b ==> b in s - {a};
  }

  lemma LineGrows(f: Frontier, done: seq<Addr>, a: Addr)
    requires LineSoFar(f, done) && a in ReadyNodes(f, done)
    requires done != [] ==> !Ready(f.order, done[..|done| - 1], a)
    ensures LineSoFar(f, done + [a])
  {
    var next := done + [a];
    forall e, j | e in f.order && 0 <= j < |next| && e.1 == next[j] ensures e.0 in next[..j] {
      if j < |done| {
        assert next[..j] == done[..j];
      } else {
        assert next[..j] == done;
      }
    }
    forall i | 0 <= i < |next| - 1 ensures (next[i], next[i + 1]) in f.order {
      if i == |done| - 1 {
        var e :| e in f.order && e.1 == a && e.0 !in done[..i];
        assert e.0 in done;
        assert e == (done[i], a);
      }
    }
  }

  lemma AllRanked(f: Frontier, done: seq<Addr>)
    requires LineSoFar(f, done) && Elems(done) == f.pending.Keys && forall e | e in f.order :: e.1 in f.pending
    ensures IsLine(f, done)
  {
    forall e | e in f.order ensures exists i, j :: 0 <= i < j < |done| && e == (done[i], done[j]) {
      assert e.1 in Elems(done);
      var j :| 0 <= j < |done| && done[j] == e.1;
      var i :| 0 <= i < j && done[..j][i] == e.0;
      assert e == (done[i], done[j]);
    }
  }

  lemma RankNext(f: Frontier, done: seq<Addr>) returns (a: Addr)
    requires Elems(done) <= f.pending.Keys && Elems(done) != f.pending.Keys && |ReadyNodes(f, done)| == 1
    ensures ReadyNodes(f, done) == {a} && Elems(done + [a]) == Elems(done) + {a} <= f.pending.Keys
    ensures f.pending.Keys - Elems(done + [a]) == f.pending.Keys - Elems(done) - {a} && a in f.pending.Keys - Elems(done)
    ensures RankFrom(f, done) == RankFrom(f, done + [a])
  {
    a :| a in ReadyNodes(f, done) && RankFrom(f, done) == RankFrom(f, done + [a]);
    forall b | b in ReadyNodes(f, done) ensures b == a {
      TheOnly(ReadyNodes(f, done), a, b);
    }
  }

  /** A successful ranking is a line. */
  lemma {:induction false} RankedIsLine(f: Frontier, done: seq<Addr>)
    requires LineSoFar(f, done) && forall e | e in f.order :: e.1 in f.pending
    requires done != [] ==> forall a | a in f.pending && a !in done :: !Ready(f.order, done[..|done| - 1], a)
    ensures RankFrom(f, done).Some? ==> IsLine(f, RankFrom(f, done).value)
    decreases |f.pending.Keys - Elems(done)|
  {
    if Elems(done) == f.pending.Keys {
      AllRanked(f, done);
    } else if |ReadyNodes(f, done)| == 1 {
      var a := RankNext(f, done);
      LineGrows(f, done, a);
      assert (done + [a])[..|done|] == done;
      hide LineSoFar, Ready, RankFrom, IsLine;
      assert forall b | b in f.pending && b !in done + [a] :: b !in ReadyNodes(f, done);
      RankedIsLine(f, done + [a]);
    }
  }

  lemma LaterIsNotReady(f: Frontier, r: seq<Addr>, n: nat, k: nat)
    requires IsLine(f, r) && n < k < |r|
    ensures !Ready(f.order, r[..n], r[k])
  {
    assert (r[k - 1], r[k - 1 + 1]) in f.order;
    assert r[k - 1] !in r[..n];
  }

  lemma NextMayFollow(f: Frontier, r: seq<Addr>, n: nat)
    requires IsLine(f, r) && n < |r|
    ensures Ready(f.order, r[..n], r[n])
  {
    forall e | e in f.order && e.1 == r[n] ensures e.0 in r[..n] {
      var i, j :| 0 <= i < j < |r| && e == (r[i], r[j]);
      assert j == n;
      assert r[..n][i] == e.0;
    }
  }

  /** In a line exactly the next node is ready. */
  lemma NextIsReady(f: Frontier, r: seq<Addr>, n: nat)
    requires IsLine(f, r) && n < |r|
    ensures ReadyNodes(f, r[..n]) == {r[n]}
  {
    NextMayFollow(f, r, n);
    forall k | n < k < |r| ensures !Ready(f.order, r[..n], r[k]) {
      LaterIsNotReady(f, r, n, k);
    }
    assert forall x :: x in f.pending <==> x in Elems(r);
    assert r[n] in r && r[n] !in r[..n];
    forall k | 0 <= k < n ensures r[k] in r[..n] {
      assert r[..n][k] == r[k];
    }
    hide Ready;
    forall a | a in ReadyNodes(f, r[..n]) ensures a == r[n] {
      var k :| 0 <= k < |r| && r[k] == a;
    }
  }

  lemma RankOnly(f: Frontier, done: seq<Addr>, a: Addr)
    requires Elems(done) <= f.pending.Keys && a in f.pending.Keys && a !in done && ReadyNodes(f, done) == {a}
    ensures Elems(done + [a]) <= f.pending.Keys && RankFrom(f, done) == RankFrom(f, done + [a])
  {
    hide ReadyNodes;
    assert a !in Elems(done);
    var b := RankNext(f, done);
  }

  lemma LineParts(f: Frontier, r: seq<Addr>, n: nat)
    requires IsLine(f, r) && n <= |r|
    ensures Elems(r) == f.pending.Keys && Elems(r[..n]) <= f.pending.Keys
    ensures n < |r| ==> r[n] in f.pending.Keys && r[n] !in r[..n]
  {
    assert forall x | x in r[..n] :: x in Elems(r);
    assert n < |r| ==> r[n] in Elems(r);
  }

  lemma {:induction false} LineIsRanked(f: Frontier, r: seq<Addr>, n: nat)
    requires IsLine(f, r) && n <= |r|
    ensures Elems(r[..n]) <= f.pending.Keys && RankFrom(f, r[..n]) == Some(r)
    decreases |r| - n
  {
    hide IsLine, Elems, ReadyNodes;
    LineParts(f, r, n);
    if n == |r| {
      assert r[..n] == r;
    } else {
      hide RankFrom;
      NextIsReady(f, r, n);
      RankOnly(f, r[..n], r[n]);
      assert r[..n + 1] == r[..n] + [r[n]];
      LineIsRanked(f, r, n + 1);
    }
  }

  /** The nodes are ranked exactly when the constraints put them in a line; the ranking is that line. */
  lemma TotalOrderIff(f: Frontier, r: seq<Addr>)
    ensures TotalOrder(f) == Some(r) <==> IsLine(f, r)
  {
    if TotalOrder(f) == Some(r) {
      RankedIsLine(f, []);
    }
    if IsLine(f, r) {
      forall e | e in f.order ensures e.1 in f.pending {
        var i, j :| 0 <= i < j < |r| && e == (r[i], r[j]);
        assert r[j] in Elems(r);
      }
      LineIsRanked(f, r, 0);
      assert r[..0] == [];
    }
  }

  // ---- the ranking loop ----

  /** The constraints into `a` that start at a node not yet ranked. */
  function Blockers(order: set<Edge>, done: seq<Addr>, a: Addr): set<Edge> {
    set e | e in order && e.1 == a && e.0 !in done
  }

  /** The remaining nodes, each with the number of its blockers. */
  ghost predicate Counted(f: Frontier, done: seq<Addr>, remaining: map<Addr, nat>) {
    && remaining.Keys == f.pending.Keys - Elems(done)
    && forall a | a in remaining :: remaining[a] == |Blockers(f.order, done, a)|
  }

  /** Counts each node's constraints; `None` if a constraint leads outside the pending nodes. */
  method CountBlockers(f: Frontier) returns (indeg: Option<map<Addr, nat>>)
    ensures indeg.None? <==> exists e | e in f.order :: e.1 !in f.pending
    ensures indeg.Some? ==> Counted(f, [], indeg.value)
  {
    var counts: map<Addr, nat> := map a | a in f.pending :: 0;
    var todo := f.order;
    while todo != {}
      invariant todo <= f.order && counts.Keys == f.pending.Keys
      invariant forall e | e in f.order - todo :: e.1 in f.pending
      invariant forall a | a in counts :: counts[a] == |Blockers(f.order - todo, [], a)|
      decreases todo
    {
      var e :| e in todo;
      if e.1 !in counts {
        return None;
      }
      var rest := todo - {e};
      forall a {
        OneMoreBlocker(f.order, todo, e, a);
      }
      counts := counts[e.1 := counts[e.1] + 1];
      todo := rest;
    }
    assert f.order - {} == f.order;
    indeg := Some(counts);
  }

  lemma OneMoreBlocker(order: set<Edge>, todo: set<Edge>, e: Edge, a: Addr)
    requires e in todo && todo <= order
    ensures |Blockers(order - (todo - {e}), [], a)| == |Blockers(order - todo, [], a)| + if e.1 == a then 1 else 0
  {
    var before, after := Blockers(order - todo, [], a), Blockers(order - (todo - {e}), [], a);
    if e.1 == a {
      assert after == before + {e};
    } else {
      assert after == before;
    }
  }

  /** Takes the constraints that start at `next` off the counts. */
  method Discharge(f: Frontier, ghost done: seq<Addr>, next: Addr, remaining0: map<Addr, nat>)
    returns (remaining: map<Addr, nat>)
    requires next in f.pending && next !in done && Counted(f, done, remaining0)
    ensures Counted(f, done + [next], remaining)
  {
    remaining := remaining0 - {next};
    var todo := f.order;
    ghost var keys := remaining.Keys;
    while todo != {}
      invariant todo <= f.order && remaining.Keys == keys
      invariant forall a | a in remaining ::
                  remaining[a] == |Blockers(f.order, done, a)| - |From(f.order - todo, next, a)|
      decreases todo
    {
      var e :| e in todo;
      forall a {
        OneMoreFrom(f.order, todo, e, next, a);
      }
      if e.0 == next && e.1 in remaining {
        StillBlocked(f.order, done, next, e);
        remaining := remaining[e.1 := remaining[e.1] - 1];
      }
      todo := todo - {e};
    }
    forall a | a in remaining ensures remaining[a] == |Blockers(f.order, done + [next], a)| {
      BlockersLeft(f.order, done, next, a);
      assert f.order - {} == f.order;
    }
    assert Elems(done + [next]) == Elems(done) + {next};
  }

  function From(order: set<Edge>, b: Addr, a: Addr): set<Edge> {
    set e | e in order && e == (b, a)
  }

  lemma OneMoreFrom(order: set<Edge>, todo: set<Edge>, e: Edge, b: Addr, a: Addr)
    requires e in todo && todo <= order
    ensures |From(order - (todo - {e}), b, a)| == |From(order - todo, b, a)| + if e == (b, a) then 1 else 0
    ensures e == (b, a) ==> |From(order - todo, b, a)| == 0
  {
    var before, after := From(order - todo, b, a), From(order - (todo - {e}), b, a);
    if e == (b, a) {
      assert before == {} && after == {e};
    } else {
      assert after == before;
    }
  }

  lemma StillBlocked(order: set<Edge>, done: seq<Addr>, b: Addr, e: Edge)
    requires e in order && e.0 == b && b !in done
    ensures |Blockers(order, done, e.1)| > 0
  {
    assert e in Blockers(order, done, e.1);
  }

  lemma BlockersLeft(order: set<Edge>, done: seq<Addr>, next: Addr, a: Addr)
    requires next !in done
    ensures |Blockers(order, done + [next], a)| == |Blockers(order, done, a)| - |From(order, next, a)|
  {
    assert Blockers(order, done, a) == Blockers(order, done + [next], a) + From(order, next, a);
    assert Blockers(order, done + [next], a) !! From(order, next, a);
  }

  /** The nodes without blockers are the ready ones. */
  lemma UnblockedAreReady(f: Frontier, done: seq<Addr>, remaining: map<Addr, nat>)
    requires Counted(f, done, remaining)
    ensures (set a | a in remaining && remaining[a] == 0) == ReadyNodes(f, done)
  {
    forall a | a in remaining ensures remaining[a] == 0 <==> Ready(f.order, done, a) {
      var blockers := Blockers(f.order, done, a);
      if Ready(f.order, done, a) {
        assert blockers == {};
      } else {
        var e :| e in f.order && e.1 == a && e.0 !in done;
        assert e in blockers;
      }
    }
  }

  /** Kahn's algorithm, giving up as soon as not exactly one node is ready. */
  method TotalOrderRanks(f: Frontier) returns (r: Option<seq<Addr>>)
    ensures r == TotalOrder(f)
  {
    var indeg := CountBlockers(f);
    if indeg.None? {
      return None;
    }
    var remaining := indeg.value;
    var ranks: seq<Addr> := [];
    while remaining != map[]
      invariant Elems(ranks) <= f.pending.Keys && Counted(f, ranks, remaining)
      invariant TotalOrder(f) == RankFrom(f, ranks)
      decreases remaining.Keys
    {
      hide Counted, RankFrom, TotalOrder, ReadyNodes;
      UnblockedAreReady(f, ranks, remaining);
      RemainingLeft(f, ranks, remaining);
      var zero := set a | a in remaining && remaining[a] == 0;
      if |zero| != 1 {
        RankStops(f, ranks);
        return None;
      }
      var next := TheElement(zero);
      ghost var a := RankNext(f, ranks);
      assert next == a;
      ghost var before := remaining;
      remaining := Discharge(f, ranks, next, remaining);
      ranks := ranks + [next];
      RemainingLeft(f, ranks, remaining);
      assert a in before;
    }
    RemainingLeft(f, ranks, remaining);
    r := Some(ranks);
  }

  lemma RemainingLeft(f: Frontier, done: seq<Addr>, remaining: map<Addr, nat>)
    requires Counted(f, done, remaining) && Elems(done) <= f.pending.Keys
    ensures remaining.Keys == f.pending.Keys - Elems(done)
    ensures remaining == map[] <==> Elems(done) == f.pending.Keys
  {
    if remaining == map[] {
      forall a | a in f.pending.Keys ensures a in Elems(done) {
        assert a !in remaining.Keys;
      }
    } else {
      var a :| a in remaining;
      assert a in f.pending.Keys && a !in Elems(done);
    }
  }

  lemma RankStops(f: Frontier, done: seq<Addr>)
    requires Elems(done) <= f.pending.Keys && Elems(done) != f.pending.Keys && |ReadyNodes(f, done)| != 1
    ensures RankFrom(f, done) == None
  {
  }

  method TheElement(s: set<Addr>) returns (a: Addr)
    requires |s| == 1
    ensures s == {a}
  {
    a :| a in s;
    assert |s - {a}| == 0;
    assert s == s - {a} + {a};
  }

  // ---- the marker ----

  function PairFields(xs: seq<(string, string)>): seq<string> {
    if xs == [] then [] else [xs[0].0, xs[0].1] + PairFields(xs[1..])
  }

  /** The tasks in rank order. */
  function RankedTasks(f: Frontier, r: seq<Addr>): seq<string>
    requires Elems(r) <= f.pending.Keys
  {
    seq(|r|, i requires 0 <= i < |r| => assert r[i] in Elems(r); f.pending[r[i]])
  }

  /** The constraints between ranks. */
  function RankedEdges(order: set<Edge>, r: seq<Addr>): set<(nat, nat)> {
    set i, j | 0 <= i < |r| && 0 <= j < |r| && (r[i], r[j]) in order :: (i as nat, j as nat)
  }

  function RankFields(xs: seq<(nat, nat)>): seq<(string, string)> {
    seq(|xs|, i requires 0 <= i < |xs| => (Decimal(xs[i].0), Decimal(xs[i].1)))
  }

  function PendingFields(pending: map<Addr, string>, addrs: seq<Addr>): seq<(string, string)>
    requires Elems(addrs) <= pending.Keys
  {
    seq(|addrs|, i requires 0 <= i < |addrs| => assert addrs[i] in Elems(addrs); (addrs[i], pending[addrs[i]]))
  }

  const CANONICAL := "htn-frontier-canon:"
  const RAW := "htn-frontier:"
  const DONE := "htn:done"

  ghost function CanonicalMarker(f: Frontier, r: seq<Addr>): string
    requires Elems(r) <= f.pending.Keys
  {
    CANONICAL + (Fields(RankedTasks(f, r)) + ";" + Fields(PairFields(RankFields(InOrder(RankedEdges(f.order, r), RankLeq)))))
  }

  ghost function RawMarker(f: Frontier): string {
    NamesAreOrdered();
    EdgesAreOrdered();
    RAW + (Fields(PairFields(PendingFields(f.pending, InOrder(f.pending.Keys, NameLeq)))) + ";"
           + Fields(PairFields(InOrder(f.order, EdgeLeq))))
  }

  /** The fact that stands for the task network: by rank if the nodes are in a line, else by address. */
  ghost function FrontierMarker(f: Frontier): string {
    match TotalOrder(f)
    case Some(r) =>
      TotalOrderIff(f, r);
      CanonicalMarker(f, r)
    case None => RawMarker(f)
  }

  lemma {:induction false} PairFieldsInjective(xs: seq<(string, string)>, ys: seq<(string, string)>)
    requires PairFields(xs) == PairFields(ys)
    ensures xs == ys
  {
    if xs == [] || ys == [] {
    } else {
      var u, w := PairFields(xs), PairFields(ys);
      assert u[0] == xs[0].0 && u[1] == xs[0].1 && u[2..] == PairFields(xs[1..]);
      assert w[0] == ys[0].0 && w[1] == ys[0].1 && w[2..] == PairFields(ys[1..]);
      PairFieldsInjective(xs[1..], ys[1..]);
      assert xs == [xs[0]] + xs[1..] && ys == [ys[0]] + ys[1..];
    }
  }

  /** Two lists of fields with a semicolon between them determine both lists. */
  lemma TwoLists(xs: seq<string>, us: seq<string>, ys: seq<string>, ws: seq<string>)
    requires Fields(xs) + ";" + Fields(us) == Fields(ys) + ";" + Fields(ws)
    ensures xs == ys && us == ws
  {
    hide Fields;
    FieldsSplit(xs, Fields(us), ys, Fields(ws));
    FieldsSplit(us, "", ws, "");
  }

  lemma RankFieldsInjective(xs: seq<(nat, nat)>, ys: seq<(nat, nat)>)
    requires RankFields(xs) == RankFields(ys)
    ensures xs == ys
  {
    assert |xs| == |RankFields(xs)| == |RankFields(ys)| == |ys|;
    hide Decimal;
    forall i | 0 <= i < |xs| ensures xs[i] == ys[i] {
      assert RankFields(xs)[i] == RankFields(ys)[i];
      DecimalInjective(xs[i].0, ys[i].0);
      DecimalInjective(xs[i].1, ys[i].1);
    }
  }

  lemma CanonicalMarkersAgree(f: Frontier, r: seq<Addr>, g: Frontier, q: seq<Addr>)
    requires Elems(r) <= f.pending.Keys && Elems(q) <= g.pending.Keys
    ensures CanonicalMarker(f, r) == CanonicalMarker(g, q) <==>
              RankedTasks(f, r) == RankedTasks(g, q) && RankedEdges(f.order, r) == RankedEdges(g.order, q)
  {
    if CanonicalMarker(f, r) == CanonicalMarker(g, q) {
      hide Fields, PairFields, RankFields, RankedTasks, RankedEdges, InOrder, Decimal;
      var ts, us := RankedTasks(f, r), RankedTasks(g, q);
      var es, ds := InOrder(RankedEdges(f.order, r), RankLeq), InOrder(RankedEdges(g.order, q), RankLeq);
      var m := CanonicalMarker(f, r);
      assert m[|CANONICAL|..] == Fields(ts) + ";" + Fields(PairFields(RankFields(es)));
      assert m[|CANONICAL|..] == Fields(us) + ";" + Fields(PairFields(RankFields(ds)));
      TwoLists(ts, PairFields(RankFields(es)), us, PairFields(RankFields(ds)));
      PairFieldsInjective(RankFields(es), RankFields(ds));
      RankFieldsInjective(es, ds);
      assert forall x :: x in RankedEdges(f.order, r) <==> x in es;
      assert forall x :: x in RankedEdges(g.order, q) <==> x in ds;
    }
  }

  lemma PendingFieldsInjective(p: map<Addr, string>, xs: seq<Addr>, q: map<Addr, string>, ys: seq<Addr>)
    requires Elems(xs) == p.Keys && Elems(ys) == q.Keys && PendingFields(p, xs) == PendingFields(q, ys)
    ensures p == q
  {
    var us, ws := PendingFields(p, xs), PendingFields(q, ys);
    assert |xs| == |us| == |ws| == |ys|;
    forall i | 0 <= i < |xs| ensures xs[i] == ys[i] && xs[i] in p && ys[i] in q && p[xs[i]] == q[ys[i]] {
      assert us[i] == ws[i];
      assert xs[i] in Elems(xs) && ys[i] in Elems(ys);
    }
    assert xs == ys;
    forall a | a in p ensures a in q && p[a] == q[a] {
      assert a in Elems(xs);
      var i :| 0 <= i < |xs| && xs[i] == a;
    }
  }

  lemma RawMarkersAgree(f: Frontier, g: Frontier)
    requires RawMarker(f) == RawMarker(g)
    ensures f == g
  {
    NamesAreOrdered();
    EdgesAreOrdered();
    hide Fields, PairFields, PendingFields, InOrder, NameLeq, EdgeLeq, TotallyOrders;
    var as', bs := InOrder(f.pending.Keys, NameLeq), InOrder(g.pending.Keys, NameLeq);
    var es, ds := InOrder(f.order, EdgeLeq), InOrder(g.order, EdgeLeq);
    var ps, qs := PendingFields(f.pending, as'), PendingFields(g.pending, bs);
    var m := RawMarker(f);
    assert m[|RAW|..] == Fields(PairFields(ps)) + ";" + Fields(PairFields(es));
    assert m[|RAW|..] == Fields(PairFields(qs)) + ";" + Fields(PairFields(ds));
    TwoLists(PairFields(ps), PairFields(es), PairFields(qs), PairFields(ds));
    PairFieldsInjective(ps, qs);
    PairFieldsInjective(es, ds);
    PendingFieldsInjective(f.pending, as', g.pending, bs);
    assert forall e :: e in f.order <==> e in es;
    assert forall e :: e in g.order <==> e in ds;
  }

  /** A marker by rank is never a marker by address. */
  lemma MarkerKinds(x: string, y: string)
    ensures CANONICAL + x != RAW + y
  {
    assert (CANONICAL + x)[12] == '-' && (RAW + y)[12] == ':';
  }

  /** No atom's string starts like this if its predicate has no colon. */
  lemma ColonBeforeParenthesis(p: Name, args: seq<Name>, k: string, i: nat)
    requires ':' !in p && i < |k| && k[i] == ':' && '(' !in k[..i]
    ensures AtomKey(p, args) != k
  {
    var w := AtomKey(p, args);
    assert forall j | 0 <= j < |p| :: w[j] == p[j];
    assert args != [] ==> |p| < |w| && w[|p|] == '(';
    assert forall j | 0 <= j < i :: k[..i][j] == k[j];
    assert forall j | 0 <= j < i :: k[j] != '(' by {
      forall j | 0 <= j < i ensures k[j] != '(' {
        assert k[..i][j] in k[..i];
      }
    }
  }

  /** A marker is never the string of an atom whose predicate has no colon. */
  lemma MarkerIsNoFact(f: Frontier, p: Name, args: seq<Name>)
    requires ':' !in p
    ensures AtomKey(p, args) != FrontierMarker(f) && AtomKey(p, args) != DONE
  {
    ColonBeforeParenthesis(p, args, DONE, 3);
    if TotalOrder(f).Some? {
      var r := TotalOrder(f).value;
      TotalOrderIff(f, r);
      hide TotalOrder, Fields, PairFields, RankFields, RankedTasks, RankedEdges, InOrder, AtomKey;
      PrefixIsNoFact(
        Fields(RankedTasks(f, r)) + ";" + Fields(PairFields(RankFields(InOrder(RankedEdges(f.order, r), RankLeq)))), p, args);
    } else {
      NamesAreOrdered();
      EdgesAreOrdered();
      hide TotalOrder, Fields, PairFields, PendingFields, InOrder, AtomKey, NameLeq, EdgeLeq;
      PrefixIsNoFact(
        Fields(PairFields(PendingFields(f.pending, InOrder(f.pending.Keys, NameLeq)))) + ";"
        + Fields(PairFields(InOrder(f.order, EdgeLeq))), p, args);
    }
  }

  lemma PrefixIsNoFact(x: string, p: Name, args: seq<Name>)
    requires ':' !in p
    ensures AtomKey(p, args) != CANONICAL + x && AtomKey(p, args) != RAW + x
  {
    hide AtomKey;
    var k, w := CANONICAL + x, RAW + x;
    assert k[..18] == CANONICAL[..18] && k[18] == ':';
    assert w[..12] == RAW[..12] && w[12] == ':';
    ColonBeforeParenthesis(p, args, k, 18);
    ColonBeforeParenthesis(p, args, w, 12);
  }
}
