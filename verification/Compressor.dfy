// Turning a durative action into one instantaneous action: start, over-all and end conditions
// become its precondition, start effects then end effects become its effect.
module Compressor {
  import opened Prelude
  import opened SExpressions

  datatype Instant = AtStart | OverAll | AtEnd

  predicate Headed(f: Sexp, name: string) {
    f.List? && f.items != [] && f.items[0] == Atom(name)
  }

  // ---- reading formulas ----

  /** The conjuncts of a formula, nested conjunctions flattened. */
  function Conj(f: Sexp): seq<Sexp>
    decreases f
  {
    if Headed(f, "and") then ConjAll(f.items[1..])
    else if f == List([]) then []
    else [f]
  }

  function ConjAll(fs: seq<Sexp>): seq<Sexp>
    decreases fs
  {
    if fs == [] then [] else Conj(fs[0]) + ConjAll(fs[1..])
  }

  /** The instant named by a time-specified formula such as (at start f). */
  function Timing(f: Sexp): Option<Instant> {
    if f.Atom? || |f.items| != 3 then None
    else if f.items[0] == Atom("at") && f.items[1] == Atom("start") then Some(AtStart)
    else if f.items[0] == Atom("over") && f.items[1] == Atom("all") then Some(OverAll)
    else if f.items[0] == Atom("at") && f.items[1] == Atom("end") then Some(AtEnd)
    else None
  }

  /** The first time specifier anywhere inside a formula. */
  function WhenOf(f: Sexp): Option<Instant>
    decreases f
  {
    if Timing(f).Some? then Timing(f)
    else if f.Atom? then None
    else WhenOfAny(f.items)
  }

  function WhenOfAny(fs: seq<Sexp>): Option<Instant>
    decreases fs
  {
    if fs == [] then None
    else if WhenOf(fs[0]).Some? then WhenOf(fs[0])
    else WhenOfAny(fs[1..])
  }

  /** The formula without its time specifiers. */
  function Strip(f: Sexp): Sexp
    decreases f
  {
    if Timing(f).Some? then Strip(f.items[2])
    else if f.Atom? then f
    else List(StripAll(f.items))
  }

  function StripAll(fs: seq<Sexp>): (r: seq<Sexp>)
    ensures |r| == |fs|
    decreases fs
  {
    if fs == [] then [] else [Strip(fs[0])] + StripAll(fs[1..])
  }

  /** Conjunctions flatten part by part, in order. */
  lemma {:induction false} ConjSplits(xs: seq<Sexp>, ys: seq<Sexp>)
    ensures ConjAll(xs + ys) == ConjAll(xs) + ConjAll(ys)
  {
    if xs == [] {
      assert xs + ys == ys;
    } else {
      assert (xs + ys)[1..] == xs[1..] + ys;
      ConjSplits(xs[1..], ys);
    }
  }

  lemma ConjOfAnd(f: Sexp, xs: seq<Sexp>, ys: seq<Sexp>)
    ensures Conj(List([Atom("and")] + xs + ys)) == Conj(List([Atom("and")] + xs)) + Conj(List([Atom("and")] + ys))
    ensures Conj(List([Atom("and"), f])) == Conj(f)
    ensures Conj(f) == [] || Conj(f) == [f] || Headed(f, "and")
    ensures Conj(f) == [f] <== !Headed(f, "and") && f != List([])
    ensures Conj(List([])) == []
  {
    assert ([Atom("and")] + xs + ys)[1..] == xs + ys;
    assert ([Atom("and")] + xs)[1..] == xs && ([Atom("and")] + ys)[1..] == ys;
    ConjSplits(xs, ys);
    assert [Atom("and"), f][1..] == [f] && [f][1..] == [] && Conj(f) + [] == Conj(f);
    assert ConjAll([f]) == Conj(f) + ConjAll([]);
  }

  lemma {:induction false} FirstTimed(xs: seq<Sexp>, i: nat)
    requires i < |xs| && WhenOf(xs[i]).Some? && forall j | 0 <= j < i :: WhenOf(xs[j]) == None
    ensures WhenOfAny(xs) == WhenOf(xs[i])
  {
    if i > 0 {
      FirstTimed(xs[1..], i - 1);
    }
  }

  /** The time of a formula is that of its first timed part; without its time specifiers it is the same list of stripped parts. */
  lemma TimeInside(xs: seq<Sexp>, i: nat)
    requires Timing(List(xs)) == None && i < |xs| && forall j | 0 <= j < i :: WhenOf(xs[j]) == None
    ensures WhenOf(xs[i]).Some? ==> WhenOf(List(xs)) == WhenOf(xs[i])
    ensures Strip(List(xs)).List? && |Strip(List(xs)).items| == |xs| && Strip(List(xs)).items[i] == Strip(xs[i])
  {
    StripAllAt(xs, i);
    if WhenOf(xs[i]).Some? {
      FirstTimed(xs, i);
    }
  }

  lemma {:induction false} StripAllAt(fs: seq<Sexp>, i: nat)
    requires i < |fs|
    ensures StripAll(fs)[i] == Strip(fs[i])
  {
    if i > 0 {
      StripAllAt(fs[1..], i - 1);
    }
  }

  /** The formula without its preferences, or nothing if it is only a preference. */
  function DropPrefs(f: Sexp): Option<Sexp>
    decreases f
  {
    if Headed(f, "preference") then None
    else if Headed(f, "and") then Some(List([Atom("and")] + DropAllPrefs(f.items[1..])))
    else if Headed(f, "forall") && |f.items| == 3 then
      var k := DropPrefs(f.items[2]);
      if k == None || k == Some(List([Atom("and")])) then None
      else Some(List([Atom("forall"), f.items[1], k.value]))
    else Some(f)
  }

  function DropAllPrefs(fs: seq<Sexp>): seq<Sexp>
    decreases fs
  {
    if fs == [] then []
    else
      var k := DropPrefs(fs[0]);
      (if k.Some? then [k.value] else []) + DropAllPrefs(fs[1..])
  }

  // ---- reading effects ----

  const NUMERIC: set<string> := {"increase", "decrease", "assign", "scale-up", "scale-down"}

  /** A literal: neither numeric nor conditional nor quantified. */
  predicate Simple(e: Sexp) {
    && e.List? && e.items != []
    && (e.items[0].Atom? ==> e.items[0].text !in NUMERIC + {"forall", "when"})
  }

  predicate IsChange(e: Sexp) {
    Headed(e, "increase") || Headed(e, "decrease")
  }

  /** What the program indexes without checking: a negation has an operand, a change a fluent and an amount. */
  predicate Indexable(e: Sexp) {
    (Headed(e, "not") ==> |e.items| > 1) && (IsChange(e) ==> |e.items| > 2)
  }

  predicate AllIndexable(es: seq<Sexp>) {
    forall e | e in es :: Indexable(e)
  }

  /** The printed atom of a literal. */
  function LiteralKey(e: Sexp): string
    requires Indexable(e)
  {
    if Headed(e, "not") then Dump(e.items[1]) else Dump(e)
  }

  function FluentKey(e: Sexp): string
    requires IsChange(e) && Indexable(e)
  {
    Dump(e.items[1])
  }

  /** The value after the last occurrence of a keyword in the action's property list. */
  function FieldFrom(items: seq<Sexp>, key: string, i: nat): Option<Sexp>
    decreases |items| - i
  {
    if i + 1 >= |items| then None
    else
      var later := FieldFrom(items, key, i + 2);
      if later.Some? then later
      else if items[i] == Atom(key) then Some(items[i + 1])
      else None
  }

  /** Every other item from `i` on is a keyword with its value behind it. */
  predicate IsPlace(items: seq<Sexp>, i: nat, j: int) {
    i <= j < |items| - 1 && (j - i) % 2 == 0
  }

  /** The value behind the last place of a keyword counts. */
  lemma {:induction false} FieldIsLast(items: seq<Sexp>, key: string, i: nat, j: nat)
    requires IsPlace(items, i, j) && items[j] == Atom(key)
    requires forall l | j < l && IsPlace(items, i, l) :: items[l] != Atom(key)
    ensures FieldFrom(items, key, i) == Some(items[j + 1])
    decreases |items| - i
  {
    if i == j {
      FieldAbsent(items, key, i + 2);
    } else {
      FieldIsLast(items, key, i + 2, j);
    }
  }

  lemma {:induction false} FieldAbsent(items: seq<Sexp>, key: string, i: nat)
    requires forall l | IsPlace(items, i, l) :: items[l] != Atom(key)
    ensures FieldFrom(items, key, i) == None
    decreases |items| - i
  {
    if i + 1 < |items| {
      assert IsPlace(items, i, i);
      assert forall l | IsPlace(items, i + 2, l) :: IsPlace(items, i, l);
      FieldAbsent(items, key, i + 2);
    }
  }

  function Field(da: Sexp, key: string): Sexp
    requires da.List?
  {
    match FieldFrom(da.items, key, 2)
    case None => List([])
    case Some(x) => x
  }

  predicate IsHard(c: Sexp) {
    DropPrefs(Strip(c)).Some? && DropPrefs(c).Some?
  }

  /** A preference, or a quantification of one or of a conjunction of such formulas. */
  predicate OnlyPrefers(f: Sexp)
    decreases f
  {
    || Headed(f, "preference")
    || (Headed(f, "forall") && |f.items| == 3
        && (OnlyPrefers(f.items[2])
            || (Headed(f.items[2], "and") && forall i | 1 <= i < |f.items[2].items| :: OnlyPrefers(f.items[2].items[i]))))
  }

  lemma {:induction false} DroppedIff(f: Sexp)
    ensures DropPrefs(f) == None <==> OnlyPrefers(f)
    decreases f, 1
  {
    if Headed(f, "forall") && |f.items| == 3 {
      var g := f.items[2];
      DroppedIff(g);
      if Headed(g, "and") {
        AllDroppedIff(g.items[1..], f);
        assert forall i | 1 <= i < |g.items| :: g.items[i] == g.items[1..][i - 1];
        var kept := DropAllPrefs(g.items[1..]);
        assert DropPrefs(g) == Some(List([Atom("and")] + kept)) && !OnlyPrefers(g);
        assert kept == [] <==> [Atom("and")] + kept == [Atom("and")] by {
          assert |[Atom("and")] + kept| == 1 + |kept|;
        }
      } else {
        NotBareAnd(g);
      }
    }
  }

  lemma NotBareAnd(g: Sexp)
    requires !Headed(g, "and")
    ensures DropPrefs(g) != Some(List([Atom("and")]))
  {
    if Headed(g, "forall") && |g.items| == 3 {
      var k := DropPrefs(g.items[2]);
      assert k.Some? ==> |[Atom("forall"), g.items[1], k.value]| == 3;
      assert |[Atom("and")]| == 1;
    }
  }

  lemma {:induction false} AllDroppedIff(fs: seq<Sexp>, f: Sexp)
    requires forall x | x in fs :: x < f
    ensures DropAllPrefs(fs) == [] <==> forall i | 0 <= i < |fs| :: OnlyPrefers(fs[i])
    decreases f, 0, fs
  {
    if fs != [] {
      assert fs[0] in fs && forall x | x in fs[1..] :: x in fs;
      DroppedIff(fs[0]);
      AllDroppedIff(fs[1..], f);
      assert forall i | 1 <= i < |fs| :: fs[i] == fs[1..][i - 1];
    }
  }

  lemma {:induction false} StripKeepsPreference(f: Sexp)
    requires OnlyPrefers(f)
    ensures OnlyPrefers(Strip(f))
    decreases f
  {
    assert Timing(f) == None && f.List?;
    StripAllAt(f.items, 0);
    if !Headed(f, "preference") {
      StripAllAt(f.items, 2);
      var g := f.items[2];
      if OnlyPrefers(g) {
        StripKeepsPreference(g);
      } else {
        var h := Strip(g);
        assert Timing(g) == None;
        StripAllAt(g.items, 0);
        forall i | 1 <= i < |h.items| ensures OnlyPrefers(h.items[i]) {
          StripAllAt(g.items, i);
          StripKeepsPreference(g.items[i]);
        }
      }
    }
  }

  /** A condition is dropped exactly when, its time specifiers aside, it only prefers; the second test adds nothing. */
  lemma HardIff(c: Sexp)
    ensures IsHard(c) <==> !OnlyPrefers(Strip(c))
  {
    DroppedIff(Strip(c));
    DroppedIff(c);
    if OnlyPrefers(c) {
      StripKeepsPreference(c);
    }
  }

  function Conditions(da: Sexp): seq<Sexp>
    requires da.List?
  {
    Filter(Conj(Field(da, ":condition")), IsHard)
  }

  function Effects(da: Sexp): seq<Sexp>
    requires da.List?
  {
    Conj(Field(da, ":effect"))
  }

  /** Effects without a time specifier count as start effects; an over-all effect is in neither list. */
  function StartEffects(effs: seq<Sexp>): seq<Sexp> {
    if effs == [] then []
    else (if WhenOf(effs[0]) == Some(AtStart) || WhenOf(effs[0]) == None then [Strip(effs[0])] else [])
         + StartEffects(effs[1..])
  }

  function EndEffects(effs: seq<Sexp>): seq<Sexp> {
    if effs == [] then []
    else (if WhenOf(effs[0]) == Some(AtEnd) then [Strip(effs[0])] else []) + EndEffects(effs[1..])
  }

  function KeysOf(es: seq<Sexp>, positive: bool): set<string>
    requires AllIndexable(es)
  {
    set e | e in es && Simple(e) && Headed(e, "not") != positive :: LiteralKey(e)
  }

  // ---- preconditions ----

  /** A condition needed only later that the action's own start effects bring about. */
  predicate SelfEstablished(c: Sexp, adds: set<string>, dels: set<string>)
    requires Indexable(Strip(c))
  {
    var x := Strip(c);
    && (WhenOf(c) == Some(OverAll) || WhenOf(c) == Some(AtEnd))
    && x.List? && x.items != []
    && if Headed(x, "not") then LiteralKey(x) in dels else LiteralKey(x) in adds
  }

  function Precondition(conds: seq<Sexp>, adds: set<string>, dels: set<string>): seq<Sexp>
    requires forall c | c in conds :: Indexable(Strip(c))
  {
    if conds == [] then []
    else
      var n := |conds| - 1;
      Precondition(conds[..n], adds, dels)
      + (if SelfEstablished(conds[n], adds, dels) then [] else [Strip(conds[n])])
  }

  method SelectPreconditions(conds: seq<Sexp>, adds: set<string>, dels: set<string>) returns (pre: seq<Sexp>)
    requires forall c | c in conds :: Indexable(Strip(c))
    ensures pre == Precondition(conds, adds, dels)
  {
    pre := [];
    for i := 0 to |conds|
      invariant pre == Precondition(conds[..i], adds, dels)
    {
      assert conds[..i + 1][..i] == conds[..i];
      if !SelfEstablished(conds[i], adds, dels) {
        pre := pre + [Strip(conds[i])];
      }
    }
    assert conds[..|conds|] == conds;
  }

  /** Conditions are kept in order, one by one. */
  lemma {:induction false} PreconditionSplits(xs: seq<Sexp>, ys: seq<Sexp>, adds: set<string>, dels: set<string>)
    requires (forall c | c in xs :: Indexable(Strip(c))) && forall c | c in ys :: Indexable(Strip(c))
    ensures forall c | c in xs + ys :: Indexable(Strip(c))
    ensures Precondition(xs + ys, adds, dels) == Precondition(xs, adds, dels) + Precondition(ys, adds, dels)
  {
    if ys == [] {
      assert xs + ys == xs;
    } else {
      var n := |ys| - 1;
      assert (xs + ys)[..|xs + ys| - 1] == xs + ys[..n] && (xs + ys)[|xs + ys| - 1] == ys[n];
      hide SelfEstablished, Strip, Indexable;
      PreconditionSplits(xs, ys[..n], adds, dels);
    }
  }

  // ---- merging numeric effects ----

  /** The changes among `es` whose fluent has one of the keys, in order. */
  function Within(es: seq<Sexp>, keys: set<string>): seq<Sexp>
    requires AllIndexable(es)
  {
    if es == [] then []
    else
      var n := |es| - 1;
      Within(es[..n], keys) + (if IsChange(es[n]) && FluentKey(es[n]) in keys then [es[n]] else [])
  }

  lemma {:induction false} WithinHas(es: seq<Sexp>, keys: set<string>, e: Sexp)
    requires AllIndexable(es)
    ensures e in Within(es, keys) <==> e in es && IsChange(e) && FluentKey(e) in keys
  {
    if es != [] {
      var n := |es| - 1;
      WithinHas(es[..n], keys, e);
      assert e in es <==> e in es[..n] || e == es[n];
    }
  }

  lemma WithinNext(es: seq<Sexp>, i: nat, k: string)
    requires AllIndexable(es) && i < |es|
    ensures Within(es[..i + 1], {k}) ==
              Within(es[..i], {k}) + if IsChange(es[i]) && FluentKey(es[i]) == k then [es[i]] else []
  {
    assert es[..i + 1][..i] == es[..i];
  }

  method GroupByFluent(es: seq<Sexp>) returns (byFluent: map<string, seq<Sexp>>)
    requires AllIndexable(es)
    ensures forall e | e in es && IsChange(e) :: FluentKey(e) in byFluent
    ensures forall k | k in byFluent :: byFluent[k] == Within(es, {k})
  {
    hide Within, IsChange, FluentKey;
    byFluent := map[];
    assert forall k: string :: Within(es[..0], {k}) == [] by {
      WithinNothing(es);
    }
    for i := 0 to |es|
      invariant forall j | 0 <= j < i && IsChange(es[j]) :: FluentKey(es[j]) in byFluent
      invariant forall k | k in byFluent :: byFluent[k] == Within(es[..i], {k})
      invariant forall k | k !in byFluent :: Within(es[..i], {k}) == []
    {
      forall k: string
        ensures Within(es[..i + 1], {k}) ==
                  Within(es[..i], {k}) + if IsChange(es[i]) && FluentKey(es[i]) == k then [es[i]] else []
      {
        WithinNext(es, i, k);
      }
      var e := es[i];
      if IsChange(e) {
        var k := FluentKey(e);
        byFluent := byFluent[k := (if k in byFluent then byFluent[k] else []) + [e]];
      }
    }
    assert es[..|es|] == es;
  }

  lemma WithinNothing(es: seq<Sexp>)
    ensures forall k: string :: Within(es[..0], {k}) == []
  {
  }

  function Amounts(es: seq<Sexp>, head: string): seq<Sexp> {
    if es == [] then []
    else
      (if Headed(es[0], head) && |es[0].items| > 2 then [es[0].items[2]] else []) + Amounts(es[1..], head)
  }

  function Count(xs: seq<Sexp>, x: Sexp): (n: nat)
    ensures n > 0 <==> x in xs
  {
    if xs == [] then 0 else (if xs[0] == x then 1 else 0) + Count(xs[1..], x)
  }

  /** `xs` without the first occurrence of `a`. */
  function Remove(xs: seq<Sexp>, a: Sexp): seq<Sexp> {
    if xs == [] then [] else if xs[0] == a then xs[1..] else [xs[0]] + Remove(xs[1..], a)
  }

  lemma {:induction false} RemoveCounts(xs: seq<Sexp>, a: Sexp, x: Sexp)
    ensures Count(Remove(xs, a), x) == Count(xs, x) - if x == a && a in xs then 1 else 0
  {
    if xs != [] && xs[0] != a {
      RemoveCounts(xs[1..], a, x);
    }
  }

  /** Every amount of `todo` found in both lists is removed once from each. */
  function Cancel(todo: seq<Sexp>, inc: seq<Sexp>, dec: seq<Sexp>): (seq<Sexp>, seq<Sexp>) {
    if todo == [] then (inc, dec)
    else if todo[0] in dec then Cancel(todo[1..], Remove(inc, todo[0]), Remove(dec, todo[0]))
    else Cancel(todo[1..], inc, dec)
  }

  function Excess(m: nat, n: nat): nat {
    if m > n then m - n else 0
  }

  lemma {:induction false} CancelCounts(todo: seq<Sexp>, inc: seq<Sexp>, dec: seq<Sexp>, x: Sexp)
    requires Count(todo, x) <= Count(inc, x)
    ensures Count(Cancel(todo, inc, dec).0, x) == Count(inc, x) - Count(todo, x) + Excess(Count(todo, x), Count(dec, x))
    ensures Count(Cancel(todo, inc, dec).1, x) == Excess(Count(dec, x), Count(todo, x))
  {
    if todo != [] {
      var a := todo[0];
      if a in dec {
        RemoveCounts(inc, a, x);
        RemoveCounts(dec, a, x);
        CancelCounts(todo[1..], Remove(inc, a), Remove(dec, a), x);
      } else {
        CancelCounts(todo[1..], inc, dec, x);
      }
    }
  }

  /** Cancels in place while walking over a copy of the increases; what it removes is always there. */
  method CancelEqual(inc0: seq<Sexp>, dec0: seq<Sexp>) returns (inc: seq<Sexp>, dec: seq<Sexp>)
    ensures (inc, dec) == Cancel(inc0, inc0, dec0)
    ensures forall x :: Count(inc, x) == Excess(Count(inc0, x), Count(dec0, x))
    ensures forall x :: Count(dec, x) == Excess(Count(dec0, x), Count(inc0, x))
  {
    inc, dec := inc0, dec0;
    for i := 0 to |inc0|
      invariant forall x :: Count(inc0[i..], x) <= Count(inc, x)
      invariant Cancel(inc0, inc0, dec0) == Cancel(inc0[i..], inc, dec)
    {
      var a := inc0[i];
      assert inc0[i..][1..] == inc0[i + 1..];
      assert Count(inc0[i..], a) > 0;
      if a in dec {
        assert a in inc && a in dec;
        forall x ensures Count(inc0[i + 1..], x) <= Count(Remove(inc, a), x) {
          RemoveCounts(inc, a, x);
        }
        inc, dec := Remove(inc, a), Remove(dec, a);
      }
    }
    forall x
      ensures Count(inc, x) == Excess(Count(inc0, x), Count(dec0, x))
      ensures Count(dec, x) == Excess(Count(dec0, x), Count(inc0, x))
    {
      CancelCounts(inc0, inc0, dec0, x);
    }
  }

  function SumOf(inc: seq<Sexp>): Sexp {
    if |inc| > 1 then List([Atom("+")] + inc) else if inc != [] then inc[0] else Atom("0")
  }

  function Total(inc: seq<Sexp>, dec: seq<Sexp>): Sexp {
    if dec == [] then SumOf(inc)
    else List([Atom("-"), Total(inc, dec[..|dec| - 1]), dec[|dec| - 1]])
  }

  method TotalOf(inc: seq<Sexp>, dec: seq<Sexp>) returns (total: Sexp)
    ensures total == Total(inc, dec)
  {
    total := SumOf(inc);
    for i := 0 to |dec|
      invariant total == Total(inc, dec[..i])
    {
      assert dec[..i + 1][..i] == dec[..i];
      total := List([Atom("-"), total, dec[i]]);
    }
    assert dec[..|dec|] == dec;
  }

  /** One increase standing for all the changes to one fluent; none when they cancel out. */
  function Combined(group: seq<Sexp>, fluent: Sexp): seq<Sexp>
  {
    var inc := Amounts(group, "increase");
    var (inc', dec') := Cancel(inc, inc, Amounts(group, "decrease"));
    if inc' == [] && dec' == [] then [] else [List([Atom("increase"), fluent, Total(inc', dec')])]
  }

  /** The keys of the fluents changed more than once among all the effects, met among the first `n`. */
  function DoneKeys(es: seq<Sexp>, n: nat): set<string>
    requires AllIndexable(es) && n <= |es|
  {
    set i | 0 <= i < n && IsChange(es[i]) && |Within(es, {FluentKey(es[i])})| > 1 :: FluentKey(es[i])
  }

  lemma DoneNone(es: seq<Sexp>)
    requires AllIndexable(es)
    ensures DoneKeys(es, 0) == {}
  {
  }

  lemma DoneNext(es: seq<Sexp>, n: nat)
    requires AllIndexable(es) && n < |es|
    ensures DoneKeys(es, n + 1) == DoneKeys(es, n) +
              if IsChange(es[n]) && |Within(es, {FluentKey(es[n])})| > 1 then {FluentKey(es[n])} else {}
    ensures IsChange(es[n]) ==> es[n].List? && |es[n].items| > 2
  {
    hide Within, FluentKey;
    assert es[n] in es;
  }

  /** The merged effects once the first `n` have been handled. */
  function Merged(es: seq<Sexp>, n: nat): seq<Sexp>
    requires AllIndexable(es) && n <= |es|
  {
    if n == 0 then []
    else
      var e := es[n - 1];
      Merged(es, n - 1)
      + if IsChange(e) && |Within(es, {FluentKey(e)})| > 1 then
          if FluentKey(e) in DoneKeys(es, n - 1) then [] else Combined(Within(es, {FluentKey(e)}), e.items[1])
        else [e]
  }

  method MergeChanges(es: seq<Sexp>) returns (out: seq<Sexp>)
    requires AllIndexable(es)
    ensures out == Merged(es, |es|)
  {
    hide Within, Cancel, Amounts, Total, DoneKeys, IsChange, FluentKey;
    var byFluent := GroupByFluent(es);
    out := [];
    DoneNone(es);
    var done: set<string> := {};
    for i := 0 to |es|
      invariant done == DoneKeys(es, i)
      invariant out == Merged(es, i)
    {
      var e := es[i];
      DoneNext(es, i);
      if IsChange(e) && |byFluent[FluentKey(e)]| > 1 {
        var k := FluentKey(e);
        if k !in done {
          done := done + {k};
          var inc := Amounts(byFluent[k], "increase");
          var dec := Amounts(byFluent[k], "decrease");
          inc, dec := CancelEqual(inc, dec);
          if inc != [] || dec != [] {
            var total := TotalOf(inc, dec);
            out := out + [List([Atom("increase"), e.items[1], total])];
          }
        }
      } else {
        out := out + [e];
      }
    }
  }

  // ---- the whole action ----

  /** What the program indexes without checking in a whole durative action. */
  predicate CanCompress(da: Sexp) {
    && da.List? && |da.items| > 1
    && (forall i | 2 <= i < |da.items| - 1 && i % 2 == 0 :: da.items[i].Atom?)
    && (forall c | c in Conditions(da) :: Indexable(Strip(c)))
    && AllIndexable(StartEffects(Effects(da)))
    && AllIndexable(EndEffects(Effects(da)))
  }

  function CompressedPrecondition(da: Sexp): seq<Sexp>
    requires CanCompress(da)
  {
    var se := StartEffects(Effects(da));
    Precondition(Conditions(da), KeysOf(se, true), KeysOf(se, false))
  }

  /** Start effects on an atom that an end effect also sets are dropped. */
  function KeptStart(se: seq<Sexp>, ends: set<string>): (r: seq<Sexp>)
    requires AllIndexable(se)
    ensures forall e | e in r :: e in se
  {
    if se == [] then []
    else (if Simple(se[0]) && LiteralKey(se[0]) in ends then [] else [se[0]]) + KeptStart(se[1..], ends)
  }

  function EffectsInOrder(da: Sexp): (es: seq<Sexp>)
    requires CanCompress(da)
    ensures AllIndexable(es)
  {
    var ee := EndEffects(Effects(da));
    KeptStart(StartEffects(Effects(da)), KeysOf(ee, true) + KeysOf(ee, false)) + ee
  }

  function CompressedEffect(da: Sexp): seq<Sexp>
    requires CanCompress(da)
  {
    Merged(EffectsInOrder(da), |EffectsInOrder(da)|)
  }

  method CompressAction(da: Sexp) returns (action: Sexp)
    requires CanCompress(da)
    ensures action == List([
              Atom(":action"), da.items[1], Atom(":parameters"), Field(da, ":parameters"),
              Atom(":precondition"), List([Atom("and")] + CompressedPrecondition(da)),
              Atom(":effect"), List([Atom("and")] + CompressedEffect(da))])
  {
    var conds := Conditions(da);
    var se := StartEffects(Effects(da));
    var ee := EndEffects(Effects(da));
    var pre := SelectPreconditions(conds, KeysOf(se, true), KeysOf(se, false));
    var out := MergeChanges(KeptStart(se, KeysOf(ee, true) + KeysOf(ee, false)) + ee);
    action := List([
      Atom(":action"), da.items[1], Atom(":parameters"), Field(da, ":parameters"),
      Atom(":precondition"), List([Atom("and")] + pre),
      Atom(":effect"), List([Atom("and")] + out)]);
  }

  // ---- everything else stays ----

  /** Neither a literal nor an increase or decrease: quantified, conditional or assigned. */
  predicate IsOther(e: Sexp) {
    !Simple(e) && !IsChange(e)
  }

  lemma {:induction false} KeptStartKeepsOthers(se: seq<Sexp>, ends: set<string>)
    requires AllIndexable(se)
    ensures Filter(KeptStart(se, ends), IsOther) == Filter(se, IsOther)
  {
    if se != [] {
      KeptStartKeepsOthers(se[1..], ends);
      var rest := KeptStart(se[1..], ends);
      assert ([se[0]] + rest)[1..] == rest;
      assert [] + rest == rest;
    }
  }

  lemma FilterNext(xs: seq<Sexp>, e: Sexp)
    ensures Filter(xs + [e], IsOther) == Filter(xs, IsOther) + if IsOther(e) then [e] else []
  {
    FilterAppend(xs, [e], IsOther);
    assert [e][1..] == [];
  }

  lemma CombinedIsChange(group: seq<Sexp>, fluent: Sexp)
    ensures |Combined(group, fluent)| <= 1 && forall e | e in Combined(group, fluent) :: IsChange(e)
  {
  }

  lemma MergedStep(es: seq<Sexp>, n: nat) returns (tail: seq<Sexp>)
    requires AllIndexable(es) && 0 < n <= |es|
    ensures Merged(es, n) == Merged(es, n - 1) + tail && |tail| <= 1
    ensures if IsChange(es[n - 1]) then forall e | e in tail :: IsChange(e) else tail == [es[n - 1]]
  {
    var e := es[n - 1];
    assert e in es;
    hide Within, FluentKey, DoneKeys, IsChange, Combined;
    if IsChange(e) && |Within(es, {FluentKey(e)})| > 1 {
      tail := if FluentKey(e) in DoneKeys(es, n - 1) then [] else Combined(Within(es, {FluentKey(e)}), e.items[1]);
      CombinedIsChange(Within(es, {FluentKey(e)}), e.items[1]);
    } else {
      tail := [e];
    }
  }

  lemma TailKeepsOthers(xs: seq<Sexp>, tail: seq<Sexp>, e: Sexp)
    requires |tail| <= 1 && if IsChange(e) then forall x | x in tail :: IsChange(x) else tail == [e]
    ensures Filter(xs + tail, IsOther) == Filter(xs, IsOther) + if IsOther(e) then [e] else []
  {
    if tail == [] {
      assert xs + tail == xs;
    } else {
      assert tail == [tail[0]] && tail[0] in tail;
      FilterNext(xs, tail[0]);
    }
  }

  lemma {:induction false} MergedKeepsOthers(es: seq<Sexp>, n: nat)
    requires AllIndexable(es) && n <= |es|
    ensures Filter(Merged(es, n), IsOther) == Filter(es[..n], IsOther)
  {
    if n > 0 {
      hide *;
      var e := es[n - 1];
      assert es[..n] == es[..n - 1] + [e];
      FilterNext(es[..n - 1], e);
      var tail := MergedStep(es, n);
      MergedKeepsOthers(es, n - 1);
      TailKeepsOthers(Merged(es, n - 1), tail, e);
    }
  }

  /** Effects of other kinds all stay, those of the start before those of the end, each in order. */
  lemma OtherEffectsStay(da: Sexp)
    requires CanCompress(da)
    ensures Filter(CompressedEffect(da), IsOther) ==
              Filter(StartEffects(Effects(da)), IsOther) + Filter(EndEffects(Effects(da)), IsOther)
  {
    var se, ee, es := StartEffects(Effects(da)), EndEffects(Effects(da)), EffectsInOrder(da);
    var ends := KeysOf(ee, true) + KeysOf(ee, false);
    MergedKeepsOthers(es, |es|);
    assert es[..|es|] == es;
    KeptStartKeepsOthers(se, ends);
    FilterAppend(KeptStart(se, ends), ee, IsOther);
  }

  lemma {:induction false} StartEffectsSplit(xs: seq<Sexp>, ys: seq<Sexp>)
    ensures StartEffects(xs + ys) == StartEffects(xs) + StartEffects(ys)
  {
    if xs == [] {
      assert xs + ys == ys;
    } else {
      var one := if WhenOf(xs[0]) == Some(AtStart) || WhenOf(xs[0]) == None then [Strip(xs[0])] else [];
      assert (xs + ys)[1..] == xs[1..] + ys;
      assert StartEffects(xs) == one + StartEffects(xs[1..]) && StartEffects(xs + ys) == one + StartEffects(xs[1..] + ys);
      hide *;
      StartEffectsSplit(xs[1..], ys);
    }
  }

  lemma {:induction false} EndEffectsSplit(xs: seq<Sexp>, ys: seq<Sexp>)
    ensures EndEffects(xs + ys) == EndEffects(xs) + EndEffects(ys)
  {
    if xs == [] {
      assert xs + ys == ys;
    } else {
      var one := if WhenOf(xs[0]) == Some(AtEnd) then [Strip(xs[0])] else [];
      assert (xs + ys)[1..] == xs[1..] + ys;
      assert EndEffects(xs) == one + EndEffects(xs[1..]) && EndEffects(xs + ys) == one + EndEffects(xs[1..] + ys);
      hide *;
      EndEffectsSplit(xs[1..], ys);
    }
  }

  /** Start effects are the stripped effects at the start or without a time, end effects those at the end, in order. */
  lemma SplitByTime(xs: seq<Sexp>, e: Sexp)
    ensures StartEffects(xs + [e]) ==
              StartEffects(xs) + if WhenOf(e) == Some(AtStart) || WhenOf(e) == None then [Strip(e)] else []
    ensures EndEffects(xs + [e]) == EndEffects(xs) + if WhenOf(e) == Some(AtEnd) then [Strip(e)] else []
  {
    StartEffectsSplit(xs, [e]);
    EndEffectsSplit(xs, [e]);
    hide WhenOf, Strip;
    assert [e][1..] == [];
  }
}
