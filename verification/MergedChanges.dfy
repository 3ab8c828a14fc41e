// Merging the increases and decreases of one fluent keeps every fluent's net change.
module MergedChanges {
  import opened SExpressions
  import opened Compressor
  import opened Compression
  import opened SequentialLayout

  type Fluents = string -> real

  /** A binding of the parameters and the values of the numerals. */
  datatype Env = Env(binding: Binding, number: string -> real)

  // ---- arithmetic on trees ----

  const OPERATORS: set<string> := {"+", "-", "*", "/"}

  function Apply(op: string, x: real, y: real): real {
    if op == "+" then x + y
    else if op == "-" then x - y
    else if op == "*" then x * y
    else if y == 0.0 then 0.0
    else x / y
  }

  predicate IsOperation(e: Sexp) {
    e.List? && |e.items| > 1 && e.items[0].Atom? && e.items[0].text in OPERATORS
  }

  /** A list that is no operation is a fluent, looked up by its printed ground form. */
  function Eval(env: Env, v: Fluents, e: Sexp): real
    decreases e
  {
    if e.Atom? then env.number(e.text)
    else if !IsOperation(e) then v(Key(env.binding, e))
    else
      var first := Eval(env, v, e.items[1]);
      if |e.items| == 2 && e.items[0].text == "-" then -first
      else EvalRest(env, v, e.items[0].text, first, e.items[2..])
  }

  function EvalRest(env: Env, v: Fluents, op: string, acc: real, es: seq<Sexp>): real
    decreases es
  {
    if es == [] then acc else EvalRest(env, v, op, Apply(op, acc, Eval(env, v, es[0])), es[1..])
  }

  /** The fluents whose values an expression depends on. */
  function FluentsIn(b: Binding, e: Sexp): set<string>
    decreases e
  {
    if e.Atom? then {}
    else if !IsOperation(e) then {Key(b, e)}
    else FluentsInAll(b, e.items[1..])
  }

  function FluentsInAll(b: Binding, es: seq<Sexp>): set<string>
    decreases es
  {
    if es == [] then {} else FluentsIn(b, es[0]) + FluentsInAll(b, es[1..])
  }

  ghost predicate Agree(v: Fluents, w: Fluents, keys: set<string>) {
    forall k | k in keys :: v(k) == w(k)
  }

  lemma {:induction false} EvalDependsOn(env: Env, v: Fluents, w: Fluents, e: Sexp)
    requires Agree(v, w, FluentsIn(env.binding, e))
    ensures Eval(env, v, e) == Eval(env, w, e)
    decreases e
  {
    if IsOperation(e) {
      var first, rest := e.items[1], e.items[2..];
      assert e.items[1..][0] == first && e.items[1..][1..] == rest;
      assert FluentsIn(env.binding, e) == FluentsIn(env.binding, first) + FluentsInAll(env.binding, rest);
      EvalDependsOn(env, v, w, first);
      EvalRestDependsOn(env, v, w, e.items[0].text, Eval(env, v, first), rest);
    }
  }

  lemma {:induction false} EvalRestDependsOn(env: Env, v: Fluents, w: Fluents, op: string, acc: real, es: seq<Sexp>)
    requires Agree(v, w, FluentsInAll(env.binding, es))
    ensures EvalRest(env, v, op, acc, es) == EvalRest(env, w, op, acc, es)
    decreases es
  {
    hide Apply;
    if es != [] {
      EvalDependsOn(env, v, w, es[0]);
      EvalRestDependsOn(env, v, w, op, Apply(op, acc, Eval(env, v, es[0])), es[1..]);
    }
  }

  // ---- net changes ----

  /** What one effect adds to the fluent named by a ground key. */
  function Delta(env: Env, v: Fluents, e: Sexp, key: string): real {
    if !IsChange(e) || |e.items| < 3 || Key(env.binding, e.items[1]) != key then 0.0
    else if Headed(e, "increase") then Eval(env, v, e.items[2])
    else -Eval(env, v, e.items[2])
  }

  /** What the effects, all reading the same values, add to the fluent. */
  function Net(env: Env, v: Fluents, es: seq<Sexp>, key: string): real {
    if es == [] then 0.0 else Net(env, v, es[..|es| - 1], key) + Delta(env, v, es[|es| - 1], key)
  }

  lemma {:induction false} NetAppend(env: Env, v: Fluents, xs: seq<Sexp>, ys: seq<Sexp>, key: string)
    ensures Net(env, v, xs + ys, key) == Net(env, v, xs, key) + Net(env, v, ys, key)
  {
    hide Delta;
    if ys == [] {
      assert xs + ys == xs;
    } else {
      var n := |ys| - 1;
      NetAppend(env, v, xs, ys[..n], key);
      assert (xs + ys)[..|xs + ys| - 1] == xs + ys[..n];
    }
  }

  lemma NetSnoc(env: Env, v: Fluents, es: seq<Sexp>, e: Sexp, key: string)
    ensures Net(env, v, es + [e], key) == Net(env, v, es, key) + Delta(env, v, e, key)
  {
    assert (es + [e])[..|es|] == es;
  }

  lemma NetCons(env: Env, v: Fluents, e: Sexp, es: seq<Sexp>, key: string)
    ensures Net(env, v, [e] + es, key) == Delta(env, v, e, key) + Net(env, v, es, key)
  {
    NetAppend(env, v, [e], es, key);
    NetSnoc(env, v, [], e, key);
    assert [] + [e] == [e];
  }

  function Sum(env: Env, v: Fluents, xs: seq<Sexp>): real {
    if xs == [] then 0.0 else Eval(env, v, xs[0]) + Sum(env, v, xs[1..])
  }

  lemma {:induction false} SumWithout(env: Env, v: Fluents, xs: seq<Sexp>, a: Sexp)
    requires a in xs
    ensures Sum(env, v, Remove(xs, a)) == Sum(env, v, xs) - Eval(env, v, a)
  {
    hide Eval;
    if xs[0] != a {
      SumWithout(env, v, xs[1..], a);
    }
  }

  lemma {:induction false} CancelKeepsDifference(env: Env, v: Fluents, todo: seq<Sexp>, inc: seq<Sexp>, dec: seq<Sexp>)
    requires forall x :: Count(todo, x) <= Count(inc, x)
    ensures var (i, d) := Cancel(todo, inc, dec);
            Sum(env, v, i) - Sum(env, v, d) == Sum(env, v, inc) - Sum(env, v, dec)
  {
    hide Eval;
    if todo != [] {
      var a := todo[0];
      assert Count(todo, a) > 0;
      assert forall x :: Count(todo[1..], x) == Count(todo, x) - if x == a then 1 else 0;
      if a in dec {
        forall x ensures Count(todo[1..], x) <= Count(Remove(inc, a), x) {
          RemoveCounts(inc, a, x);
        }
        SumWithout(env, v, inc, a);
        SumWithout(env, v, dec, a);
        CancelKeepsDifference(env, v, todo[1..], Remove(inc, a), Remove(dec, a));
      } else {
        CancelKeepsDifference(env, v, todo[1..], inc, dec);
      }
    }
  }

  lemma {:induction false} SumRest(env: Env, v: Fluents, acc: real, xs: seq<Sexp>)
    ensures EvalRest(env, v, "+", acc, xs) == acc + Sum(env, v, xs)
    decreases xs
  {
    hide Eval;
    if xs != [] {
      SumRest(env, v, acc + Eval(env, v, xs[0]), xs[1..]);
    }
  }

  /** The merged amount is the increases less the decreases. */
  lemma {:induction false} TotalIsDifference(env: Env, v: Fluents, inc: seq<Sexp>, dec: seq<Sexp>)
    requires env.number("0") == 0.0
    ensures Eval(env, v, Total(inc, dec)) == Sum(env, v, inc) - Sum(env, v, dec)
  {
    if dec == [] {
      if |inc| > 1 {
        var sum := SumOf(inc);
        assert sum.items[1] == inc[0] && sum.items[2..] == inc[1..];
        SumRest(env, v, Eval(env, v, inc[0]), inc[1..]);
      }
    } else {
      var n := |dec| - 1;
      TotalIsDifference(env, v, inc, dec[..n]);
      var total := Total(inc, dec);
      assert total.items[2..] == [dec[n]];
      SubtractLast(env, v, Eval(env, v, total.items[1]), dec[n]);
      SumSnoc(env, v, dec[..n], dec[n]);
      assert dec[..n] + [dec[n]] == dec;
    }
  }

  lemma SubtractLast(env: Env, v: Fluents, acc: real, x: Sexp)
    ensures EvalRest(env, v, "-", acc, [x]) == acc - Eval(env, v, x)
  {
    assert EvalRest(env, v, "-", acc - Eval(env, v, x), [x][1..]) == acc - Eval(env, v, x);
  }

  lemma {:induction false} SumSnoc(env: Env, v: Fluents, xs: seq<Sexp>, x: Sexp)
    ensures Sum(env, v, xs + [x]) == Sum(env, v, xs) + Eval(env, v, x)
  {
    hide Eval;
    if xs == [] {
      assert [x][1..] == [];
    } else {
      assert (xs + [x])[1..] == xs[1..] + [x];
      SumSnoc(env, v, xs[1..], x);
    }
  }

  // ---- one group: all the changes to one lifted fluent ----

  ghost predicate OnFluent(group: seq<Sexp>, fluent: Sexp) {
    AllIndexable(group) && forall e | e in group :: IsChange(e) && e.items[1] == fluent
  }

  lemma {:induction false} GroupNet(env: Env, v: Fluents, group: seq<Sexp>, fluent: Sexp, key: string)
    requires OnFluent(group, fluent)
    ensures Net(env, v, group, key) ==
              if Key(env.binding, fluent) == key
              then Sum(env, v, Amounts(group, "increase")) - Sum(env, v, Amounts(group, "decrease"))
              else 0.0
  {
    hide Eval, Key, Net, Amounts, Sum;
    if group == [] {
      NothingToAdd(env, v, key);
    } else {
      var e, rest := group[0], group[1..];
      assert e in group && forall d | d in rest :: d in group;
      GroupNet(env, v, rest, fluent, key);
      assert [e] + rest == group;
      NetCons(env, v, e, rest, key);
      SumAmounts(env, v, e, rest);
    }
  }

  lemma NothingToAdd(env: Env, v: Fluents, key: string)
    ensures Net(env, v, [], key) == 0.0
    ensures Sum(env, v, Amounts([], "increase")) == Sum(env, v, Amounts([], "decrease")) == 0.0
  {
  }

  lemma SumAmounts(env: Env, v: Fluents, e: Sexp, rest: seq<Sexp>)
    requires IsChange(e) && Indexable(e)
    ensures Sum(env, v, Amounts([e] + rest, "increase")) ==
              (if Headed(e, "increase") then Eval(env, v, e.items[2]) else 0.0) + Sum(env, v, Amounts(rest, "increase"))
    ensures Sum(env, v, Amounts([e] + rest, "decrease")) ==
              (if Headed(e, "increase") then 0.0 else Eval(env, v, e.items[2])) + Sum(env, v, Amounts(rest, "decrease"))
  {
    hide Eval;
    assert ([e] + rest)[1..] == rest;
    var x, inc, dec := e.items[2], Amounts(rest, "increase"), Amounts(rest, "decrease");
    assert ([x] + inc)[1..] == inc && ([x] + dec)[1..] == dec;
    assert [] + inc == inc && [] + dec == dec;
  }

  /** The combined increase, or nothing if all cancels, adds what the group adds. */
  lemma CombinedNet(env: Env, v: Fluents, group: seq<Sexp>, fluent: Sexp, key: string)
    requires OnFluent(group, fluent) && env.number("0") == 0.0
    ensures Net(env, v, Combined(group, fluent), key) == Net(env, v, group, key)
  {
    hide Eval, Key, Total, Cancel;
    var inc, dec := Amounts(group, "increase"), Amounts(group, "decrease");
    var (inc', dec') := Cancel(inc, inc, dec);
    CancelKeepsDifference(env, v, inc, inc, dec);
    GroupNet(env, v, group, fluent, key);
    TotalIsDifference(env, v, inc', dec');
    NetSnoc(env, v, [], List([Atom("increase"), fluent, Total(inc', dec')]), key);
  }

  // ---- the whole list ----

  /** The keys of the fluents changed among the first `n` effects. */
  function Seen(es: seq<Sexp>, n: nat): set<string>
    requires AllIndexable(es) && n <= |es|
  {
    set i | 0 <= i < n && IsChange(es[i]) :: FluentKey(es[i])
  }

  lemma {:induction false} NothingWithin(es: seq<Sexp>, keys: set<string>)
    requires AllIndexable(es) && (es == [] || keys == {})
    ensures Within(es, keys) == []
  {
    if es != [] {
      NothingWithin(es[..|es| - 1], keys);
    }
  }

  lemma {:induction false} NetSplits(env: Env, v: Fluents, es: seq<Sexp>, keys: set<string>, k: string, key: string)
    requires AllIndexable(es) && k !in keys
    ensures Net(env, v, Within(es, keys + {k}), key) ==
              Net(env, v, Within(es, keys), key) + Net(env, v, Within(es, {k}), key)
  {
    hide Net, Within, Delta;
    if es == [] {
      NothingWithin([], keys);
      NothingWithin([], {k});
      NothingWithin([], keys + {k});
      NothingToAdd(env, v, key);
    } else {
      var n := |es| - 1;
      assert AllIndexable(es[..n]);
      NetSplits(env, v, es[..n], keys, k, key);
      NetWithin(env, v, es, keys + {k}, key);
      NetWithin(env, v, es, keys, key);
      NetWithin(env, v, es, {k}, key);
    }
  }

  lemma NetWithin(env: Env, v: Fluents, es: seq<Sexp>, keys: set<string>, key: string)
    requires AllIndexable(es) && es != []
    ensures var n := |es| - 1;
            Net(env, v, Within(es, keys), key) == Net(env, v, Within(es[..n], keys), key)
              + if IsChange(es[n]) && FluentKey(es[n]) in keys then Delta(env, v, es[n], key) else 0.0
  {
    var n := |es| - 1;
    NetSnoc(env, v, Within(es[..n], keys), es[n], key);
    assert Within(es[..n], keys) + [] == Within(es[..n], keys);
  }

  /** The fluents of the changes are printable, so that printing alike is being the same. */
  predicate PrintableFluents(es: seq<Sexp>) {
    forall e | e in es :: IsChange(e) && |e.items| > 1 ==> Printable(e.items[1])
  }

  lemma GroupIsOnFluent(es: seq<Sexp>, e: Sexp)
    requires AllIndexable(es) && PrintableFluents(es) && e in es && IsChange(e)
    ensures OnFluent(Within(es, {FluentKey(e)}), e.items[1])
  {
    forall d | d in Within(es, {FluentKey(e)}) ensures Indexable(d) && IsChange(d) && d.items[1] == e.items[1] {
      WithinHas(es, {FluentKey(e)}, d);
      DumpIsInjective(d.items[1], e.items[1]);
    }
  }

  /** Once `n` effects are handled, the output adds what all changes to the fluents seen so far add. */
  lemma {:induction false} MergedNet(env: Env, v: Fluents, es: seq<Sexp>, n: nat, key: string)
    requires AllIndexable(es) && PrintableFluents(es) && n <= |es| && env.number("0") == 0.0
    ensures Net(env, v, Merged(es, n), key) == Net(env, v, Within(es, Seen(es, n)), key)
  {
    hide Net, Within, Merged;
    if n == 0 {
      NothingToAdd(env, v, key);
      MergedNothing(es);
      NothingWithin(es, {});
      assert Seen(es, 0) == {};
    } else {
      MergedNet(env, v, es, n - 1, key);
      MergedStep(env, v, es, n, key);
    }
  }

  lemma MergedNothing(es: seq<Sexp>)
    requires AllIndexable(es)
    ensures Merged(es, 0) == []
  {
  }

  /** A key met again stands for at least two changes. */
  lemma {:induction false} TwiceWithin(es: seq<Sexp>, i: nat, j: nat)
    requires AllIndexable(es) && i < j < |es|
    requires IsChange(es[i]) && IsChange(es[j]) && FluentKey(es[i]) == FluentKey(es[j])
    ensures |Within(es, {FluentKey(es[j])})| > 1
  {
    var n := |es| - 1;
    if j < n {
      TwiceWithin(es[..n], i, j);
    } else {
      assert es[..n][i] in es[..n];
      WithinHas(es[..n], {FluentKey(es[j])}, es[i]);
    }
  }

  lemma DoneIfSeen(es: seq<Sexp>, n: nat)
    requires AllIndexable(es) && n < |es| && IsChange(es[n])
    ensures FluentKey(es[n]) in Seen(es, n) ==> |Within(es, {FluentKey(es[n])})| > 1
    ensures |Within(es, {FluentKey(es[n])})| > 1 ==>
              (FluentKey(es[n]) in DoneKeys(es, n) <==> FluentKey(es[n]) in Seen(es, n))
  {
    if i :| 0 <= i < n && IsChange(es[i]) && FluentKey(es[i]) == FluentKey(es[n]) {
      TwiceWithin(es, i, n);
    }
  }

  /** A change that is alone on its fluent is the whole group. */
  lemma AloneWithin(es: seq<Sexp>, e: Sexp)
    requires AllIndexable(es) && e in es && IsChange(e) && |Within(es, {FluentKey(e)})| <= 1
    ensures Within(es, {FluentKey(e)}) == [e]
  {
    WithinHas(es, {FluentKey(e)}, e);
  }

  lemma NoChangeNoDelta(env: Env, v: Fluents, e: Sexp, key: string)
    requires !IsChange(e)
    ensures Delta(env, v, e, key) == 0.0
  {
  }

  lemma MergedStep(env: Env, v: Fluents, es: seq<Sexp>, n: nat, key: string)
    requires AllIndexable(es) && PrintableFluents(es) && 0 < n <= |es| && env.number("0") == 0.0
    requires Net(env, v, Merged(es, n - 1), key) == Net(env, v, Within(es, Seen(es, n - 1)), key)
    ensures Net(env, v, Merged(es, n), key) == Net(env, v, Within(es, Seen(es, n)), key)
  {
    hide Net, Within, Combined, OnFluent, PrintableFluents;
    var e := es[n - 1];
    if !IsChange(e) {
      assert Seen(es, n) == Seen(es, n - 1);
      NetSnoc(env, v, Merged(es, n - 1), e, key);
      NoChangeNoDelta(env, v, e, key);
    } else {
      var k := FluentKey(e);
      var group := Within(es, {k});
      assert Seen(es, n) == Seen(es, n - 1) + {k};
      DoneIfSeen(es, n - 1);
      GroupIsOnFluent(es, e);
      if k in Seen(es, n - 1) {
        assert Seen(es, n) == Seen(es, n - 1);
        assert Merged(es, n - 1) + [] == Merged(es, n - 1);
      } else {
        NetSplits(env, v, es, Seen(es, n - 1), k, key);
        if |group| > 1 {
          CombinedNet(env, v, group, e.items[1], key);
          NetAppend(env, v, Merged(es, n - 1), Combined(group, e.items[1]), key);
        } else {
          AloneWithin(es, e);
          NetAppend(env, v, Merged(es, n - 1), [e], key);
        }
      }
    }
  }

  lemma {:induction false} AllSeen(env: Env, v: Fluents, es: seq<Sexp>, keys: set<string>, key: string)
    requires AllIndexable(es) && forall e | e in es && IsChange(e) :: FluentKey(e) in keys
    ensures Net(env, v, Within(es, keys), key) == Net(env, v, es, key)
  {
    if es != [] {
      var n := |es| - 1;
      assert forall e | e in es[..n] :: e in es;
      assert es[n] in es;
      AllSeen(env, v, es[..n], keys, key);
      NetWithin(env, v, es, keys, key);
      if !IsChange(es[n]) {
        NoChangeNoDelta(env, v, es[n], key);
      }
    }
  }

  /** Merging keeps the net change of every ground fluent, whatever the binding and the current values. */
  lemma MergingKeepsNetChange(env: Env, v: Fluents, es: seq<Sexp>, key: string)
    requires AllIndexable(es) && PrintableFluents(es) && env.number("0") == 0.0
    ensures Net(env, v, Merged(es, |es|), key) == Net(env, v, es, key)
  {
    MergedNet(env, v, es, |es|, key);
    forall e | e in es && IsChange(e) ensures FluentKey(e) in Seen(es, |es|) {
      var i :| 0 <= i < |es| && es[i] == e;
      assert FluentKey(es[i]) in Seen(es, |es|);
    }
    AllSeen(env, v, es, Seen(es, |es|), key);
  }

  // ---- start changes, then end changes ----

  function After(env: Env, v: Fluents, es: seq<Sexp>): Fluents {
    key => v(key) + Net(env, v, es, key)
  }

  /** The fluents that the effects change. */
  function Changed(b: Binding, es: seq<Sexp>): set<string> {
    set e | e in es && IsChange(e) && |e.items| > 2 :: Key(b, e.items[1])
  }

  /** No amount of an end change reads a fluent that a start change touches. */
  predicate EndReadsNoStartChange(b: Binding, se: seq<Sexp>, ee: seq<Sexp>) {
    forall e | e in ee && IsChange(e) && |e.items| > 2 :: FluentsIn(b, e.items[2]) * Changed(b, se) == {}
  }

  lemma {:induction false} UnchangedNet(env: Env, v: Fluents, es: seq<Sexp>, key: string)
    requires key !in Changed(env.binding, es)
    ensures Net(env, v, es, key) == 0.0
  {
    if es != [] {
      var n := |es| - 1;
      assert forall e | e in es[..n] :: e in es;
      assert es[n] in es;
      UnchangedNet(env, v, es[..n], key);
    }
  }

  lemma {:induction false} SameAmounts(env: Env, v: Fluents, w: Fluents, es: seq<Sexp>, key: string)
    requires forall e | e in es && IsChange(e) && |e.items| > 2 :: Agree(v, w, FluentsIn(env.binding, e.items[2]))
    ensures Net(env, v, es, key) == Net(env, w, es, key)
  {
    hide Eval, FluentsIn, Agree;
    if es != [] {
      var n := |es| - 1;
      assert forall e | e in es[..n] :: e in es;
      assert es[n] in es;
      SameAmounts(env, v, w, es[..n], key);
      if IsChange(es[n]) && |es[n].items| > 2 {
        EvalDependsOn(env, v, w, es[n].items[2]);
      }
    }
  }

  lemma BodiesPrintable(effs: seq<Effect>, beginning: bool)
    requires forall e | e in effs :: IsEffect(e)
    ensures PrintableFluents(Bodies(effs, beginning))
  {
    forall x | x in Bodies(effs, beginning) && IsChange(x) && |x.items| > 1 ensures Printable(x.items[1]) {
      BodyOf(effs, beginning, x);
      var e :| e in effs && Body(e) == x;
      EffectReadsBack(e);
      BodyAtom(e);
    }
  }

  lemma {:induction false} KeptStartNet(env: Env, v: Fluents, se: seq<Sexp>, ends: set<string>, key: string)
    requires AllIndexable(se)
    ensures Net(env, v, KeptStart(se, ends), key) == Net(env, v, se, key)
  {
    if se != [] {
      var e, rest := se[0], se[1..];
      assert [e] + rest == se;
      KeptStartNet(env, v, rest, ends, key);
      NetCons(env, v, e, rest, key);
      NetCons(env, v, e, KeptStart(rest, ends), key);
      if Simple(e) {
        NoChangeNoDelta(env, v, e, key);
      }
      assert [] + KeptStart(rest, ends) == KeptStart(rest, ends);
    }
  }

  /** End changes evaluated after the start changes add what they add before them. */
  lemma EndReadsTheSame(env: Env, v: Fluents, se: seq<Sexp>, ee: seq<Sexp>, key: string)
    requires EndReadsNoStartChange(env.binding, se, ee)
    ensures Net(env, After(env, v, se), ee, key) == Net(env, v, ee, key)
  {
    hide Net, FluentsIn, Changed;
    var w := After(env, v, se);
    forall e | e in ee && IsChange(e) && |e.items| > 2 ensures Agree(v, w, FluentsIn(env.binding, e.items[2])) {
      forall k | k in FluentsIn(env.binding, e.items[2]) ensures v(k) == w(k) {
        assert FluentsIn(env.binding, e.items[2]) * Changed(env.binding, se) == {};
        assert k !in FluentsIn(env.binding, e.items[2]) * Changed(env.binding, se);
        assert k !in Changed(env.binding, se);
        UnchangedNet(env, v, se, k);
      }
    }
    SameAmounts(env, v, w, ee, key);
  }

  /** The compressed effect adds what the start and the end changes add, all read before the action. */
  lemma MergedNetOfBodies(da: Sexp, a: Literals, env: Env, v: Fluents, key: string)
    requires HasProperties(da) && Reads(da, a) && env.number("0") == 0.0
    ensures CanCompress(da)
    ensures Net(env, v, CompressedEffect(da), key) ==
              Net(env, v, Bodies(a.effs, true), key) + Net(env, v, Bodies(a.effs, false), key)
  {
    ListsOf(da, a);
    EffectsPrintable(da, a);
    hide Net, Bodies, Reads, HasProperties, PrintableFluents, Merged, KeptStart, KeysOf;
    var se, ee := Bodies(a.effs, true), Bodies(a.effs, false);
    MergingKeepsNetChange(env, v, EffectsInOrder(da), key);
    var ends := KeysOf(ee, true) + KeysOf(ee, false);
    NetAppend(env, v, KeptStart(se, ends), ee, key);
    KeptStartNet(env, v, se, ends, key);
  }

  /**
   * The compressed action leaves every fluent with the value that start changes and then end changes
   * leave it with, provided no end amount reads a fluent that the start changes.
   */
  lemma FinalFluentsAgree(da: Sexp, a: Literals, env: Env, v: Fluents, key: string)
    requires HasProperties(da) && Reads(da, a) && env.number("0") == 0.0
    requires EndReadsNoStartChange(env.binding, Bodies(a.effs, true), Bodies(a.effs, false))
    ensures CanCompress(da)
    ensures After(env, v, CompressedEffect(da))(key) ==
              After(env, After(env, v, Bodies(a.effs, true)), Bodies(a.effs, false))(key)
  {
    MergedNetOfBodies(da, a, env, v, key);
    hide Net, Bodies, EndReadsNoStartChange, Reads, HasProperties, CompressedEffect, CanCompress;
    EndReadsTheSame(env, v, Bodies(a.effs, true), Bodies(a.effs, false), key);
  }

  lemma EffectsPrintable(da: Sexp, a: Literals)
    requires HasProperties(da) && Reads(da, a) && CanCompress(da)
    ensures PrintableFluents(EffectsInOrder(da))
  {
    ListsOf(da, a);
    BodiesPrintable(a.effs, true);
    BodiesPrintable(a.effs, false);
  }

  // ---- exactly when the early reading does no harm ----

  /** The fluents that an amount reads, as written. */
  function Reading(e: Sexp): set<Sexp>
    decreases e
  {
    if e.Atom? then {}
    else if !IsOperation(e) then {e}
    else ReadingAll(e.items[1..])
  }

  function ReadingAll(es: seq<Sexp>): set<Sexp>
    decreases es
  {
    if es == [] then {} else Reading(es[0]) + ReadingAll(es[1..])
  }

  lemma {:induction false} FluentsAreKeys(b: Binding, e: Sexp)
    ensures FluentsIn(b, e) == Keys(b, Reading(e))
    decreases e
  {
    if IsOperation(e) {
      AllFluentsAreKeys(b, e.items[1..]);
    }
  }

  lemma {:induction false} AllFluentsAreKeys(b: Binding, es: seq<Sexp>)
    ensures FluentsInAll(b, es) == Keys(b, ReadingAll(es))
    decreases es
  {
    if es != [] {
      FluentsAreKeys(b, es[0]);
      AllFluentsAreKeys(b, es[1..]);
    }
  }

  /** Start changes touch only the fluents of `touched`, and end amounts read only those of `read`. */
  ghost predicate Confined(a: Literals, touched: set<Sexp>, read: set<Sexp>) {
    && (forall e | e in Bodies(a.effs, true) && IsChange(e) && |e.items| > 2 :: e.items[1] in touched)
    && (forall e | e in Bodies(a.effs, false) && IsChange(e) && |e.items| > 2 :: Reading(e.items[2]) <= read)
  }

  ghost predicate AreFluents(xs: set<Sexp>) {
    forall x | x in xs :: x.List? && !IsOperation(x) && Printable(x) && Untimed(x)
  }

  lemma ConfinedReadsNoStartChange(b: Binding, a: Literals, touched: set<Sexp>, read: set<Sexp>)
    requires Confined(a, touched, read) && Keys(b, touched) !! Keys(b, read)
    ensures EndReadsNoStartChange(b, Bodies(a.effs, true), Bodies(a.effs, false))
  {
    var se, ee := Bodies(a.effs, true), Bodies(a.effs, false);
    hide Bodies, FluentsIn, Reading, Key;
    assert Changed(b, se) <= Keys(b, touched);
    forall e | e in ee && IsChange(e) && |e.items| > 2 ensures FluentsIn(b, e.items[2]) * Changed(b, se) == {} {
      FluentsAreKeys(b, e.items[2]);
      assert Keys(b, Reading(e.items[2])) <= Keys(b, read);
    }
  }

  /** At the start `x` grows by one, at the end `z` by itself. */
  function EarlyReader(x: Sexp, z: Sexp): Literals {
    Literals([], [Change(Start, x, Atom("1"), true), Change(End, z, z, true)])
  }

  function EarlyReaderTree(x: Sexp, z: Sexp): Sexp {
    List([Atom(":durative-action"), Atom("grow"),
          Atom(":effect"), List([Atom("and")] + EffectTrees(EarlyReader(x, z).effs))])
  }

  lemma EarlyReaderBodies(x: Sexp, z: Sexp)
    ensures var a := EarlyReader(x, z);
            && EffectTrees(a.effs) == [EffectTree(a.effs[0]), EffectTree(a.effs[1])]
            && Bodies(a.effs, true) == [Body(a.effs[0])] && Bodies(a.effs, false) == [Body(a.effs[1])]
  {
    var a := EarlyReader(x, z);
    assert a.effs[1..] == [a.effs[1]] && a.effs[1..][1..] == [];
    assert Bodies(a.effs[1..][1..], true) == [] && Bodies(a.effs[1..][1..], false) == [];
  }

  lemma EarlyReaderReads(x: Sexp, z: Sexp)
    requires AreFluents({x, z})
    ensures HasProperties(EarlyReaderTree(x, z)) && Reads(EarlyReaderTree(x, z), EarlyReader(x, z))
    ensures Confined(EarlyReader(x, z), {x}, {z})
  {
    var da, a := EarlyReaderTree(x, z), EarlyReader(x, z);
    EarlyReaderFields(x, z);
    EarlyReaderBodies(x, z);
    assert a.effs == [Change(Start, x, Atom("1"), true), Change(End, z, z, true)];
    assert AreFluents({x, z}) && x in {x, z} && z in {x, z};
    assert Conj(List([])) == [] && ConditionTrees([]) == [];
    hide Conj, Field, Printable, Untimed, IsOperation, EffectTrees, Bodies;
    assert forall e | e in a.effs :: IsEffect(e) by {
      assert Untimed(Atom("1")) by {
        AtomUntimed("1");
      }
    }
  }

  lemma AtomUntimed(text: string)
    ensures Untimed(Atom(text))
  {
  }

  lemma EarlyReaderFields(x: Sexp, z: Sexp)
    ensures var da, a := EarlyReaderTree(x, z), EarlyReader(x, z);
            HasProperties(da) && Conj(Field(da, ":effect")) == EffectTrees(a.effs) && Field(da, ":condition") == List([])
  {
    var da, a := EarlyReaderTree(x, z), EarlyReader(x, z);
    var t, u := EffectTree(a.effs[0]), EffectTree(a.effs[1]);
    EarlyReaderBodies(x, z);
    assert FieldFrom(da.items, ":effect", 4).None? && |":effect"| != |":condition"|;
    assert da.items[2] == Atom(":effect") && FieldFrom(da.items, ":condition", 4).None?;
    assert [Atom("and")] + EffectTrees(a.effs) == [Atom("and"), t, u];
    assert Field(da, ":effect") == List([Atom("and"), t, u]) && Field(da, ":condition") == List([]);
    assert t.items[0] == Atom("at") && u.items[0] == Atom("at") && "at"[1] != "and"[1];
    TwoConjuncts(t, u);
  }

  lemma TwoConjuncts(t: Sexp, u: Sexp)
    requires !Headed(t, "and") && t != List([]) && !Headed(u, "and") && u != List([])
    ensures Conj(List([Atom("and"), t, u])) == [t, u]
  {
    assert [Atom("and"), t, u][1..] == [t, u] && [t, u][1..] == [u] && [u][1..] == [];
    var f := List([Atom("and"), t, u]);
    assert Headed(f, "and") && Conj(f) == ConjAll(f.items[1..]);
    assert Conj(t) == [t] && Conj(u) == [u] && ConjAll([]) == [];
    assert ConjAll([u]) == [u];
    assert ConjAll([t, u]) == [t] + ConjAll([u]);
  }

  lemma EarlyReaderDeltas(env: Env, v: Fluents, x: Sexp, z: Sexp)
    requires AreFluents({x, z}) && Key(env.binding, x) == Key(env.binding, z)
    ensures var effs, key := EarlyReader(x, z).effs, Key(env.binding, x);
            && Delta(env, v, Body(effs[0]), key) == env.number("1")
            && Delta(env, v, Body(effs[1]), key) == v(key)
  {
    assert AreFluents({x, z}) && x in {x, z} && z in {x, z};
    hide Key;
  }

  /** From the value `v`, the compressed action adds `v` to the common fluent, the sequential one `v` and one more. */
  lemma EarlyReaderDiffers(env: Env, v: Fluents, x: Sexp, z: Sexp)
    requires AreFluents({x, z}) && Key(env.binding, x) == Key(env.binding, z)
    requires env.number("0") == 0.0 && env.number("1") != 0.0
    ensures CanCompress(EarlyReaderTree(x, z))
    ensures var da, a, key := EarlyReaderTree(x, z), EarlyReader(x, z), Key(env.binding, x);
            After(env, v, CompressedEffect(da))(key) !=
              After(env, After(env, v, Bodies(a.effs, true)), Bodies(a.effs, false))(key)
  {
    hide *;
    var da, a, key := EarlyReaderTree(x, z), EarlyReader(x, z), Key(env.binding, x);
    var se, ee := Bodies(a.effs, true), Bodies(a.effs, false);
    var w := After(env, v, se);
    EarlyReaderReads(x, z);
    MergedNetOfBodies(da, a, env, v, key);
    EarlyReaderNets(env, v, x, z);
    EarlyReaderNets(env, w, x, z);
    AfterAt(env, v, CompressedEffect(da), key);
    AfterAt(env, v, se, key);
    AfterAt(env, w, ee, key);
  }

  lemma AfterAt(env: Env, v: Fluents, es: seq<Sexp>, key: string)
    ensures After(env, v, es)(key) == v(key) + Net(env, v, es, key)
  {
  }

  lemma EarlyReaderNets(env: Env, v: Fluents, x: Sexp, z: Sexp)
    requires AreFluents({x, z}) && Key(env.binding, x) == Key(env.binding, z)
    ensures var effs, key := EarlyReader(x, z).effs, Key(env.binding, x);
            && Net(env, v, Bodies(effs, true), key) == env.number("1")
            && Net(env, v, Bodies(effs, false), key) == v(key)
  {
    EarlyReaderBodies(x, z);
    EarlyReaderDeltas(env, v, x, z);
    var effs, key := EarlyReader(x, z).effs, Key(env.binding, x);
    hide Key, Bodies, EarlyReader, Net, Delta, AreFluents;
    NetOne(env, v, Body(effs[0]), key);
    NetOne(env, v, Body(effs[1]), key);
  }

  lemma NetOne(env: Env, v: Fluents, e: Sexp, key: string)
    ensures Net(env, v, [e], key) == Delta(env, v, e, key)
  {
    assert [e][..0] == [];
  }

  // ---- whole plans ----

  /** A step whose merged changes can be trusted. */
  ghost predicate Mergeable(s: PlanAction) {
    && HasProperties(s.da) && Reads(s.da, s.literals) && CanCompress(s.da)
    && EndReadsNoStartChange(s.binding, Bodies(s.literals.effs, true), Bodies(s.literals.effs, false))
  }

  function SequentialFluents(plan: seq<PlanAction>, number: string -> real, v: Fluents): Fluents {
    if plan == [] then v
    else
      var env, effs := Env(plan[0].binding, number), plan[0].literals.effs;
      SequentialFluents(plan[1..], number, After(env, After(env, v, Bodies(effs, true)), Bodies(effs, false)))
  }

  function CompressedFluents(plan: seq<PlanAction>, number: string -> real, v: Fluents): Fluents
    requires forall s | s in plan :: CanCompress(s.da)
  {
    if plan == [] then v
    else
      var s := plan[0];
      assert s in plan;
      CompressedFluents(plan[1..], number, After(Env(s.binding, number), v, CompressedEffect(s.da)))
  }

  lemma SameValuesAfter(env: Env, v: Fluents, w: Fluents, es: seq<Sexp>, key: string)
    requires forall k :: v(k) == w(k)
    ensures After(env, v, es)(key) == After(env, w, es)(key)
  {
    SameAmounts(env, v, w, es, key);
  }

  /** From equal values, a plan and its compressed plan leave every fluent with equal values. */
  lemma {:induction false} PlansKeepFluents(
    plan: seq<PlanAction>, number: string -> real, v: Fluents, w: Fluents, key: string)
    requires (forall s | s in plan :: Mergeable(s)) && (forall s | s in plan :: CanCompress(s.da))
    requires number("0") == 0.0 && forall k :: v(k) == w(k)
    ensures SequentialFluents(plan, number, v)(key) == CompressedFluents(plan, number, w)(key)
  {
    hide After, Bodies, EndReadsNoStartChange, CompressedEffect, CanCompress, Reads, HasProperties;
    if plan != [] {
      var s := plan[0];
      assert s in plan && forall t | t in plan[1..] :: t in plan;
      var env, effs := Env(s.binding, number), s.literals.effs;
      var v' := After(env, After(env, v, Bodies(effs, true)), Bodies(effs, false));
      var w' := After(env, w, CompressedEffect(s.da));
      forall k ensures v'(k) == w'(k) {
        FinalFluentsAgree(s.da, s.literals, env, v, k);
        SameValuesAfter(env, v, w, CompressedEffect(s.da), k);
      }
      PlansKeepFluents(plan[1..], number, v', w', key);
    }
  }

  /** The plan's actions read as literals, confined to these fluents, under bindings from `bindings`. */
  ghost predicate ConfinedPlan(
    plan: seq<PlanAction>, bindings: iset<Binding>, touched: set<Sexp>, read: set<Sexp>)
  {
    forall s | s in plan ::
      HasProperties(s.da) && Reads(s.da, s.literals) && s.binding in bindings && Confined(s.literals, touched, read)
  }

  lemma ConfinedCanCompress(plan: seq<PlanAction>, bindings: iset<Binding>, touched: set<Sexp>, read: set<Sexp>)
    requires ConfinedPlan(plan, bindings, touched, read)
    ensures forall s | s in plan :: CanCompress(s.da)
  {
    forall s | s in plan ensures CanCompress(s.da) {
      ListsOf(s.da, s.literals);
    }
  }

  /** The plan and its compressed plan leave every fluent with equal values. */
  ghost predicate PlanKeepsFluents(plan: seq<PlanAction>, number: string -> real, v: Fluents) {
    && (forall s | s in plan :: CanCompress(s.da))
    && forall key :: SequentialFluents(plan, number, v)(key) == CompressedFluents(plan, number, v)(key)
  }

  /**
   * All plans whose start changes touch only `touched` and whose end amounts read only `read` keep
   * every fluent from every starting value, exactly when under none of the bindings a touched and a
   * read fluent are one ground fluent.
   */
  lemma PlansKeepFluentsIff(number: string -> real, bindings: iset<Binding>, touched: set<Sexp>, read: set<Sexp>)
    requires number("0") == 0.0 && number("1") != 0.0 && AreFluents(touched) && AreFluents(read)
    ensures (forall plan, v | ConfinedPlan(plan, bindings, touched, read) :: PlanKeepsFluents(plan, number, v))
       <==> forall b | b in bindings :: Keys(b, touched) !! Keys(b, read)
  {
    if forall b | b in bindings :: Keys(b, touched) !! Keys(b, read) {
      forall plan, v | ConfinedPlan(plan, bindings, touched, read) ensures PlanKeepsFluents(plan, number, v) {
        ConfinedPlanKeepsFluents(plan, number, v, bindings, touched, read);
      }
    } else {
      var b :| b in bindings && !(Keys(b, touched) !! Keys(b, read));
      var key :| key in Keys(b, touched) && key in Keys(b, read);
      var x :| x in touched && Key(b, x) == key;
      var z :| z in read && Key(b, z) == key;
      EarlyReaderPlan(number, b, x, z, bindings, touched, read);
    }
  }

  lemma ConfinedPlanKeepsFluents(
    plan: seq<PlanAction>, number: string -> real, v: Fluents, bindings: iset<Binding>, touched: set<Sexp>,
    read: set<Sexp>)
    requires ConfinedPlan(plan, bindings, touched, read) && number("0") == 0.0
    requires forall b | b in bindings :: Keys(b, touched) !! Keys(b, read)
    ensures PlanKeepsFluents(plan, number, v)
  {
    ConfinedCanCompress(plan, bindings, touched, read);
    hide Reads, HasProperties, CanCompress, Confined, EndReadsNoStartChange, Keys, SequentialFluents, CompressedFluents;
    forall s | s in plan ensures Mergeable(s) {
      ConfinedReadsNoStartChange(s.binding, s.literals, touched, read);
    }
    forall key ensures SequentialFluents(plan, number, v)(key) == CompressedFluents(plan, number, v)(key) {
      PlansKeepFluents(plan, number, v, v, key);
    }
  }

  lemma EarlyReaderPlan(
    number: string -> real, b: Binding, x: Sexp, z: Sexp, bindings: iset<Binding>, touched: set<Sexp>, read: set<Sexp>)
    requires number("0") == 0.0 && number("1") != 0.0 && AreFluents(touched) && AreFluents(read)
    requires b in bindings && x in touched && z in read && Key(b, x) == Key(b, z)
    ensures exists plan, v :: ConfinedPlan(plan, bindings, touched, read) && !PlanKeepsFluents(plan, number, v)
  {
    hide *;
    var v: Fluents := _ => 0.0;
    var env, s := Env(b, number), PlanAction(EarlyReaderTree(x, z), EarlyReader(x, z), b);
    PairOfFluents(x, z, touched, read);
    EarlyReaderReads(x, z);
    EarlyReaderDiffers(env, v, x, z);
    ConfinedGrows(s.literals, {x}, {z}, touched, read);
    OneStepConfined(s, bindings, touched, read);
    OneStepPlan(s, number, v, Key(b, x));
    OneStepBreaks([s], number, v, Key(b, x));
  }

  lemma PairOfFluents(x: Sexp, z: Sexp, touched: set<Sexp>, read: set<Sexp>)
    requires AreFluents(touched) && AreFluents(read) && x in touched && z in read
    ensures AreFluents({x, z})
  {
    hide Printable, Untimed, IsOperation;
  }

  lemma OneStepConfined(s: PlanAction, bindings: iset<Binding>, touched: set<Sexp>, read: set<Sexp>)
    requires HasProperties(s.da) && Reads(s.da, s.literals) && s.binding in bindings && Confined(s.literals, touched, read)
    ensures ConfinedPlan([s], bindings, touched, read)
  {
  }

  lemma OneStepBreaks(plan: seq<PlanAction>, number: string -> real, v: Fluents, key: string)
    requires forall s | s in plan :: CanCompress(s.da)
    requires SequentialFluents(plan, number, v)(key) != CompressedFluents(plan, number, v)(key)
    ensures !PlanKeepsFluents(plan, number, v)
  {
  }

  lemma ConfinedGrows(a: Literals, touched: set<Sexp>, read: set<Sexp>, touched': set<Sexp>, read': set<Sexp>)
    requires Confined(a, touched, read) && touched <= touched' && read <= read'
    ensures Confined(a, touched', read')
  {
  }

  lemma OneStepPlan(s: PlanAction, number: string -> real, v: Fluents, key: string)
    requires CanCompress(s.da)
    ensures var env, effs := Env(s.binding, number), s.literals.effs;
            && SequentialFluents([s], number, v)(key) ==
                 After(env, After(env, v, Bodies(effs, true)), Bodies(effs, false))(key)
            && CompressedFluents([s], number, v)(key) == After(env, v, CompressedEffect(s.da))(key)
  {
    hide After, Bodies, CompressedEffect, CanCompress;
    assert [s][1..] == [];
  }
}
