// Enumerating the bindings of a parameter list: the lazy odometer and the product it walks.
module Bindings {
  import opened Prelude
  import opened HddlAst

  type Binding = map<Name, Name>

  /** The object universe: every known type with its objects, in name order. */
  type ObjectIndex = map<Name, seq<Name>>

  function ObjectsOf(objs: ObjectIndex, ty: Name): seq<Name> {
    if ty in objs then objs[ty] else []
  }

  function VarsOf(params: seq<TypedParam>): seq<Name> {
    seq(|params|, i requires 0 <= i < |params| => params[i].v)
  }

  function ChoicesOf(params: seq<TypedParam>, objs: ObjectIndex): seq<seq<Name>> {
    seq(|params|, i requires 0 <= i < |params| => ObjectsOf(objs, params[i].ty))
  }

  // ---- the eager product: one nested loop per parameter, the last one innermost ----

  function ExtendOne(b: Binding, v: Name, cs: seq<Name>): seq<Binding> {
    seq(|cs|, j requires 0 <= j < |cs| => b[v := cs[j]])
  }

  function ExtendAll(bs: seq<Binding>, v: Name, cs: seq<Name>): seq<Binding> {
    if bs == [] then [] else ExtendOne(bs[0], v, cs) + ExtendAll(bs[1..], v, cs)
  }

  function Product(vars: seq<Name>, choices: seq<seq<Name>>): seq<Binding>
    requires |vars| == |choices|
  {
    if vars == [] then [map[]]
    else
      var n := |vars| - 1;
      ExtendAll(Product(vars[..n], choices[..n]), vars[n], choices[n])
  }

  /** Every binding of `params`, in nested-loop order. */
  function BindingsOf(params: seq<TypedParam>, objs: ObjectIndex): seq<Binding> {
    Product(VarsOf(params), ChoicesOf(params, objs))
  }

  // ---- index tuples, their mixed-radix value, and the odometer's step ----

  ghost predicate ValidIdx(idx: seq<nat>, choices: seq<seq<Name>>) {
    |idx| == |choices| && forall i | 0 <= i < |idx| :: idx[i] < |choices[i]|
  }

  /** The mixed-radix number whose digits are `idx`, the last digit least significant. */
  function ValueOf(idx: seq<nat>, choices: seq<seq<Name>>): nat
    requires |idx| == |choices|
  {
    if idx == [] then 0
    else
      var n := |idx| - 1;
      ValueOf(idx[..n], choices[..n]) * |choices[n]| + idx[n]
  }

  /** The number of index tuples. */
  function Size(choices: seq<seq<Name>>): nat {
    if choices == [] then 1
    else Size(choices[..|choices| - 1]) * |choices[|choices| - 1]|
  }

  /** The binding selected by an index tuple; a later parameter overrides an earlier namesake. */
  function Select(vars: seq<Name>, choices: seq<seq<Name>>, idx: seq<nat>): Binding
    requires |vars| == |choices| && ValidIdx(idx, choices)
  {
    if vars == [] then map[]
    else
      var n := |vars| - 1;
      Select(vars[..n], choices[..n], idx[..n])[vars[n] := choices[n][idx[n]]]
  }

  /** The next index tuple, or `None` after the last one. */
  function Successor(idx: seq<nat>, choices: seq<seq<Name>>): Option<seq<nat>>
    requires |idx| == |choices|
  {
    if idx == [] then None
    else
      var n := |idx| - 1;
      if idx[n] + 1 < |choices[n]| then Some(idx[..n] + [idx[n] + 1])
      else PadZeros(Successor(idx[..n], choices[..n]), 1)
  }

  function Zeros(k: nat): seq<nat> {
    seq(k, _ => 0)
  }

  function PadZeros(o: Option<seq<nat>>, k: nat): Option<seq<nat>> {
    match o
    case None => None
    case Some(s) => Some(s + Zeros(k))
  }

  lemma PadTwice(o: Option<seq<nat>>, k: nat)
    ensures PadZeros(PadZeros(o, 1), k) == PadZeros(o, k + 1)
    ensures PadZeros(o, 0) == o
  {
    if o.Some? {
      assert o.value + Zeros(1) + Zeros(k) == o.value + Zeros(k + 1);
      assert o.value + Zeros(0) == o.value;
    }
  }

  /** A tuple whose later places are zero, with the place `pos` raised by one, and with it zeroed. */
  lemma StepPlace(idx: seq<nat>, pos: nat, k: nat)
    requires pos < |idx|
    ensures var now := idx[..pos + 1] + Zeros(k);
            && now[pos] == idx[pos]
            && now[pos := idx[pos] + 1] == idx[..pos] + [idx[pos] + 1] + Zeros(k)
            && now[pos := 0] == idx[..pos] + Zeros(k + 1)
  {
  }

  lemma PadSome(s: seq<nat>, k: nat)
    ensures PadZeros(Some(s), k) == Some(s + Zeros(k))
    ensures PadZeros(None, k) == None
  {
  }

  lemma NothingBefore(idx: seq<nat>, choices: seq<seq<Name>>)
    requires |idx| == |choices|
    ensures Successor(idx[..0], choices[..0]) == None
    ensures forall k: nat :: PadZeros(None, k) == None
    ensures Zeros(0) == []
  {
  }

  /** The successor of a tuple's first places: one more in the last of them, or a carry to the left. */
  lemma SuccessorOfPrefix(idx: seq<nat>, choices: seq<seq<Name>>, pos: nat)
    requires |idx| == |choices| && pos < |idx|
    ensures Successor(idx[..pos + 1], choices[..pos + 1]) ==
              if idx[pos] + 1 < |choices[pos]| then Some(idx[..pos] + [idx[pos] + 1])
              else PadZeros(Successor(idx[..pos], choices[..pos]), 1)
  {
    assert idx[..pos + 1][..pos] == idx[..pos] && choices[..pos + 1][..pos] == choices[..pos];
  }

  lemma {:induction false} ExtendAllAt(bs: seq<Binding>, v: Name, cs: seq<Name>, i: nat, j: nat)
    requires i < |bs| && j < |cs|
    ensures |ExtendAll(bs, v, cs)| == |bs| * |cs|
    ensures i * |cs| + j < |bs| * |cs|
    ensures ExtendAll(bs, v, cs)[i * |cs| + j] == bs[i][v := cs[j]]
  {
    ExtendAllLength(bs, v, cs);
    RowBound(i, j, |bs|, |cs|);
    if i > 0 {
      ExtendAllAt(bs[1..], v, cs, i - 1, j);
      assert (i - 1) * |cs| + j + |cs| == i * |cs| + j;
      assert bs[1..][i - 1] == bs[i];
    }
  }

  lemma Distribute(a: nat, b: nat, n: nat)
    ensures (a + b) * n == a * n + b * n
    ensures 1 * n == n
  {
  }

  lemma RowBound(i: nat, j: nat, m: nat, n: nat)
    requires i < m && j < n
    ensures i * n + j < m * n
  {
    Distribute(i, m - i, n);
    Distribute(1, m - i - 1, n);
    assert 0 <= (m - i - 1) * n;
  }

  lemma {:induction false} ExtendAllLength(bs: seq<Binding>, v: Name, cs: seq<Name>)
    ensures |ExtendAll(bs, v, cs)| == |bs| * |cs|
  {
    if bs != [] {
      ExtendAllLength(bs[1..], v, cs);
      assert |bs| * |cs| == (|bs| - 1) * |cs| + |cs|;
    }
  }

  lemma {:induction false} ProductLength(vars: seq<Name>, choices: seq<seq<Name>>)
    requires |vars| == |choices|
    ensures |Product(vars, choices)| == Size(choices)
  {
    if vars != [] {
      var n := |vars| - 1;
      ProductLength(vars[..n], choices[..n]);
      ExtendAllLength(Product(vars[..n], choices[..n]), vars[n], choices[n]);
    }
  }

  /** The k-th binding of the nested loops is the one whose indices are the mixed-radix digits of k. */
  lemma {:induction false} ProductAt(vars: seq<Name>, choices: seq<seq<Name>>, idx: seq<nat>)
    requires |vars| == |choices| && ValidIdx(idx, choices)
    ensures ValueOf(idx, choices) < |Product(vars, choices)| == Size(choices)
    ensures Product(vars, choices)[ValueOf(idx, choices)] == Select(vars, choices, idx)
  {
    ProductLength(vars, choices);
    if vars != [] {
      var n := |vars| - 1;
      ProductAt(vars[..n], choices[..n], idx[..n]);
      ExtendAllAt(Product(vars[..n], choices[..n]), vars[n], choices[n],
                  ValueOf(idx[..n], choices[..n]), idx[n]);
    }
  }

  /** One odometer step adds one; there is no step exactly from the last tuple. */
  lemma {:induction false} SuccessorAddsOne(idx: seq<nat>, choices: seq<seq<Name>>)
    requires ValidIdx(idx, choices)
    ensures match Successor(idx, choices)
            case None => ValueOf(idx, choices) + 1 == Size(choices)
            case Some(s) => ValidIdx(s, choices) && ValueOf(s, choices) == ValueOf(idx, choices) + 1
  {
    if idx != [] {
      var n := |idx| - 1;
      var front, cfront, m := idx[..n], choices[..n], |choices[n]|;
      ValueSplits(idx, choices);
      hide ValueOf, ValidIdx;
      if idx[n] + 1 < m {
        assert (front + [idx[n] + 1])[..n] == front;
        ValueSplits(front + [idx[n] + 1], choices);
      } else {
        SuccessorAddsOne(front, cfront);
        Distribute(ValueOf(front, cfront), 1, m);
        if Successor(front, cfront).Some? {
          var f := Successor(front, cfront).value;
          assert (f + Zeros(1))[..n] == f;
          ValueSplits(f + Zeros(1), choices);
        }
      }
    }
  }

  lemma {:induction false} ValueBound(idx: seq<nat>, choices: seq<seq<Name>>)
    requires ValidIdx(idx, choices)
    ensures ValueOf(idx, choices) < Size(choices)
  {
    if idx != [] {
      var n := |idx| - 1;
      ValueBound(idx[..n], choices[..n]);
      RowBound(ValueOf(idx[..n], choices[..n]), idx[n], Size(choices[..n]), |choices[n]|);
    }
  }

  /** Different index tuples have different values, and every value below `Size` is some tuple's. */
  lemma {:induction false} ValueIsBijective(choices: seq<seq<Name>>, k: nat) returns (idx: seq<nat>)
    requires k < Size(choices)
    ensures ValidIdx(idx, choices) && ValueOf(idx, choices) == k
    ensures forall other | ValidIdx(other, choices) && ValueOf(other, choices) == k :: other == idx
  {
    if choices == [] {
      idx := [];
    } else {
      var n := |choices| - 1;
      var m := |choices[n]|;
      SizeSnoc(choices);
      QuotientBound(k, m, Size(choices[..n]));
      QuotientRemainder(k, m);
      var front := ValueIsBijective(choices[..n], k / m);
      idx := front + [k % m];
      assert idx[..n] == front;
      ValueSplits(idx, choices);
      forall other | ValidIdx(other, choices) && ValueOf(other, choices) == k ensures other == idx {
        SameValueSameTuple(other, choices, choices[..n], k / m, k % m, m, front);
      }
    }
  }

  lemma SizeSnoc(choices: seq<seq<Name>>)
    requires choices != [] && Size(choices) > 0
    ensures var n := |choices| - 1; |choices[n]| > 0 && Size(choices) == Size(choices[..n]) * |choices[n]|
  {
  }

  lemma ValueSplits(idx: seq<nat>, choices: seq<seq<Name>>)
    requires |idx| == |choices| && choices != []
    ensures var n := |idx| - 1;
            && (ValidIdx(idx, choices) <==> ValidIdx(idx[..n], choices[..n]) && idx[n] < |choices[n]|)
            && ValueOf(idx, choices) == ValueOf(idx[..n], choices[..n]) * |choices[n]| + idx[n]
  {
    var n := |idx| - 1;
    assert forall i | 0 <= i < n :: idx[..n][i] == idx[i] && choices[..n][i] == choices[i];
  }

  /** A tuple's digits are fixed by its value: the last by the remainder, the others by the quotient. */
  lemma SameValueSameTuple(
    idx: seq<nat>, choices: seq<seq<Name>>, cfront: seq<seq<Name>>, q: nat, r: nat, m: nat, front: seq<nat>)
    requires choices != [] && cfront == choices[..|choices| - 1] && m == |choices[|choices| - 1]| && r < m
    requires ValidIdx(idx, choices) && ValueOf(idx, choices) == q * m + r
    requires forall other | ValidIdx(other, cfront) && ValueOf(other, cfront) == q :: other == front
    ensures idx == front + [r]
  {
    var n := |choices| - 1;
    ValueSplits(idx, choices);
    hide ValueOf, ValidIdx;
    DigitsUnique(ValueOf(idx[..n], cfront), idx[n], q, r, m);
    assert idx == idx[..n] + [idx[n]];
  }

  lemma QuotientRemainder(k: nat, m: nat)
    requires m > 0
    ensures k == (k / m) * m + k % m && k % m < m
  {
  }

  lemma QuotientBound(k: nat, m: nat, t: nat)
    requires m > 0 && k < t * m
    ensures k / m < t
  {
    QuotientRemainder(k, m);
    if k / m >= t {
      Distribute(t, k / m - t, m);
    }
  }

  lemma DigitsUnique(a: nat, r: nat, b: nat, s: nat, m: nat)
    requires r < m && s < m && a * m + r == b * m + s
    ensures a == b && r == s
  {
    if a < b {
      RowBound(a, r, b, m);
    } else if b < a {
      RowBound(b, s, a, m);
    }
  }

  lemma {:induction false} EmptyChoice(choices: seq<seq<Name>>, i: nat)
    requires i < |choices| && choices[i] == []
    ensures Size(choices) == 0
  {
    var n := |choices| - 1;
    if i < n {
      EmptyChoice(choices[..n], i);
    }
  }

  lemma {:induction false} ValueOfZeros(choices: seq<seq<Name>>)
    requires forall i | 0 <= i < |choices| :: choices[i] != []
    ensures ValidIdx(Zeros(|choices|), choices) && ValueOf(Zeros(|choices|), choices) == 0
    ensures Size(choices) > 0
  {
    if choices != [] {
      var n := |choices| - 1;
      ValueOfZeros(choices[..n]);
      assert Zeros(|choices|)[..n] == Zeros(n);
    }
  }

  /** The lazy generator: an index tuple advanced in place, one binding per call. */
  class BindingIter {
    const vars: seq<Name>
    const choices: seq<seq<Name>>
    const idx: array<nat>
    var zeroParamYielded: Option<bool>
    var exhausted: bool

    ghost predicate Valid()
      reads this, idx
    {
      && |vars| == |choices| == idx.Length
      && (zeroParamYielded.Some? <==> vars == [])
      && (vars != [] && !exhausted ==> ValidIdx(idx[..], choices))
    }

    /** The bindings still to come. */
    ghost function Remaining(): seq<Binding>
      requires Valid()
      reads this, idx
    {
      if zeroParamYielded.Some? then (if zeroParamYielded.value then [] else [map[]])
      else if exhausted then []
      else
        ProductAt(vars, choices, idx[..]);
        Product(vars, choices)[ValueOf(idx[..], choices)..]
    }

    constructor (params: seq<TypedParam>, objs: ObjectIndex)
      ensures Valid() && fresh(idx)
      ensures Remaining() == BindingsOf(params, objs)
    {
      vars := VarsOf(params);
      choices := ChoicesOf(params, objs);
      idx := new nat[|params|](_ => 0);
      zeroParamYielded := if params == [] then Some(false) else None;
      exhausted := params != [] && exists i | 0 <= i < |params| :: ObjectsOf(objs, params[i].ty) == [];
      new;
      assert idx[..] == Zeros(|params|);
      if params != [] {
        ProductLength(vars, choices);
        if exhausted {
          var i :| 0 <= i < |params| && ObjectsOf(objs, params[i].ty) == [];
          EmptyChoice(choices, i);
          assert Product(vars, choices) == [];
        } else {
          ValueOfZeros(choices);
        }
      }
    }

    /** Yields the first remaining binding and drops it; once there is none, `None` for ever. */
    method Next() returns (r: Option<Binding>)
      requires Valid()
      modifies this, idx
      ensures Valid()
      ensures old(Remaining()) == [] ==> r == None && Remaining() == []
      ensures old(Remaining()) != [] ==> r == Some(old(Remaining())[0]) && Remaining() == old(Remaining())[1..]
    {
      if zeroParamYielded.Some? {
        if zeroParamYielded.value {
          return None;
        }
        zeroParamYielded := Some(true);
        return Some(map[]);
      }
      if exhausted {
        return None;
      }
      ghost var was := idx[..];
      ProductAt(vars, choices, was);
      SuccessorAddsOne(was, choices);
      var binding := Current();
      Advance();
      if !exhausted {
        ProductAt(vars, choices, idx[..]);
      } else {
        assert Product(vars, choices)[ValueOf(was, choices)..][1..] == [];
      }
      r := Some(binding);
    }

    /** The binding the index tuple selects. */
    method Current() returns (binding: Binding)
      requires Valid() && vars != [] && !exhausted
      ensures binding == Select(vars, choices, idx[..])
    {
      binding := map[];
      for i := 0 to |vars|
        invariant binding == Select(vars[..i], choices[..i], idx[..i])
      {
        binding := binding[vars[i] := choices[i][idx[i]]];
        assert vars[..i + 1][..i] == vars[..i] && choices[..i + 1][..i] == choices[..i]
               && idx[..i + 1][..i] == idx[..i];
      }
      assert vars[..|vars|] == vars && choices[..|vars|] == choices && idx[..|vars|] == idx[..];
    }

    /** Adds one to the index tuple, carrying left; exhausted when the carry leaves the first place. */
    method Advance()
      requires Valid() && vars != [] && !exhausted
      modifies this`exhausted, idx
      ensures match Successor(old(idx[..]), choices)
              case None => exhausted
              case Some(s) => !exhausted && idx[..] == s
    {
      hide Successor, PadZeros, Zeros, Size, ValueOf, Product, Select;
      ghost var was := idx[..];
      var pos := |vars| - 1;
      assert was[..pos + 1] == was && choices[..pos + 1] == choices;
      PadTwice(Successor(was, choices), 0);
      NothingBefore(was, choices);
      while true
        invariant 0 <= pos < |vars|
        invariant !exhausted
        invariant idx[..] == was[..pos + 1] + Zeros(|vars| - pos - 1)
        invariant Successor(was, choices)
               == PadZeros(Successor(was[..pos + 1], choices[..pos + 1]), |vars| - pos - 1)
        decreases pos
      {
        ghost var now := idx[..];
        SuccessorOfPrefix(was, choices, pos);
        PadTwice(Successor(was[..pos], choices[..pos]), |vars| - pos - 1);
        StepPlace(was, pos, |vars| - pos - 1);
        assert idx[pos] == now[pos] == was[pos];
        idx[pos] := idx[pos] + 1;
        assert idx[..] == now[pos := was[pos] + 1];
        if idx[pos] < |choices[pos]| {
          PadSome(was[..pos] + [was[pos] + 1], |vars| - pos - 1);
          break;
        }
        idx[pos] := 0;
        assert idx[..] == now[pos := 0];
        if pos == 0 {
          exhausted := true;
          break;
        }
        pos := pos - 1;
      }
    }
  }

  /** Draining a generator gives exactly the eager product. */
  method EnumerateBindings(params: seq<TypedParam>, objs: ObjectIndex) returns (all: seq<Binding>)
    ensures all == BindingsOf(params, objs)
  {
    hide *;
    var it := new BindingIter(params, objs);
    all := [];
    var done := false;
    while !done
      invariant it.Valid() && fresh(it) && fresh(it.idx)
      invariant all + it.Remaining() == BindingsOf(params, objs)
      invariant done ==> it.Remaining() == []
      decreases |it.Remaining()|, !done
    {
      var b := it.Next();
      match b {
        case None => done := true;
        case Some(x) => all := all + [x];
      }
    }
  }

  // ---- facts about the product that the clients use ----

  /** All bindings of a parameter list bind exactly its variables. */
  lemma {:induction false} ProductKeys(vars: seq<Name>, choices: seq<seq<Name>>, b: Binding)
    requires |vars| == |choices| && b in Product(vars, choices)
    ensures b.Keys == Elems(vars)
  {
    if vars != [] {
      var n := |vars| - 1;
      var front := Product(vars[..n], choices[..n]);
      var f := ExtendAllMember(front, vars[n], choices[n], b);
      ProductKeys(vars[..n], choices[..n], f.0);
      assert vars == vars[..n] + [vars[n]];
    }
  }

  lemma {:induction false} ExtendAllMember(bs: seq<Binding>, v: Name, cs: seq<Name>, b: Binding)
    returns (f: (Binding, Name))
    requires b in ExtendAll(bs, v, cs)
    ensures f.0 in bs && f.1 in cs && b == f.0[v := f.1]
  {
    if b in ExtendOne(bs[0], v, cs) {
      var j :| 0 <= j < |cs| && b == bs[0][v := cs[j]];
      f := (bs[0], cs[j]);
    } else {
      f := ExtendAllMember(bs[1..], v, cs, b);
    }
  }

  lemma {:induction false} ExtendAllHas(bs: seq<Binding>, v: Name, cs: seq<Name>, b: Binding, c: Name)
    requires b in bs && c in cs
    ensures b[v := c] in ExtendAll(bs, v, cs)
  {
    if b == bs[0] {
      var j :| 0 <= j < |cs| && cs[j] == c;
      assert ExtendOne(bs[0], v, cs)[j] == b[v := c];
    } else {
      ExtendAllHas(bs[1..], v, cs, b, c);
    }
  }

  // ---- what the enumerated bindings are ----

  /** The selected binding gives each variable the chosen object of its last place. */
  lemma {:induction false} SelectAt(vars: seq<Name>, choices: seq<seq<Name>>, idx: seq<nat>, i: nat)
    requires |vars| == |choices| && ValidIdx(idx, choices) && i < |vars|
    requires forall j | i < j < |vars| :: vars[j] != vars[i]
    ensures vars[i] in Select(vars, choices, idx) && Select(vars, choices, idx)[vars[i]] == choices[i][idx[i]]
  {
    var n := |vars| - 1;
    if i < n {
      SelectAt(vars[..n], choices[..n], idx[..n], i);
    }
  }

  predicate DistinctVars(params: seq<TypedParam>) {
    forall i, j | 0 <= i < j < |params| :: params[i].v != params[j].v
  }

  /** The binding gives each parameter an object of its type, and binds nothing else. */
  ghost predicate BindsTyped(params: seq<TypedParam>, objs: ObjectIndex, b: Binding) {
    && b.Keys == (set x | x in params :: x.v)
    && forall i | 0 <= i < |params| :: params[i] in params && b[params[i].v] in ObjectsOf(objs, params[i].ty)
  }

  lemma ProductIsSelected(vars: seq<Name>, choices: seq<seq<Name>>, k: nat) returns (idx: seq<nat>)
    requires |vars| == |choices| && k < |Product(vars, choices)|
    ensures ValidIdx(idx, choices) && ValueOf(idx, choices) == k && Product(vars, choices)[k] == Select(vars, choices, idx)
  {
    ProductLength(vars, choices);
    idx := ValueIsBijective(choices, k);
    ProductAt(vars, choices, idx);
  }

  ghost function PlaceOf(cs: seq<Name>, o: Name): (i: nat)
    requires o in cs
    ensures i < |cs| && cs[i] == o
  {
    var i :| 0 <= i < |cs| && cs[i] == o;
    i
  }

  /** The index tuple that selects a typed binding. */
  lemma TupleOf(params: seq<TypedParam>, objs: ObjectIndex, b: Binding) returns (idx: seq<nat>)
    requires BindsTyped(params, objs, b)
    ensures ValidIdx(idx, ChoicesOf(params, objs))
    ensures forall i | 0 <= i < |params| :: ChoicesOf(params, objs)[i][idx[i]] == b[params[i].v]
  {
    var choices := ChoicesOf(params, objs);
    idx := seq(|params|, i requires 0 <= i < |params| => PlaceOf(choices[i], b[params[i].v]));
  }

  lemma SelectKeys(vars: seq<Name>, choices: seq<seq<Name>>, idx: seq<nat>)
    requires |vars| == |choices| && ValidIdx(idx, choices)
    ensures Select(vars, choices, idx).Keys == Elems(vars)
  {
    ProductAt(vars, choices, idx);
    ProductKeys(vars, choices, Select(vars, choices, idx));
  }

  lemma VarsAre(params: seq<TypedParam>)
    ensures Elems(VarsOf(params)) == set x | x in params :: x.v
  {
    forall x | x in params ensures x.v in Elems(VarsOf(params)) {
      var i :| 0 <= i < |params| && params[i] == x;
      assert VarsOf(params)[i] == x.v;
    }
  }

  lemma SelectMakes(params: seq<TypedParam>, objs: ObjectIndex, b: Binding, idx: seq<nat>)
    requires DistinctVars(params) && BindsTyped(params, objs, b) && ValidIdx(idx, ChoicesOf(params, objs))
    requires forall i | 0 <= i < |params| :: ChoicesOf(params, objs)[i][idx[i]] == b[params[i].v]
    ensures Select(VarsOf(params), ChoicesOf(params, objs), idx) == b
  {
    var vars, choices := VarsOf(params), ChoicesOf(params, objs);
    var c := Select(vars, choices, idx);
    SelectKeys(vars, choices, idx);
    VarsAre(params);
    forall i | 0 <= i < |params| ensures vars[i] in c && c[vars[i]] == b[vars[i]] {
      SelectAt(vars, choices, idx, i);
    }
    hide Select, ValidIdx, ChoicesOf;
    SameOnVars(vars, b, c);
  }

  lemma SameOnVars(vars: seq<Name>, b: Binding, c: Binding)
    requires b.Keys == Elems(vars) == c.Keys
    requires forall i | 0 <= i < |vars| :: vars[i] in c && vars[i] in b && c[vars[i]] == b[vars[i]]
    ensures b == c
  {
    forall v | v in c.Keys ensures c[v] == b[v] {
      var i :| 0 <= i < |vars| && vars[i] == v;
    }
  }

  lemma TypedIsSelected(params: seq<TypedParam>, objs: ObjectIndex, b: Binding)
    requires DistinctVars(params) && BindsTyped(params, objs, b)
    ensures b in BindingsOf(params, objs)
  {
    var idx := TupleOf(params, objs, b);
    SelectMakes(params, objs, b, idx);
    hide Select, Product, BindsTyped, ValueOf;
    ProductAt(VarsOf(params), ChoicesOf(params, objs), idx);
  }

  lemma SelectedIsTyped(params: seq<TypedParam>, objs: ObjectIndex, b: Binding)
    requires DistinctVars(params) && b in BindingsOf(params, objs)
    ensures BindsTyped(params, objs, b)
  {
    var vars, choices := VarsOf(params), ChoicesOf(params, objs);
    var k :| 0 <= k < |Product(vars, choices)| && Product(vars, choices)[k] == b;
    var idx := ProductIsSelected(vars, choices, k);
    ProductKeys(vars, choices, b);
    VarsAre(params);
    forall i | 0 <= i < |params| ensures params[i] in params && b[params[i].v] in ObjectsOf(objs, params[i].ty) {
      SelectAt(vars, choices, idx, i);
    }
  }

  /** With distinct names, exactly the bindings of each parameter to an object of its type are enumerated. */
  lemma BindingsAreTyped(params: seq<TypedParam>, objs: ObjectIndex, b: Binding)
    requires DistinctVars(params)
    ensures b in BindingsOf(params, objs) <==> BindsTyped(params, objs, b)
  {
    hide *;
    if b in BindingsOf(params, objs) {
      SelectedIsTyped(params, objs, b);
    }
    if BindsTyped(params, objs, b) {
      TypedIsSelected(params, objs, b);
    }
  }

  lemma SameBindingSameTuple(params: seq<TypedParam>, objs: ObjectIndex, idx: seq<nat>, jdx: seq<nat>)
    requires DistinctVars(params) && forall i | 0 <= i < |params| :: Unrepeated(ObjectsOf(objs, params[i].ty))
    requires ValidIdx(idx, ChoicesOf(params, objs)) && ValidIdx(jdx, ChoicesOf(params, objs))
    requires Select(VarsOf(params), ChoicesOf(params, objs), idx) == Select(VarsOf(params), ChoicesOf(params, objs), jdx)
    ensures idx == jdx
  {
    var vars, choices := VarsOf(params), ChoicesOf(params, objs);
    forall i | 0 <= i < |params| ensures idx[i] == jdx[i] {
      SelectAt(vars, choices, idx, i);
      SelectAt(vars, choices, jdx, i);
      assert Unrepeated(choices[i]);
    }
  }

  /** No binding is enumerated twice if names are distinct and no type lists an object twice. */
  lemma BindingsAreDistinct(params: seq<TypedParam>, objs: ObjectIndex)
    requires DistinctVars(params) && forall i | 0 <= i < |params| :: Unrepeated(ObjectsOf(objs, params[i].ty))
    ensures Unrepeated(BindingsOf(params, objs))
  {
    var vars, choices := VarsOf(params), ChoicesOf(params, objs);
    hide Product, ValueOf, Select, ValidIdx;
    forall k, l | 0 <= k < l < |Product(vars, choices)| ensures Product(vars, choices)[k] != Product(vars, choices)[l] {
      var idx := ProductIsSelected(vars, choices, k);
      var jdx := ProductIsSelected(vars, choices, l);
      if Product(vars, choices)[k] == Product(vars, choices)[l] {
        SameBindingSameTuple(params, objs, idx, jdx);
      }
    }
  }
}
