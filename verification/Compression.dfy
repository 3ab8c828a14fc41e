// What compressing a durative action keeps of its meaning, under any binding of its parameters,
// when actions are laid out one after the other without overlap.
module Compression {
  import opened Prelude
  import opened SExpressions
  import opened Compressor

  // ---- durative actions with literal conditions and effects ----

  /** When a condition or effect applies; `Bare` is one without a time specifier. */
  datatype Moment = Bare | Start | All | End

  datatype Condition = Condition(moment: Moment, atom: Sexp, positive: bool)

  datatype Effect =
    | Fact(moment: Moment, atom: Sexp, positive: bool)
    | Change(moment: Moment, fluent: Sexp, amount: Sexp, up: bool)

  function Tag(m: Moment, x: Sexp): Sexp {
    match m
    case Bare => x
    case Start => List([Atom("at"), Atom("start"), x])
    case All => List([Atom("over"), Atom("all"), x])
    case End => List([Atom("at"), Atom("end"), x])
  }

  function Literal(atom: Sexp, positive: bool): Sexp {
    if positive then atom else List([Atom("not"), atom])
  }

  function ConditionTree(c: Condition): Sexp {
    Tag(c.moment, Literal(c.atom, c.positive))
  }

  function Body(e: Effect): Sexp {
    match e
    case Fact(_, atom, positive) => Literal(atom, positive)
    case Change(_, fluent, amount, up) => List([Atom(if up then "increase" else "decrease"), fluent, amount])
  }

  function EffectTree(e: Effect): Sexp {
    Tag(e.moment, Body(e))
  }

  function ConditionTrees(conds: seq<Condition>): seq<Sexp> {
    seq(|conds|, i requires 0 <= i < |conds| => ConditionTree(conds[i]))
  }

  function EffectTrees(effs: seq<Effect>): seq<Sexp> {
    seq(|effs|, i requires 0 <= i < |effs| => EffectTree(effs[i]))
  }

  /** No subtree has the shape of a time-specified formula. */
  predicate Untimed(x: Sexp)
    decreases x
  {
    Timing(x).None? && (x.List? ==> forall i | 0 <= i < |x.items| :: Untimed(x.items[i]))
  }

  const RESERVED: set<string> := NUMERIC + {"and", "not", "when", "forall", "preference"}

  /** An atomic formula: a predicate applied to arguments. */
  predicate IsAtomic(a: Sexp) {
    && Printable(a) && Untimed(a)
    && a.List? && a.items != [] && a.items[0].Atom? && a.items[0].text !in RESERVED
  }

  predicate IsEffect(e: Effect) {
    match e
    case Fact(_, atom, _) => IsAtomic(atom)
    case Change(_, fluent, amount, _) => Printable(fluent) && Untimed(fluent) && Untimed(amount)
  }

  datatype Literals = Literals(conds: seq<Condition>, effs: seq<Effect>)

  ghost predicate WellFormed(a: Literals) {
    && (forall c | c in a.conds :: IsAtomic(c.atom))
    && forall e | e in a.effs :: IsEffect(e)
  }

  /** The durative action's condition and effect, conjunctions flattened, are exactly these. */
  ghost predicate Reads(da: Sexp, a: Literals) {
    && da.List? && WellFormed(a)
    && Conj(Field(da, ":condition")) == ConditionTrees(a.conds)
    && Conj(Field(da, ":effect")) == EffectTrees(a.effs)
  }

  // ---- reading back what was written ----

  lemma {:induction false} UntimedIsUnread(x: Sexp)
    requires Untimed(x)
    ensures WhenOf(x) == None && Strip(x) == x
    decreases x
  {
    if x.List? {
      UntimedAllUnread(x.items);
    }
  }

  lemma {:induction false} UntimedAllUnread(xs: seq<Sexp>)
    requires forall i | 0 <= i < |xs| :: Untimed(xs[i])
    ensures WhenOfAny(xs) == None && StripAll(xs) == xs
    decreases xs
  {
    if xs != [] {
      UntimedIsUnread(xs[0]);
      UntimedAllUnread(xs[1..]);
    }
  }

  /** A time specifier inside a quantification counts as if it stood outside. */
  lemma QuantifiedReadsBack(vars: Sexp, m: Moment, x: Sexp)
    requires Untimed(vars) && Untimed(x)
    ensures var f := List([Atom("forall"), vars, Tag(m, x)]);
            WhenOf(f) == InstantOf(m) && Strip(f) == List([Atom("forall"), vars, x])
  {
    var parts := [Atom("forall"), vars, Tag(m, x)];
    UntimedIsUnread(vars);
    UntimedIsUnread(x);
    TagReadsBack(m, x);
    assert Timing(List(parts)) == None;
    assert parts[1..] == [vars, Tag(m, x)] && parts[1..][1..] == [Tag(m, x)] && parts[1..][1..][1..] == [];
    TimeInside(parts, 0);
    TimeInside(parts, 1);
    TimeInside(parts, 2);
    if m == Bare {
      UntimedAllUnread(parts);
    }
    assert Strip(List(parts)).items == [Atom("forall"), vars, x];
  }

  function InstantOf(m: Moment): Option<Instant> {
    match m
    case Bare => None
    case Start => Some(AtStart)
    case All => Some(OverAll)
    case End => Some(AtEnd)
  }

  lemma TagReadsBack(m: Moment, x: Sexp)
    requires Untimed(x)
    ensures WhenOf(Tag(m, x)) == InstantOf(m) && Strip(Tag(m, x)) == x
  {
    UntimedIsUnread(x);
  }

  lemma LiteralReadsBack(m: Moment, atom: Sexp, positive: bool)
    requires IsAtomic(atom)
    ensures var x := Literal(atom, positive);
            && WhenOf(Tag(m, x)) == InstantOf(m) && Strip(Tag(m, x)) == x
            && Simple(x) && Indexable(x) && !IsChange(x) && LiteralKey(x) == Dump(atom)
            && Headed(x, "not") == !positive && (!positive ==> x.items[1] == atom)
  {
    assert Untimed(Atom("not"));
    TagReadsBack(m, Literal(atom, positive));
  }

  lemma ConditionsAreHard(c: Condition)
    requires IsAtomic(c.atom)
    ensures IsHard(ConditionTree(c))
  {
    LiteralReadsBack(c.moment, c.atom, c.positive);
  }

  lemma ChangeReadsBack(e: Effect)
    requires e.Change? && IsEffect(e)
    ensures WhenOf(EffectTree(e)) == InstantOf(e.moment) && Strip(EffectTree(e)) == Body(e)
    ensures var x := Body(e); !Simple(x) && Indexable(x) && IsChange(x) && !Headed(x, "not")
  {
    assert Untimed(Atom(if e.up then "increase" else "decrease"));
    TagReadsBack(e.moment, Body(e));
  }

  lemma EffectReadsBack(e: Effect)
    requires IsEffect(e)
    ensures WhenOf(EffectTree(e)) == InstantOf(e.moment) && Strip(EffectTree(e)) == Body(e) && Indexable(Body(e))
  {
    match e
    case Fact(m, atom, positive) => LiteralReadsBack(m, atom, positive);
    case Change(_, _, _, _) => ChangeReadsBack(e);
  }

  // ---- the three lists the program works on ----

  predicate AtBeginning(m: Moment) {
    m == Start || m == Bare
  }

  /** The bodies of the effects at the given end of the action. */
  function Bodies(effs: seq<Effect>, beginning: bool): seq<Sexp> {
    if effs == [] then []
    else (if (if beginning then AtBeginning(effs[0].moment) else effs[0].moment == End) then [Body(effs[0])] else [])
         + Bodies(effs[1..], beginning)
  }

  lemma {:induction false} EffectsSplit(effs: seq<Effect>)
    requires forall e | e in effs :: IsEffect(e)
    ensures StartEffects(EffectTrees(effs)) == Bodies(effs, true)
    ensures EndEffects(EffectTrees(effs)) == Bodies(effs, false)
  {
    if effs != [] {
      assert EffectTrees(effs)[1..] == EffectTrees(effs[1..]);
      EffectReadsBack(effs[0]);
      EffectsSplit(effs[1..]);
    }
  }

  lemma {:induction false} BodyOf(effs: seq<Effect>, beginning: bool, x: Sexp)
    ensures x in Bodies(effs, beginning) <==>
              exists e | e in effs :: (if beginning then AtBeginning(e.moment) else e.moment == End) && Body(e) == x
  {
    if effs != [] {
      BodyOf(effs[1..], beginning, x);
      assert forall e | e in effs :: e == effs[0] || e in effs[1..];
    }
  }

  lemma {:induction false} AllConditionsKept(conds: seq<Condition>)
    requires forall c | c in conds :: IsAtomic(c.atom)
    ensures Filter(ConditionTrees(conds), IsHard) == ConditionTrees(conds)
  {
    if conds != [] {
      var trees, rest := ConditionTrees(conds), conds[1..];
      assert trees[1..] == ConditionTrees(rest);
      ConditionsAreHard(conds[0]);
      AllConditionsKept(rest);
      assert [trees[0]] + trees[1..] == trees;
    }
  }

  // ---- binding the parameters ----

  type Binding = map<string, string>

  function Subst(b: Binding, x: Sexp): Sexp
    decreases x
  {
    match x
    case Atom(text) => Atom(if text in b then b[text] else text)
    case List(items) => List(SubstAll(b, items))
  }

  function SubstAll(b: Binding, xs: seq<Sexp>): seq<Sexp>
    decreases xs
  {
    if xs == [] then [] else [Subst(b, xs[0])] + SubstAll(b, xs[1..])
  }

  /** The printed ground form of an atom or fluent. */
  function Key(b: Binding, x: Sexp): string {
    Dump(Subst(b, x))
  }

  function Keys(b: Binding, xs: set<Sexp>): set<string> {
    set x | x in xs :: Key(b, x)
  }

  // ---- the meaning of the durative action: start, then end ----

  predicate Applies(m: Moment, beginning: bool) {
    if beginning then AtBeginning(m) else m == End
  }

  /** The atoms set true, or set false, by the start or by the end effects. */
  function Sets(a: Literals, beginning: bool, positive: bool): set<Sexp> {
    set e | e in a.effs && e.Fact? && e.positive == positive && Applies(e.moment, beginning) :: e.atom
  }

  function AfterStart(b: Binding, a: Literals, facts: set<string>): set<string> {
    (facts - Keys(b, Sets(a, true, false))) + Keys(b, Sets(a, true, true))
  }

  function SequentialFacts(b: Binding, a: Literals, facts: set<string>): set<string> {
    (AfterStart(b, a, facts) - Keys(b, Sets(a, false, false))) + Keys(b, Sets(a, false, true))
  }

  predicate Holds(b: Binding, facts: set<string>, c: Condition) {
    (Key(b, c.atom) in facts) == c.positive
  }

  /** Start conditions hold before the action, over-all and end conditions once the start effects are in. */
  predicate SequentialApplicable(b: Binding, a: Literals, facts: set<string>) {
    forall c | c in a.conds :: Holds(b, if AtBeginning(c.moment) then facts else AfterStart(b, a, facts), c)
  }

  // ---- the meaning of the compressed action ----

  function LiteralAtom(x: Sexp): Sexp
    requires Indexable(x)
  {
    if Headed(x, "not") then x.items[1] else x
  }

  function TreeSets(es: seq<Sexp>, positive: bool): set<Sexp> {
    set x | x in es && Simple(x) && Indexable(x) && Headed(x, "not") != positive :: LiteralAtom(x)
  }

  function CompressedFacts(b: Binding, effect: seq<Sexp>, facts: set<string>): set<string> {
    (facts - Keys(b, TreeSets(effect, false))) + Keys(b, TreeSets(effect, true))
  }

  predicate CompressedApplicable(b: Binding, pre: seq<Sexp>, facts: set<string>) {
    forall x | x in pre && Indexable(x) :: (Key(b, LiteralAtom(x)) in facts) == !Headed(x, "not")
  }

  // ---- what the program computes, in terms of the literals ----

  /** The parts of the action that compression does not look into. */
  predicate HasProperties(da: Sexp) {
    && da.List? && |da.items| > 1
    && forall i | 2 <= i < |da.items| - 1 && i % 2 == 0 :: da.items[i].Atom?
  }

  lemma BodiesIndexable(effs: seq<Effect>, beginning: bool)
    requires forall e | e in effs :: IsEffect(e)
    ensures AllIndexable(Bodies(effs, beginning))
  {
    forall x | x in Bodies(effs, beginning) ensures Indexable(x) {
      BodyOf(effs, beginning, x);
      var e :| e in effs && Body(e) == x;
      EffectReadsBack(e);
    }
  }

  lemma ConditionsIndexable(a: Literals)
    requires WellFormed(a)
    ensures forall i | 0 <= i < |a.conds| :: Indexable(Strip(ConditionTree(a.conds[i])))
  {
    forall i | 0 <= i < |a.conds| ensures Indexable(Strip(ConditionTree(a.conds[i]))) {
      LiteralReadsBack(a.conds[i].moment, a.conds[i].atom, a.conds[i].positive);
    }
  }

  lemma ListsOf(da: Sexp, a: Literals)
    requires HasProperties(da) && Reads(da, a)
    ensures CanCompress(da)
    ensures Conditions(da) == ConditionTrees(a.conds)
    ensures StartEffects(Effects(da)) == Bodies(a.effs, true)
    ensures EndEffects(Effects(da)) == Bodies(a.effs, false)
  {
    hide Conj, Field, StartEffects, EndEffects, Bodies, Strip, ConditionTree, EffectTree, IsHard, Filter,
         IsAtomic, IsEffect;
    AllConditionsKept(a.conds);
    assert Effects(da) == EffectTrees(a.effs);
    EffectsSplit(a.effs);
    BodiesIndexable(a.effs, true);
    BodiesIndexable(a.effs, false);
    ConditionsIndexable(a);
  }

  /** The literals among the bodies are those of the effects. */
  lemma TreeSetsOfBodies(a: Literals, beginning: bool, positive: bool)
    requires WellFormed(a)
    ensures TreeSets(Bodies(a.effs, beginning), positive) == Sets(a, beginning, positive)
  {
    var es := Bodies(a.effs, beginning);
    forall atom | atom in TreeSets(es, positive) ensures atom in Sets(a, beginning, positive) {
      var x :| x in es && Simple(x) && Indexable(x) && Headed(x, "not") != positive && LiteralAtom(x) == atom;
      BodyOf(a.effs, beginning, x);
      var e :| e in a.effs && Applies(e.moment, beginning) && Body(e) == x;
      BodyAtom(e);
    }
    forall atom | atom in Sets(a, beginning, positive) ensures atom in TreeSets(es, positive) {
      var e :| e in a.effs && e.Fact? && e.positive == positive && Applies(e.moment, beginning) && e.atom == atom;
      BodyAtom(e);
      BodyOf(a.effs, beginning, Body(e));
    }
  }

  lemma BodyAtom(e: Effect)
    requires IsEffect(e)
    ensures Indexable(Body(e)) && Simple(Body(e)) == e.Fact?
    ensures e.Fact? ==> LiteralAtom(Body(e)) == e.atom && Headed(Body(e), "not") != e.positive && IsAtomic(e.atom)
  {
    if e.Fact? {
      LiteralReadsBack(e.moment, e.atom, e.positive);
    } else {
      ChangeReadsBack(e);
    }
  }

  lemma {:induction false} KeptStartHas(se: seq<Sexp>, ends: set<string>, x: Sexp)
    requires AllIndexable(se)
    ensures x in KeptStart(se, ends) <==> x in se && !(Simple(x) && LiteralKey(x) in ends)
  {
    if se != [] {
      KeptStartHas(se[1..], ends, x);
      assert x in se <==> x == se[0] || x in se[1..];
    }
  }

  lemma CombinedIsNoLiteral(group: seq<Sexp>, fluent: Sexp, x: Sexp)
    requires Simple(x)
    ensures x !in Combined(group, fluent)
  {
    hide Cancel, Amounts, Total;
  }

  lemma {:induction false} MergedKeepsLiterals(es: seq<Sexp>, n: nat, x: Sexp)
    requires AllIndexable(es) && n <= |es| && Simple(x)
    ensures x in Merged(es, n) <==> x in es[..n]
  {
    hide Combined, Within, DoneKeys;
    if n > 0 {
      var e := es[n - 1];
      MergedKeepsLiterals(es, n - 1, x);
      assert es[..n] == es[..n - 1] + [e];
      if IsChange(e) {
        CombinedIsNoLiteral(Within(es, {FluentKey(e)}), e.items[1], x);
        assert !Simple(e);
      }
    }
  }

  /** The atoms that an end effect sets either way. */
  function EndAtoms(a: Literals): set<Sexp> {
    Sets(a, false, true) + Sets(a, false, false)
  }

  lemma EndKeys(a: Literals, atom: Sexp)
    requires WellFormed(a) && IsAtomic(atom)
    ensures AllIndexable(Bodies(a.effs, false))
    ensures var ee := Bodies(a.effs, false);
            Dump(atom) in KeysOf(ee, true) + KeysOf(ee, false) <==> atom in EndAtoms(a)
  {
    BodiesIndexable(a.effs, false);
    forall positive: bool
      ensures Dump(atom) in KeysOf(Bodies(a.effs, false), positive) <==> atom in Sets(a, false, positive)
    {
      KeysAreSets(a, false, positive, atom);
    }
  }

  /** A printed atom is among the keys the program collects exactly when the atom is among the effects. */
  lemma KeysAreSets(a: Literals, beginning: bool, positive: bool, atom: Sexp)
    requires WellFormed(a) && IsAtomic(atom)
    ensures AllIndexable(Bodies(a.effs, beginning))
    ensures Dump(atom) in KeysOf(Bodies(a.effs, beginning), positive) <==> atom in Sets(a, beginning, positive)
  {
    var es := Bodies(a.effs, beginning);
    BodiesIndexable(a.effs, beginning);
    if Dump(atom) in KeysOf(es, positive) {
      var x :| x in es && Simple(x) && Headed(x, "not") != positive && LiteralKey(x) == Dump(atom);
      BodyOf(a.effs, beginning, x);
      var e :| e in a.effs && Applies(e.moment, beginning) && Body(e) == x;
      BodyAtom(e);
      DumpIsInjective(e.atom, atom);
    }
    if atom in Sets(a, beginning, positive) {
      var e :| e in a.effs && e.Fact? && e.positive == positive && Applies(e.moment, beginning) && e.atom == atom;
      BodyAtom(e);
      BodyOf(a.effs, beginning, Body(e));
      assert LiteralKey(Body(e)) == Dump(atom);
    }
  }

  /** The compressed effect sets what the end sets, and what the start sets of atoms the end leaves alone. */
  lemma CompressedSets(da: Sexp, a: Literals, positive: bool)
    requires HasProperties(da) && Reads(da, a)
    ensures CanCompress(da)
    ensures TreeSets(CompressedEffect(da), positive) ==
              (Sets(a, true, positive) - EndAtoms(a)) + Sets(a, false, positive)
  {
    ListsOf(da, a);
    var se, ee := Bodies(a.effs, true), Bodies(a.effs, false);
    var ends := KeysOf(ee, true) + KeysOf(ee, false);
    var es := EffectsInOrder(da);
    assert es == KeptStart(se, ends) + ee && es[..|es|] == es;
    TreeSetsOfBodies(a, true, positive);
    TreeSetsOfBodies(a, false, positive);
    forall x | Simple(x)
      ensures x in CompressedEffect(da) <==> (x in se && LiteralKeyFree(x, ends)) || x in ee
    {
      MergedKeepsLiterals(es, |es|, x);
      KeptStartHas(se, ends, x);
    }
    forall x | x in se && Simple(x) ensures LiteralKeyFree(x, ends) <==> LiteralAtom(x) !in EndAtoms(a) {
      BodyOf(a.effs, true, x);
      var e :| e in a.effs && Applies(e.moment, true) && Body(e) == x;
      BodyAtom(e);
      EndKeys(a, e.atom);
    }
  }

  predicate LiteralKeyFree(x: Sexp, ends: set<string>) {
    Indexable(x) && LiteralKey(x) !in ends
  }
}
