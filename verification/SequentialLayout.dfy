// When a compressed action can stand for its durative original: the same final facts, the same
// applicability, and so the same runs of whole plans laid out one action after another.
module SequentialLayout {
  import opened Prelude
  import opened SExpressions
  import opened Compressor
  import opened Compression

  // ---- final facts ----

  /** Start additions that compression keeps. */
  function KeptAdds(a: Literals): set<Sexp> {
    Sets(a, true, true) - EndAtoms(a)
  }

  /** A kept start addition and a different end deletion become the same ground atom. */
  predicate Clobbered(b: Binding, a: Literals) {
    (Keys(b, KeptAdds(a)) * Keys(b, Sets(a, false, false))) - Keys(b, Sets(a, false, true)) != {}
  }

  lemma KeysUnion(b: Binding, xs: set<Sexp>, ys: set<Sexp>)
    ensures Keys(b, xs + ys) == Keys(b, xs) + Keys(b, ys)
  {
  }

  lemma AfterCompression(da: Sexp, a: Literals, b: Binding, facts: set<string>)
    requires HasProperties(da) && Reads(da, a)
    ensures CanCompress(da)
    ensures CompressedFacts(b, CompressedEffect(da), facts) ==
              (facts - (Keys(b, Sets(a, true, false) - EndAtoms(a)) + Keys(b, Sets(a, false, false))))
              + (Keys(b, KeptAdds(a)) + Keys(b, Sets(a, false, true)))
  {
    hide CompressedEffect, TreeSets, Sets, EndAtoms;
    CompressedSets(da, a, true);
    CompressedSets(da, a, false);
    KeysUnion(b, KeptAdds(a), Sets(a, false, true));
    KeysUnion(b, Sets(a, true, false) - EndAtoms(a), Sets(a, false, false));
  }

  /** Dropping the overridden start effects matters only to ground atoms that the end sets. */
  lemma OverriddenElsewhere(b: Binding, a: Literals, positive: bool, key: string)
    requires key !in Keys(b, Sets(a, false, true)) && key !in Keys(b, Sets(a, false, false))
    ensures key in Keys(b, Sets(a, true, positive)) <==> key in Keys(b, Sets(a, true, positive) - EndAtoms(a))
  {
    hide Sets, Key;
    if key in Keys(b, Sets(a, true, positive)) {
      var x :| x in Sets(a, true, positive) && Key(b, x) == key;
      assert x !in EndAtoms(a) by {
        assert x in Sets(a, false, true) ==> key in Keys(b, Sets(a, false, true));
        assert x in Sets(a, false, false) ==> key in Keys(b, Sets(a, false, false));
      }
    }
  }

  /** From any facts, the compressed action ends in the same facts as start then end, unless it is clobbered. */
  lemma FinalFactsAgreeIff(da: Sexp, a: Literals, b: Binding, facts: set<string>)
    requires HasProperties(da) && Reads(da, a)
    ensures CanCompress(da)
    ensures CompressedFacts(b, CompressedEffect(da), facts) == SequentialFacts(b, a, facts) <==> !Clobbered(b, a)
  {
    AfterCompression(da, a, b, facts);
    hide Sets, Keys, EndAtoms, CompressedFacts, CompressedEffect;
    var comp, seqn := CompressedFacts(b, CompressedEffect(da), facts), SequentialFacts(b, a, facts);
    var lost := (Keys(b, KeptAdds(a)) * Keys(b, Sets(a, false, false))) - Keys(b, Sets(a, false, true));
    forall key: string ensures (key in comp) != (key in seqn) <==> key in lost {
      if key !in Keys(b, Sets(a, false, true)) && key !in Keys(b, Sets(a, false, false)) {
        OverriddenElsewhere(b, a, true, key);
        OverriddenElsewhere(b, a, false, key);
      }
    }
    if lost != {} {
      var key :| key in lost;
      assert comp != seqn;
    }
  }

  /** No two different atoms of the action become the same ground atom. */
  ghost predicate Unaliased(b: Binding, a: Literals) {
    forall x, y | x in AtomsOf(a) && y in AtomsOf(a) && Key(b, x) == Key(b, y) :: x == y
  }

  function AtomsOf(a: Literals): set<Sexp> {
    (set e | e in a.effs && e.Fact? :: e.atom) + (set c | c in a.conds :: c.atom)
  }

  lemma UnaliasedIsNotClobbered(b: Binding, a: Literals)
    requires Unaliased(b, a)
    ensures !Clobbered(b, a)
  {
    forall x, y | x in KeptAdds(a) && y in Sets(a, false, false) ensures Key(b, x) != Key(b, y) {
      assert x in AtomsOf(a) && y in AtomsOf(a) && x != y;
    }
  }

  /** Two atoms bound alike, one added at the start and the other deleted at the end, are clobbered. */
  lemma AliasingClobbers(b: Binding, x: Sexp, y: Sexp)
    requires x != y && Key(b, x) == Key(b, y)
    ensures Clobbered(b, Literals([], [Fact(Start, x, true), Fact(End, y, false)]))
  {
    var a := Literals([], [Fact(Start, x, true), Fact(End, y, false)]);
    assert a.effs[0] in a.effs && a.effs[1] in a.effs;
    assert x in Sets(a, true, true) && y in Sets(a, false, false);
    assert Sets(a, false, true) == {};
    assert Sets(a, false, false) == {y};
    assert x in KeptAdds(a);
    assert Key(b, x) in Keys(b, KeptAdds(a));
    assert Key(b, x) in Keys(b, Sets(a, false, false));
    assert Keys(b, Sets(a, false, true)) == {};
    assert Key(b, x) in (Keys(b, KeptAdds(a)) * Keys(b, Sets(a, false, false))) - Keys(b, Sets(a, false, true));
  }

  // ---- applicability ----

  /** Needed only once the start effects are in. */
  predicate IsLater(c: Condition) {
    !AtBeginning(c.moment)
  }

  /** The program leaves out a later condition that a start effect on the very same atom brings about. */
  predicate LeftOut(a: Literals, c: Condition) {
    IsLater(c) && c.atom in Sets(a, true, c.positive)
  }

  lemma {:induction false} PreconditionHas(conds: seq<Sexp>, adds: set<string>, dels: set<string>, x: Sexp)
    requires forall c | c in conds :: Indexable(Strip(c))
    ensures x in Precondition(conds, adds, dels) <==>
              exists c | c in conds :: !SelfEstablished(c, adds, dels) && Strip(c) == x
  {
    if conds != [] {
      var n := |conds| - 1;
      PreconditionHas(conds[..n], adds, dels, x);
      assert forall c | c in conds :: c == conds[n] || c in conds[..n];
      assert conds[n] in conds;
    }
  }

  lemma SelfEstablishedIsLeftOut(a: Literals, c: Condition)
    requires WellFormed(a) && IsAtomic(c.atom)
    ensures AllIndexable(Bodies(a.effs, true)) && Indexable(Strip(ConditionTree(c)))
    ensures var se := Bodies(a.effs, true);
            SelfEstablished(ConditionTree(c), KeysOf(se, true), KeysOf(se, false)) <==> LeftOut(a, c)
  {
    LiteralReadsBack(c.moment, c.atom, c.positive);
    KeysAreSets(a, true, c.positive, c.atom);
  }

  lemma ListedIsAsked(da: Sexp, a: Literals, c: Condition)
    requires HasProperties(da) && Reads(da, a) && CanCompress(da)
    requires c in a.conds && !LeftOut(a, c)
    ensures Literal(c.atom, c.positive) in CompressedPrecondition(da)
  {
    ListsOf(da, a);
    ConditionIsAsked(a, c);
    var se := Bodies(a.effs, true);
    hide SelfEstablished, Bodies, Reads, WellFormed, Indexable, Strip, ConditionTree, Literal, HasProperties, LeftOut,
         Precondition, KeysOf, LiteralAtom, Headed;
    assert ConditionTree(c) in Conditions(da) by {
      var i :| 0 <= i < |a.conds| && a.conds[i] == c;
      assert ConditionTrees(a.conds)[i] == ConditionTree(c);
    }
    PreconditionHas(Conditions(da), KeysOf(se, true), KeysOf(se, false), Literal(c.atom, c.positive));
  }

  lemma AskedIsListed(da: Sexp, a: Literals, x: Sexp) returns (c: Condition)
    requires HasProperties(da) && Reads(da, a) && CanCompress(da)
    requires x in CompressedPrecondition(da)
    ensures c in a.conds && !LeftOut(a, c) && x == Literal(c.atom, c.positive)
  {
    ListsOf(da, a);
    assert WellFormed(a);
    var se := Bodies(a.effs, true);
    hide SelfEstablished, Bodies, Reads, WellFormed, Indexable, Strip, ConditionTree, Literal, HasProperties, LeftOut,
         Precondition, KeysOf, LiteralAtom, Headed;
    PreconditionHas(Conditions(da), KeysOf(se, true), KeysOf(se, false), x);
    var t :| t in Conditions(da) && !SelfEstablished(t, KeysOf(se, true), KeysOf(se, false)) && Strip(t) == x;
    var i :| 0 <= i < |a.conds| && ConditionTree(a.conds[i]) == t;
    c := a.conds[i];
    ConditionIsAsked(a, c);
  }

  /** The compressed precondition asks for the start conditions and the later ones that are not left out. */
  lemma CompressedAsks(da: Sexp, a: Literals, b: Binding, facts: set<string>)
    requires HasProperties(da) && Reads(da, a)
    ensures CanCompress(da)
    ensures CompressedApplicable(b, CompressedPrecondition(da), facts) <==>
              forall c | c in a.conds && !LeftOut(a, c) :: Holds(b, facts, c)
  {
    ListsOf(da, a);
    assert WellFormed(a);
    hide Key, LeftOut, CompressedPrecondition, Reads, WellFormed, Indexable, Literal;
    forall c | c in a.conds && !LeftOut(a, c) ensures Literal(c.atom, c.positive) in CompressedPrecondition(da) {
      ListedIsAsked(da, a, c);
    }
    forall x | x in CompressedPrecondition(da)
      ensures exists c | c in a.conds :: !LeftOut(a, c) && x == Literal(c.atom, c.positive)
    {
      var c := AskedIsListed(da, a, x);
    }
    forall c | c in a.conds
      ensures var x := Literal(c.atom, c.positive);
              Indexable(x) && LiteralAtom(x) == c.atom && Headed(x, "not") == !c.positive
    {
      ConditionIsAsked(a, c);
    }
  }

  lemma ConditionIsAsked(a: Literals, c: Condition)
    requires WellFormed(a) && c in a.conds
    ensures var x := Literal(c.atom, c.positive);
            && Strip(ConditionTree(c)) == x && Indexable(x)
            && LiteralAtom(x) == c.atom && Headed(x, "not") == !c.positive
    ensures AllIndexable(Bodies(a.effs, true))
    ensures var se := Bodies(a.effs, true);
            SelfEstablished(ConditionTree(c), KeysOf(se, true), KeysOf(se, false)) <==> LeftOut(a, c)
  {
    LiteralReadsBack(c.moment, c.atom, c.positive);
    SelfEstablishedIsLeftOut(a, c);
  }

  /** The start effects make one of the action's own later conditions false. */
  predicate SelfFalsified(b: Binding, a: Literals) {
    exists c | c in a.conds && IsLater(c) :: Falsified(b, a, c)
  }

  predicate Falsified(b: Binding, a: Literals, c: Condition) {
    if c.positive then Key(b, c.atom) in Keys(b, Sets(a, true, false)) - Keys(b, Sets(a, true, true))
    else Key(b, c.atom) in Keys(b, Sets(a, true, true))
  }

  /** The start effects make a later condition true. */
  predicate BroughtAbout(b: Binding, a: Literals, c: Condition) {
    if c.positive then Key(b, c.atom) in Keys(b, Sets(a, true, true))
    else Key(b, c.atom) in Keys(b, Sets(a, true, false)) - Keys(b, Sets(a, true, true))
  }

  lemma AfterStartHolds(b: Binding, a: Literals, facts: set<string>, c: Condition)
    ensures Holds(b, AfterStart(b, a, facts), c) <==>
              BroughtAbout(b, a, c) || (Holds(b, facts, c) && !Falsified(b, a, c))
  {
  }

  lemma LeftOutIsSettled(b: Binding, a: Literals, c: Condition)
    requires LeftOut(a, c)
    ensures BroughtAbout(b, a, c) || Falsified(b, a, c)
  {
    assert Key(b, c.atom) in Keys(b, Sets(a, true, c.positive));
  }

  /**
   * Wherever the compressed action is applicable, the durative one is too exactly when its start
   * effects falsify none of its own over-all or end conditions.
   */
  lemma CompressedRunsIff(da: Sexp, a: Literals, b: Binding, facts: set<string>)
    requires HasProperties(da) && Reads(da, a) && CanCompress(da)
    requires CompressedApplicable(b, CompressedPrecondition(da), facts)
    ensures SequentialApplicable(b, a, facts) <==> !SelfFalsified(b, a)
  {
    CompressedAsks(da, a, b, facts);
    hide Holds, AfterStart, Falsified, BroughtAbout, CompressedApplicable, CompressedPrecondition;
    forall c | c in a.conds && IsLater(c)
      ensures Holds(b, AfterStart(b, a, facts), c) <==> !Falsified(b, a, c)
    {
      AfterStartHolds(b, a, facts, c);
      NotBoth(b, a, c);
      if LeftOut(a, c) {
        LeftOutIsSettled(b, a, c);
      }
    }
  }

  lemma NotBoth(b: Binding, a: Literals, c: Condition)
    ensures !(BroughtAbout(b, a, c) && Falsified(b, a, c))
  {
  }

  /** A later condition that the start effects bring about through a different atom, bound alike. */
  predicate HelpedByAlias(b: Binding, a: Literals, c: Condition) {
    IsLater(c) && !LeftOut(a, c) && BroughtAbout(b, a, c)
  }

  /** A start condition asks for the same ground literal. */
  predicate AskedAtStart(b: Binding, a: Literals, c: Condition) {
    exists d | d in a.conds :: AtBeginning(d.moment) && d.positive == c.positive && Key(b, d.atom) == Key(b, c.atom)
  }

  /** The facts with the condition's atom set against it. */
  function Against(b: Binding, facts: set<string>, c: Condition): set<string> {
    if c.positive then facts - {Key(b, c.atom)} else facts + {Key(b, c.atom)}
  }

  lemma AgainstChangesNothingLater(b: Binding, a: Literals, facts: set<string>, c: Condition)
    requires BroughtAbout(b, a, c)
    ensures AfterStart(b, a, Against(b, facts, c)) == AfterStart(b, a, facts)
  {
  }

  lemma AgainstIsNoRun(da: Sexp, a: Literals, b: Binding, facts: set<string>, c: Condition)
    requires HasProperties(da) && Reads(da, a) && CanCompress(da)
    requires SequentialApplicable(b, a, facts) && c in a.conds && HelpedByAlias(b, a, c) && !AskedAtStart(b, a, c)
    ensures SequentialApplicable(b, a, Against(b, facts, c))
    ensures !CompressedApplicable(b, CompressedPrecondition(da), Against(b, facts, c))
  {
    AgainstChangesNothingLater(b, a, facts, c);
    CompressedAsks(da, a, b, Against(b, facts, c));
    AgainstIsAgainst(b, facts, c);
    hide Holds, Against, AfterStart, CompressedApplicable, CompressedPrecondition, LeftOut, BroughtAbout,
         Reads, HasProperties, CanCompress;
    forall d | d in a.conds && AtBeginning(d.moment) ensures Holds(b, Against(b, facts, c), d) {
      assert Holds(b, facts, d);
      AgainstKeepsOthers(b, facts, c, d);
    }
  }

  lemma AgainstIsAgainst(b: Binding, facts: set<string>, c: Condition)
    ensures !Holds(b, Against(b, facts, c), c)
  {
  }

  lemma AgainstKeepsOthers(b: Binding, facts: set<string>, c: Condition, d: Condition)
    requires Holds(b, facts, d) && !(d.positive == c.positive && Key(b, d.atom) == Key(b, c.atom))
    ensures Holds(b, Against(b, facts, c), d)
  {
  }

  /**
   * For an action that can run at all, compression loses none of the facts it can run from exactly
   * when every later condition helped only by aliasing is asked for at the start as well.
   */
  lemma NoRunIsLostIff(da: Sexp, a: Literals, b: Binding)
    requires HasProperties(da) && Reads(da, a) && CanCompress(da)
    requires exists facts :: SequentialApplicable(b, a, facts)
    ensures (forall facts ::
               SequentialApplicable(b, a, facts) ==> CompressedApplicable(b, CompressedPrecondition(da), facts))
       <==> (forall c | c in a.conds && HelpedByAlias(b, a, c) :: AskedAtStart(b, a, c))
  {
    hide CompressedApplicable, CompressedPrecondition;
    if forall c | c in a.conds && HelpedByAlias(b, a, c) :: AskedAtStart(b, a, c) {
      forall facts | SequentialApplicable(b, a, facts)
        ensures CompressedApplicable(b, CompressedPrecondition(da), facts)
      {
        RunsCompressed(da, a, b, facts);
      }
    } else {
      var c :| c in a.conds && HelpedByAlias(b, a, c) && !AskedAtStart(b, a, c);
      var facts :| SequentialApplicable(b, a, facts);
      AgainstIsNoRun(da, a, b, facts, c);
    }
  }

  lemma RunsCompressed(da: Sexp, a: Literals, b: Binding, facts: set<string>)
    requires HasProperties(da) && Reads(da, a) && CanCompress(da)
    requires forall c | c in a.conds && HelpedByAlias(b, a, c) :: AskedAtStart(b, a, c)
    requires SequentialApplicable(b, a, facts)
    ensures CompressedApplicable(b, CompressedPrecondition(da), facts)
  {
    CompressedAsks(da, a, b, facts);
    hide AfterStart, BroughtAbout, Falsified, CompressedApplicable, CompressedPrecondition, LeftOut;
    forall c | c in a.conds && !LeftOut(a, c) ensures Holds(b, facts, c) {
      if IsLater(c) {
        AfterStartHolds(b, a, facts, c);
        if BroughtAbout(b, a, c) {
          var d :| && d in a.conds && AtBeginning(d.moment) && d.positive == c.positive
                   && Key(b, d.atom) == Key(b, c.atom);
          assert Holds(b, facts, d);
        }
      }
    }
  }

  lemma UnaliasedNeedsNoHelp(b: Binding, a: Literals)
    requires Unaliased(b, a)
    ensures forall c | c in a.conds :: !HelpedByAlias(b, a, c)
  {
    forall c | c in a.conds && IsLater(c) && BroughtAbout(b, a, c) ensures LeftOut(a, c) {
      var x :| x in Sets(a, true, c.positive) && Key(b, x) == Key(b, c.atom);
      assert x in AtomsOf(a) && c.atom in AtomsOf(a);
    }
  }

  // ---- whole plans ----

  datatype PlanAction = PlanAction(da: Sexp, literals: Literals, binding: Binding)

  ghost predicate Compressible(s: PlanAction) {
    && HasProperties(s.da) && Reads(s.da, s.literals) && CanCompress(s.da)
    && !Clobbered(s.binding, s.literals)
    && forall c | c in s.literals.conds && HelpedByAlias(s.binding, s.literals, c) ::
         AskedAtStart(s.binding, s.literals, c)
  }

  /** Without aliasing there is nothing to ask of a durative action of this form. */
  lemma UnaliasedIsCompressible(s: PlanAction)
    requires HasProperties(s.da) && Reads(s.da, s.literals) && Unaliased(s.binding, s.literals)
    ensures Compressible(s)
  {
    ListsOf(s.da, s.literals);
    UnaliasedIsNotClobbered(s.binding, s.literals);
    UnaliasedNeedsNoHelp(s.binding, s.literals);
  }

  /** The facts after laying the durative actions end to end, if every one of them is applicable in turn. */
  function SequentialRun(plan: seq<PlanAction>, facts: set<string>): Option<set<string>> {
    if plan == [] then Some(facts)
    else if !SequentialApplicable(plan[0].binding, plan[0].literals, facts) then None
    else SequentialRun(plan[1..], SequentialFacts(plan[0].binding, plan[0].literals, facts))
  }

  /** The facts after executing the compressed actions in the same order. */
  function CompressedRun(plan: seq<PlanAction>, facts: set<string>): Option<set<string>>
    requires forall s | s in plan :: CanCompress(s.da)
  {
    if plan == [] then Some(facts)
    else
      var s := plan[0];
      assert s in plan;
      if !CompressedApplicable(s.binding, CompressedPrecondition(s.da), facts) then None
      else CompressedRun(plan[1..], CompressedFacts(s.binding, CompressedEffect(s.da), facts))
  }

  lemma StepAgrees(s: PlanAction, facts: set<string>)
    requires Compressible(s)
    ensures SequentialApplicable(s.binding, s.literals, facts) <==>
              && CompressedApplicable(s.binding, CompressedPrecondition(s.da), facts)
              && !SelfFalsified(s.binding, s.literals)
    ensures CompressedFacts(s.binding, CompressedEffect(s.da), facts) == SequentialFacts(s.binding, s.literals, facts)
  {
    FinalFactsAgreeIff(s.da, s.literals, s.binding, facts);
    if SequentialApplicable(s.binding, s.literals, facts) {
      RunsCompressed(s.da, s.literals, s.binding, facts);
    }
    if CompressedApplicable(s.binding, CompressedPrecondition(s.da), facts) {
      CompressedRunsIff(s.da, s.literals, s.binding, facts);
    }
  }

  /**
   * Every run of a plan of durative actions is a run of the compressed plan to the same facts; and a
   * run of the compressed plan is one of the durative plan exactly when no action in it falsifies its
   * own later conditions.
   */
  lemma {:induction false} PlansAgree(plan: seq<PlanAction>, facts: set<string>)
    requires (forall s | s in plan :: Compressible(s)) && forall s | s in plan :: CanCompress(s.da)
    ensures SequentialRun(plan, facts).Some? ==> CompressedRun(plan, facts) == SequentialRun(plan, facts)
    ensures CompressedRun(plan, facts).Some? ==>
              (SequentialRun(plan, facts).Some? <==> forall s | s in plan :: !SelfFalsified(s.binding, s.literals))
  {
    hide SequentialApplicable, CompressedApplicable, SequentialFacts, CompressedFacts, CompressedPrecondition,
         CompressedEffect, SelfFalsified, Compressible, CanCompress;
    if plan != [] {
      var s := plan[0];
      assert s in plan;
      StepAgrees(s, facts);
      assert forall t | t in plan :: t == s || t in plan[1..];
      PlansAgree(plan[1..], SequentialFacts(s.binding, s.literals, facts));
    }
  }
}
