// What applying a grounded effect makes of a state, in terms of the effect as it is written.
module Applying {
  import opened Prelude
  import opened HddlAst
  import opened Names
  import opened Bindings
  import opened Goals
  import opened Effects

  // ---- the order in which a written effect acts ----

  /** The deletes and adds of one level of an effect. */
  datatype Burst = Burst(dels: set<GroundAtom>, adds: set<GroundAtom>)

  /** The literals outside every conditional. */
  ghost function OwnBurst(e: Effect, b: Binding): Burst
    decreases e, 0
  {
    match e
    case AddLit(a) => Burst({}, {GroundAtom(a.pred, Denotations(a.args, b))})
    case DelLit(a) => Burst({GroundAtom(a.pred, Denotations(a.args, b))}, {})
    case Both(es) => OwnBurstAll(es, b)
    case _ => Burst({}, {})
  }

  ghost function OwnBurstAll(es: seq<Effect>, b: Binding): Burst
    decreases es, 0
  {
    if es == [] then Burst({}, {})
    else
      var x, y := OwnBurst(es[0], b), OwnBurstAll(es[1..], b);
      Burst(x.dels + y.dels, x.adds + y.adds)
  }

  /** The conditionals whose conditions hold in `s`, in written order, those nested in one before the one itself. */
  ghost function Bursts(e: Effect, b: Binding, objs: ObjectIndex, s: set<GroundAtom>): seq<Burst>
    decreases e, 0
  {
    match e
    case Both(es) => BurstsAll(es, b, objs, s)
    case When(cond, body) => if Holds(cond, b, objs, s) then Bursts(body, b, objs, s) + [OwnBurst(body, b)] else []
    case _ => []
  }

  ghost function BurstsAll(es: seq<Effect>, b: Binding, objs: ObjectIndex, s: set<GroundAtom>): seq<Burst>
    decreases es, 0
  {
    if es == [] then [] else Bursts(es[0], b, objs, s) + BurstsAll(es[1..], b, objs, s)
  }

  function AfterBurst(t: set<GroundAtom>, x: Burst): set<GroundAtom> {
    t - x.dels + x.adds
  }

  function AfterBursts(t: set<GroundAtom>, xs: seq<Burst>): set<GroundAtom>
    decreases |xs|
  {
    if xs == [] then t else AfterBursts(AfterBurst(t, xs[0]), xs[1..])
  }

  /** The effect's own literals first, then its conditionals, all conditions read in `s`. */
  ghost function AfterEffect(e: Effect, b: Binding, objs: ObjectIndex, s: set<GroundAtom>): set<GroundAtom> {
    AfterBursts(AfterBurst(s, OwnBurst(e, b)), Bursts(e, b, objs, s))
  }

  // ---- states whose strings can be told apart ----

  predicate CleanBurst(x: Burst) {
    CleanState(x.dels) && CleanState(x.adds)
  }

  lemma FactsAfterBurst(t: set<GroundAtom>, x: Burst)
    requires CleanState(t) && CleanBurst(x)
    ensures CleanState(AfterBurst(t, x))
    ensures FactsOf(AfterBurst(t, x)) == FactsOf(t) - FactsOf(x.dels) + FactsOf(x.adds)
  {
    forall a, d | a in t && d in x.dels && AtomKey(a.pred, a.args) == AtomKey(d.pred, d.args) ensures a == d {
      KeyInjective(a.pred, a.args, d.pred, d.args);
    }
    hide AtomKey, CleanState;
    assert FactsOf(t - x.dels) == FactsOf(t) - FactsOf(x.dels);
    assert FactsOf(t - x.dels + x.adds) == FactsOf(t - x.dels) + FactsOf(x.adds);
  }

  lemma {:induction false} AfterBurstsIsClean(t: set<GroundAtom>, xs: seq<Burst>)
    requires CleanState(t) && forall i | 0 <= i < |xs| :: CleanBurst(xs[i])
    ensures CleanState(AfterBursts(t, xs))
    decreases |xs|
  {
    if xs != [] {
      FactsAfterBurst(t, xs[0]);
      AfterBurstsIsClean(AfterBurst(t, xs[0]), xs[1..]);
    }
  }

  lemma {:induction false} AfterBurstsAppend(t: set<GroundAtom>, xs: seq<Burst>, ys: seq<Burst>)
    ensures AfterBursts(t, xs + ys) == AfterBursts(AfterBursts(t, xs), ys)
    decreases |xs|
  {
    if xs == [] {
      assert xs + ys == ys;
    } else {
      assert (xs + ys)[1..] == xs[1..] + ys;
      AfterBurstsAppend(AfterBurst(t, xs[0]), xs[1..], ys);
    }
  }

  lemma {:induction false} ApplyAppend(next: Facts, source: Facts, cs: seq<GroundConditional>, ds: seq<GroundConditional>)
    ensures ApplyConditionals(next, source, cs + ds) == ApplyConditionals(ApplyConditionals(next, source, cs), source, ds)
    decreases |cs|
  {
    if cs == [] {
      assert cs + ds == ds;
    } else {
      assert (cs + ds)[1..] == cs[1..] + ds;
      ApplyAppend(if Fires(cs[0], source) then next - cs[0].del + cs[0].add else next, source, cs[1..], ds);
    }
  }

  // ---- literals ----

  /** The branch's own deletes and adds are these. */
  ghost predicate Spells(x: GroundBranch, y: Burst) {
    CleanBurst(y) && x.del == FactsOf(y.dels) && x.add == FactsOf(y.adds)
  }

  lemma LiteralSpells(a: Atomic, b: Binding)
    requires CleanAtom(a) && CleanBinding(b) && SubstAtom(a, b).Ok?
    ensures var q := GroundAtom(a.pred, Denotations(a.args, b));
            CleanState({q}) && FactsOf({q}) == {SubstAtom(a, b).value}
  {
    SubstTermsDenote(a.args, b);
    var q := GroundAtom(a.pred, Denotations(a.args, b));
    forall x | x in q.args ensures ',' !in x {
      var i :| 0 <= i < |q.args| && x == q.args[i];
      assert CleanTerm(a.args[i]);
    }
    assert forall k :: k in FactsOf({q}) <==> k == AtomKey(q.pred, q.args);
  }

  lemma NothingSpelled()
    ensures Spells(EMPTY_BRANCH, Burst({}, {}))
  {
  }

  lemma MergeSpells(x: GroundBranch, y: GroundBranch, u: Burst, v: Burst)
    requires Spells(x, u) && Spells(y, v)
    ensures Spells(Merge(x, Ok(y)).value, Burst(u.dels + v.dels, u.adds + v.adds))
  {
    FactsOfUnion(u.dels, v.dels);
    FactsOfUnion(u.adds, v.adds);
  }

  lemma {:induction false} BranchSpells(e: Effect, b: Binding)
    requires CleanEffect(e) && CleanBinding(b) && BranchOf(e, b).Ok?
    ensures Spells(BranchOf(e, b).value, OwnBurst(e, b))
    decreases e, 0
  {
    match e
    case AddLit(a) => LiteralSpells(a, b);
    case DelLit(a) => LiteralSpells(a, b);
    case Both(es) => BranchAllSpells(es, b);
    case _ => NothingSpelled();
  }

  lemma {:induction false} BranchAllSpells(es: seq<Effect>, b: Binding)
    requires (forall i | 0 <= i < |es| :: CleanEffect(es[i])) && CleanBinding(b) && BranchOfAll(es, b).Ok?
    ensures Spells(BranchOfAll(es, b).value, OwnBurstAll(es, b))
    decreases es, 0
  {
    if es == [] {
      NothingSpelled();
    } else {
      BranchSpells(es[0], b);
      BranchAllSpells(es[1..], b);
      hide Spells;
      MergeSpells(BranchOf(es[0], b).value, BranchOfAll(es[1..], b).value, OwnBurst(es[0], b), OwnBurstAll(es[1..], b));
    }
  }

  lemma {:induction false} BodySpells(e: Effect, b: Binding, c: Condition, depth: nat)
    requires CleanEffect(e) && CleanBinding(b) && WhenBody(e, b, c, depth).Ok?
    ensures Spells(WhenBody(e, b, c, depth).value, OwnBurst(e, b))
    decreases e, 0
  {
    match e
    case AddLit(a) => LiteralSpells(a, b);
    case DelLit(a) => LiteralSpells(a, b);
    case Both(es) => BodyAllSpells(es, b, c, depth);
    case _ => NothingSpelled();
  }

  lemma {:induction false} BodyAllSpells(es: seq<Effect>, b: Binding, c: Condition, depth: nat)
    requires (forall i | 0 <= i < |es| :: CleanEffect(es[i])) && CleanBinding(b) && WhenBodyAll(es, b, c, depth).Ok?
    ensures Spells(WhenBodyAll(es, b, c, depth).value, OwnBurstAll(es, b))
    decreases es, 0
  {
    if es == [] {
      NothingSpelled();
    } else {
      BodySpells(es[0], b, c, depth);
      BodyAllSpells(es[1..], b, c, depth);
      hide Spells;
      MergeSpells(WhenBody(es[0], b, c, depth).value, WhenBodyAll(es[1..], b, c, depth).value,
                  OwnBurst(es[0], b), OwnBurstAll(es[1..], b));
    }
  }

  // ---- conditionals ----

  /** Applying the conditionals to a clean state is going through the bursts. */
  ghost predicate Performs(cs: seq<GroundConditional>, source: Facts, xs: seq<Burst>) {
    forall t | CleanState(t) ::
      CleanState(AfterBursts(t, xs)) && ApplyConditionals(FactsOf(t), source, cs) == FactsOf(AfterBursts(t, xs))
  }

  lemma NothingPerformed(source: Facts)
    ensures Performs([], source, [])
  {
  }

  lemma PerformsAppend(
    cs: seq<GroundConditional>, ds: seq<GroundConditional>, source: Facts, xs: seq<Burst>, ys: seq<Burst>)
    requires Performs(cs, source, xs) && Performs(ds, source, ys)
    ensures Performs(cs + ds, source, xs + ys)
  {
    forall t | CleanState(t)
      ensures CleanState(AfterBursts(t, xs + ys))
      ensures ApplyConditionals(FactsOf(t), source, cs + ds) == FactsOf(AfterBursts(t, xs + ys))
    {
      ApplyAppend(FactsOf(t), source, cs, ds);
      AfterBurstsAppend(t, xs, ys);
    }
  }

  /** The bursts, if the guard holds. */
  function Guarded(c: Condition, source: Facts, xs: seq<Burst>): seq<Burst> {
    if GuardHolds(c.pos, c.neg, source) then xs else []
  }

  lemma GuardedAppend(c: Condition, source: Facts, xs: seq<Burst>, ys: seq<Burst>)
    ensures Guarded(c, source, xs + ys) == Guarded(c, source, xs) + Guarded(c, source, ys)
  {
  }

  lemma GuardedJointly(c: Condition, d: Condition, holds: bool, source: Facts, xs: seq<Burst>)
    requires GuardHolds(d.pos, d.neg, source) <==> GuardHolds(c.pos, c.neg, source) && holds
    ensures Guarded(d, source, xs) == Guarded(c, source, if holds then xs else [])
  {
  }

  lemma JointGuard(cond: GoalDesc, b: Binding, c: Condition, objs: ObjectIndex, s: set<GroundAtom>)
    requires CleanGoal(cond) && CleanSetting(b, s) && Flatten(cond, b).Ok?
    ensures var d := MergeCondition(c, Flatten(cond, b)).value;
            GuardHolds(d.pos, d.neg, FactsOf(s)) <==> GuardHolds(c.pos, c.neg, FactsOf(s)) && Holds(cond, b, objs, s)
  {
    FlattenedGuardMeans(cond, b, objs, s);
  }

  lemma LastPerforms(inner: GroundBranch, c: Condition, source: Facts, own: Burst)
    requires Spells(inner, own)
    ensures Performs([GroundConditional(c.pos, c.neg, inner.add, inner.del)], source, Guarded(c, source, [own]))
  {
    var last := GroundConditional(c.pos, c.neg, inner.add, inner.del);
    assert [last][1..] == [] && [own][1..] == [];
    hide CleanState, FactsOf;
    forall t | CleanState(t)
      ensures CleanState(AfterBursts(t, Guarded(c, source, [own])))
      ensures ApplyConditionals(FactsOf(t), source, [last]) == FactsOf(AfterBursts(t, Guarded(c, source, [own])))
    {
      FactsAfterBurst(t, own);
      assert AfterBursts(AfterBurst(t, own), []) == AfterBurst(t, own);
    }
  }

  /** A conditional with the literals of its body acts, after those nested in it, just when its guard holds. */
  lemma GuardedPerforms(inner: GroundBranch, c: Condition, source: Facts, own: Burst, xs: seq<Burst>)
    requires Spells(inner, own) && Performs(inner.conditional, source, Guarded(c, source, xs))
    ensures Performs(inner.conditional + [GroundConditional(c.pos, c.neg, inner.add, inner.del)], source,
                     Guarded(c, source, xs + [own]))
  {
    LastPerforms(inner, c, source, own);
    hide Performs, Spells, Guarded;
    PerformsAppend(inner.conditional, [GroundConditional(c.pos, c.neg, inner.add, inner.del)], source,
                   Guarded(c, source, xs), Guarded(c, source, [own]));
    GuardedAppend(c, source, xs, [own]);
  }

  lemma {:induction false} BodyPerforms(
    e: Effect, b: Binding, c: Condition, depth: nat, objs: ObjectIndex, s: set<GroundAtom>)
    requires CleanEffect(e) && CleanSetting(b, s) && WhenBody(e, b, c, depth).Ok?
    ensures Performs(WhenBody(e, b, c, depth).value.conditional, FactsOf(s),
                     Guarded(c, FactsOf(s), Bursts(e, b, objs, s)))
    decreases e, 0
  {
    match e
    case Both(es) => BodyAllPerforms(es, b, c, depth, objs, s);
    case When(cond, body) =>
      var d := MergeCondition(c, Flatten(cond, b)).value;
      BodyPerforms(body, b, d, depth + 1, objs, s);
      NestedPerforms(e, b, c, depth, objs, s);
    case _ => NothingPerformed(FactsOf(s));
  }

  lemma NestedPerforms(e: Effect, b: Binding, c: Condition, depth: nat, objs: ObjectIndex, s: set<GroundAtom>)
    requires e.When? && CleanEffect(e) && CleanSetting(b, s) && WhenBody(e, b, c, depth).Ok?
    requires var d := MergeCondition(c, Flatten(e.cond, b)).value;
             Performs(WhenBody(e.body, b, d, depth + 1).value.conditional, FactsOf(s),
                      Guarded(d, FactsOf(s), Bursts(e.body, b, objs, s)))
    ensures Performs(WhenBody(e, b, c, depth).value.conditional, FactsOf(s),
                     Guarded(c, FactsOf(s), Bursts(e, b, objs, s)))
  {
    var d, F := MergeCondition(c, Flatten(e.cond, b)).value, FactsOf(s);
    var inner, xs, own := WhenBody(e.body, b, d, depth + 1).value, Bursts(e.body, b, objs, s), OwnBurst(e.body, b);
    JointGuard(e.cond, b, c, objs, s);
    BodySpells(e.body, b, d, depth + 1);
    assert WhenBody(e, b, c, depth).value.conditional ==
           inner.conditional + [GroundConditional(d.pos, d.neg, inner.add, inner.del)];
    assert Bursts(e, b, objs, s) == if Holds(e.cond, b, objs, s) then xs + [own] else [];
    hide *;
    GuardedPerforms(inner, d, F, own, xs);
    GuardedJointly(c, d, Holds(e.cond, b, objs, s), F, xs + [own]);
  }

  lemma {:induction false} BodyAllPerforms(
    es: seq<Effect>, b: Binding, c: Condition, depth: nat, objs: ObjectIndex, s: set<GroundAtom>)
    requires (forall i | 0 <= i < |es| :: CleanEffect(es[i])) && CleanSetting(b, s) && WhenBodyAll(es, b, c, depth).Ok?
    ensures Performs(WhenBodyAll(es, b, c, depth).value.conditional, FactsOf(s),
                     Guarded(c, FactsOf(s), BurstsAll(es, b, objs, s)))
    decreases es, 0
  {
    if es == [] {
      NothingPerformed(FactsOf(s));
    } else {
      BodyPerforms(es[0], b, c, depth, objs, s);
      BodyAllPerforms(es[1..], b, c, depth, objs, s);
      hide Performs, CleanEffect, CleanSetting, FactsOf, WhenBody, Bursts, Guarded;
      var x, y := WhenBody(es[0], b, c, depth).value, WhenBodyAll(es[1..], b, c, depth).value;
      var xs, ys := Bursts(es[0], b, objs, s), BurstsAll(es[1..], b, objs, s);
      PerformsAppend(x.conditional, y.conditional, FactsOf(s), Guarded(c, FactsOf(s), xs), Guarded(c, FactsOf(s), ys));
      GuardedAppend(c, FactsOf(s), xs, ys);
    }
  }

  lemma TopPerforms(e: Effect, b: Binding, objs: ObjectIndex, s: set<GroundAtom>)
    requires e.When? && CleanEffect(e) && CleanSetting(b, s) && BranchOf(e, b).Ok?
    requires var c := Flatten(e.cond, b).value;
             Performs(WhenBody(e.body, b, c, 1).value.conditional, FactsOf(s), Guarded(c, FactsOf(s), Bursts(e.body, b, objs, s)))
    ensures Performs(BranchOf(e, b).value.conditional, FactsOf(s), Bursts(e, b, objs, s))
  {
    var c, F := Flatten(e.cond, b).value, FactsOf(s);
    var inner, xs, own := WhenBody(e.body, b, c, 1).value, Bursts(e.body, b, objs, s), OwnBurst(e.body, b);
    FlattenedGuardMeans(e.cond, b, objs, s);
    BodySpells(e.body, b, c, 1);
    assert BranchOf(e, b).value.conditional ==
           inner.conditional + [GroundConditional(c.pos, c.neg, inner.add, inner.del)];
    assert Bursts(e, b, objs, s) == Guarded(c, F, xs + [own]);
    hide *;
    GuardedPerforms(inner, c, F, own, xs);
  }

  lemma {:induction false} BranchPerforms(e: Effect, b: Binding, objs: ObjectIndex, s: set<GroundAtom>)
    requires CleanEffect(e) && CleanSetting(b, s) && BranchOf(e, b).Ok?
    ensures Performs(BranchOf(e, b).value.conditional, FactsOf(s), Bursts(e, b, objs, s))
    decreases e, 0
  {
    match e
    case Both(es) => BranchAllPerforms(es, b, objs, s);
    case When(cond, body) =>
      BodyPerforms(body, b, Flatten(cond, b).value, 1, objs, s);
      TopPerforms(e, b, objs, s);
    case _ => NothingPerformed(FactsOf(s));
  }

  lemma {:induction false} BranchAllPerforms(es: seq<Effect>, b: Binding, objs: ObjectIndex, s: set<GroundAtom>)
    requires (forall i | 0 <= i < |es| :: CleanEffect(es[i])) && CleanSetting(b, s) && BranchOfAll(es, b).Ok?
    ensures Performs(BranchOfAll(es, b).value.conditional, FactsOf(s), BurstsAll(es, b, objs, s))
    decreases es, 0
  {
    if es == [] {
      NothingPerformed(FactsOf(s));
    } else {
      BranchPerforms(es[0], b, objs, s);
      BranchAllPerforms(es[1..], b, objs, s);
      hide Performs, CleanEffect, CleanSetting, FactsOf, BranchOf, Bursts;
      PerformsAppend(BranchOf(es[0], b).value.conditional, BranchOfAll(es[1..], b).value.conditional, FactsOf(s),
                     Bursts(es[0], b, objs, s), BurstsAll(es[1..], b, objs, s));
    }
  }

  /**
   * Grounding an effect and applying it to the fact strings gives the strings of the state after the
   * written effect: its own literals, deletes first, then each conditional that held before, in order.
   */
  lemma ApplyingPerformsEffect(e: Effect, b: Binding, objs: ObjectIndex, s: set<GroundAtom>)
    requires CleanEffect(e) && CleanSetting(b, s) && BranchOf(e, b).Ok?
    ensures Apply(FactsOf(s), BranchOf(e, b).value) == FactsOf(AfterEffect(e, b, objs, s))
    ensures CleanState(AfterEffect(e, b, objs, s))
  {
    var x, own := BranchOf(e, b).value, OwnBurst(e, b);
    BranchSpells(e, b);
    BranchPerforms(e, b, objs, s);
    hide BranchOf, OwnBurst, CleanEffect, FactsOf, Bursts, ApplyConditionals, AfterBursts, AfterBurst;
    FactsAfterBurst(s, own);
    assert ApplyConditionals(FactsOf(AfterBurst(s, own)), FactsOf(s), x.conditional)
        == FactsOf(AfterBursts(AfterBurst(s, own), Bursts(e, b, objs, s)));
  }

  /** The same for each outcome of an action. */
  lemma ApplyingPerformsOutcome(e: Effect, b: Binding, objs: ObjectIndex, s: set<GroundAtom>, i: nat)
    requires OutcomesOf(e, b).Ok? && CleanSetting(b, s)
    requires var alternatives := if e.Oneof? then e.effects else [e];
             i < |alternatives| && CleanEffect(alternatives[i])
    ensures var alternatives, outs := if e.Oneof? then e.effects else [e], OutcomesOf(e, b).value;
            && |outs| == |alternatives|
            && Apply(FactsOf(s), outs[i]) == FactsOf(AfterEffect(alternatives[i], b, objs, s))
  {
    if e.Oneof? {
      BranchesAt(e.effects, b, i);
      ApplyingPerformsEffect(e.effects[i], b, objs, s);
    } else {
      ApplyingPerformsEffect(e, b, objs, s);
    }
  }
}
