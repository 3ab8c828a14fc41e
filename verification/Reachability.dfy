// Delete-relaxation reachability: a fixpoint over facts that ignores deletes and negation.
module Reachability {
  import opened Prelude
  import opened HddlAst
  import opened Bindings
  import opened Goals
  import opened Effects
  import opened Grounders

  // ---- relaxed satisfiability ----

  /** Like evaluation, but a negation is taken to be satisfiable without looking inside. */
  function SatAt(g: GroundGoal, facts: Facts, depth: nat, budget: nat): Result<bool, GroundError>
    decreases g, 1
  {
    if depth > budget then Err(GoalTooDeep(depth, budget))
    else match g
      case GEmpty => Ok(true)
      case GAtom(k) => Ok(k in facts)
      case GEq(x, y) => Ok(x == y)
      case GNot(_) => Ok(true)
      case GAnd(parts) => SatAll(parts, facts, depth + 1, budget)
      case GOr(parts) => SatAny(parts, facts, depth + 1, budget)
  }

  function SatAll(parts: seq<GroundGoal>, facts: Facts, depth: nat, budget: nat): Result<bool, GroundError>
    decreases parts, 0
  {
    if parts == [] then Ok(true)
    else
      var v :- SatAt(parts[0], facts, depth, budget);
      if !v then Ok(false) else SatAll(parts[1..], facts, depth, budget)
  }

  function SatAny(parts: seq<GroundGoal>, facts: Facts, depth: nat, budget: nat): Result<bool, GroundError>
    decreases parts, 0
  {
    if parts == [] then Ok(false)
    else
      var v :- SatAt(parts[0], facts, depth, budget);
      if v then Ok(true) else SatAny(parts[1..], facts, depth, budget)
  }

  function RelaxedSatisfiable(g: GroundGoal, facts: Facts): Result<bool, GroundError> {
    SatAt(g, facts, 1, DEFAULT_MAX_GOAL_DEPTH)
  }

  /** The relaxed truth value, with no depth limit. */
  ghost predicate RelaxedTruth(g: GroundGoal, facts: Facts) {
    match g
    case GEmpty => true
    case GAtom(k) => k in facts
    case GEq(x, y) => x == y
    case GNot(_) => true
    case GAnd(parts) => forall i | 0 <= i < |parts| :: RelaxedTruth(parts[i], facts)
    case GOr(parts) => exists i :: 0 <= i < |parts| && RelaxedTruth(parts[i], facts)
  }

  lemma {:induction false} SatFaithful(g: GroundGoal, facts: Facts, depth: nat, budget: nat)
    requires depth <= budget + 1
    ensures match SatAt(g, facts, depth, budget)
            case Ok(v) => v == RelaxedTruth(g, facts)
            case Err(e) => e == GoalTooDeep(budget + 1, budget)
    decreases g
  {
    if depth <= budget {
      match g
      case GAnd(parts) => SatPartsFaithful(parts, facts, depth + 1, budget);
      case GOr(parts) => SatPartsFaithful(parts, facts, depth + 1, budget);
      case _ =>
    }
  }

  lemma {:induction false} SatPartsFaithful(parts: seq<GroundGoal>, facts: Facts, depth: nat, budget: nat)
    requires depth <= budget + 1
    ensures match SatAll(parts, facts, depth, budget)
            case Ok(v) => v == forall i | 0 <= i < |parts| :: RelaxedTruth(parts[i], facts)
            case Err(e) => e == GoalTooDeep(budget + 1, budget)
    ensures match SatAny(parts, facts, depth, budget)
            case Ok(v) => v == exists i :: 0 <= i < |parts| && RelaxedTruth(parts[i], facts)
            case Err(e) => e == GoalTooDeep(budget + 1, budget)
    decreases parts
  {
    if parts != [] {
      SatFaithful(parts[0], facts, depth, budget);
      SatPartsFaithful(parts[1..], facts, depth, budget);
      assert forall i | 1 <= i < |parts| :: parts[i] == parts[1..][i - 1];
    }
  }

  /** The goal with every negation taken to hold. */
  function Unnegated(g: GroundGoal): GroundGoal
    decreases g, 1
  {
    match g
    case GNot(_) => GEmpty
    case GAnd(parts) => GAnd(UnnegatedAll(parts))
    case GOr(parts) => GOr(UnnegatedAll(parts))
    case _ => g
  }

  function UnnegatedAll(parts: seq<GroundGoal>): (ps: seq<GroundGoal>)
    ensures |ps| == |parts|
    decreases parts, 0
  {
    if parts == [] then [] else [Unnegated(parts[0])] + UnnegatedAll(parts[1..])
  }

  lemma {:induction false} UnnegatedAt(parts: seq<GroundGoal>, i: nat)
    requires i < |parts|
    ensures UnnegatedAll(parts)[i] == Unnegated(parts[i])
  {
    if i > 0 {
      UnnegatedAt(parts[1..], i - 1);
    }
  }

  /** The relaxed test is the exact evaluation, with the same budget, of the goal without its negations. */
  lemma {:induction false} SatIsEvaluation(g: GroundGoal, facts: Facts, depth: nat, budget: nat)
    ensures SatAt(g, facts, depth, budget) == EvalAt(Unnegated(g), facts, depth, budget)
    decreases g
  {
    match g
    case GAnd(parts) => SatPartsAreEvaluation(parts, facts, depth + 1, budget);
    case GOr(parts) => SatPartsAreEvaluation(parts, facts, depth + 1, budget);
    case _ =>
  }

  lemma {:induction false} SatPartsAreEvaluation(parts: seq<GroundGoal>, facts: Facts, depth: nat, budget: nat)
    ensures SatAll(parts, facts, depth, budget) == EvalAnd(UnnegatedAll(parts), facts, depth, budget)
    ensures SatAny(parts, facts, depth, budget) == EvalOr(UnnegatedAll(parts), facts, depth, budget)
    decreases parts
  {
    if parts != [] {
      SatIsEvaluation(parts[0], facts, depth, budget);
      SatPartsAreEvaluation(parts[1..], facts, depth, budget);
      assert UnnegatedAll(parts)[1..] == UnnegatedAll(parts[1..]);
    }
  }

  lemma {:induction false} RelaxedTruthIsTruth(g: GroundGoal, facts: Facts)
    ensures RelaxedTruth(g, facts) <==> Truth(Unnegated(g), facts)
    decreases g, 1
  {
    match g
    case GAnd(parts) => RelaxedPartsAreTruth(parts, facts, g);
    case GOr(parts) => RelaxedPartsAreTruth(parts, facts, g);
    case _ =>
  }

  lemma {:induction false} RelaxedPartsAreTruth(parts: seq<GroundGoal>, facts: Facts, g: GroundGoal)
    requires g == GAnd(parts) || g == GOr(parts)
    ensures forall i | 0 <= i < |parts| :: RelaxedTruth(parts[i], facts) <==> Truth(UnnegatedAll(parts)[i], facts)
    decreases g, 0
  {
    forall i | 0 <= i < |parts| ensures RelaxedTruth(parts[i], facts) <==> Truth(UnnegatedAll(parts)[i], facts) {
      RelaxedTruthIsTruth(parts[i], facts);
      UnnegatedAt(parts, i);
    }
  }

  lemma {:induction false} UnnegatedIsNoHigher(g: GroundGoal, h: int)
    requires HeightAtMost(g, h)
    ensures HeightAtMost(Unnegated(g), h)
  {
    match g
    case GAnd(parts) =>
      forall i | 0 <= i < |parts| ensures HeightAtMost(UnnegatedAll(parts)[i], h - 1) {
        UnnegatedIsNoHigher(parts[i], h - 1);
        UnnegatedAt(parts, i);
      }
    case GOr(parts) =>
      forall i | 0 <= i < |parts| ensures HeightAtMost(UnnegatedAll(parts)[i], h - 1) {
        UnnegatedIsNoHigher(parts[i], h - 1);
        UnnegatedAt(parts, i);
      }
    case _ =>
  }

  /** The levels of the goal outside its negations are within the budget. */
  ghost predicate FitsBudget(g: GroundGoal) {
    HeightAtMost(Unnegated(g), DEFAULT_MAX_GOAL_DEPTH)
  }

  /** The relaxed test answers the relaxed truth, and refuses only a goal too deep outside its negations. */
  lemma RelaxedTest(g: GroundGoal, facts: Facts)
    ensures match RelaxedSatisfiable(g, facts)
            case Ok(v) => v == RelaxedTruth(g, facts)
            case Err(e) => e == GoalTooDeep(DEFAULT_MAX_GOAL_DEPTH + 1, DEFAULT_MAX_GOAL_DEPTH) && !FitsBudget(g)
    ensures HeightAtMost(g, DEFAULT_MAX_GOAL_DEPTH) ==> FitsBudget(g)
  {
    SatFaithful(g, facts, 1, DEFAULT_MAX_GOAL_DEPTH);
    SatIsEvaluation(g, facts, 1, DEFAULT_MAX_GOAL_DEPTH);
    if FitsBudget(g) {
      EvalTotal(Unnegated(g), facts, 1, DEFAULT_MAX_GOAL_DEPTH);
    }
    if HeightAtMost(g, DEFAULT_MAX_GOAL_DEPTH) {
      UnnegatedIsNoHigher(g, DEFAULT_MAX_GOAL_DEPTH);
    }
  }

  /** Whatever holds exactly in a subset holds relaxed in the superset. */
  lemma {:induction false} ExactImpliesRelaxed(g: GroundGoal, s: Facts, t: Facts)
    requires s <= t && Truth(g, s)
    ensures RelaxedTruth(g, t)
  {
    match g
    case GAnd(parts) =>
      forall i | 0 <= i < |parts| ensures RelaxedTruth(parts[i], t) {
        ExactImpliesRelaxed(parts[i], s, t);
      }
    case GOr(parts) =>
      var i :| 0 <= i < |parts| && Truth(parts[i], s);
      ExactImpliesRelaxed(parts[i], s, t);
    case _ =>
  }

  lemma {:induction false} RelaxedMonotone(g: GroundGoal, s: Facts, t: Facts)
    requires s <= t && RelaxedTruth(g, s)
    ensures RelaxedTruth(g, t)
  {
    match g
    case GAnd(parts) =>
      forall i | 0 <= i < |parts| ensures RelaxedTruth(parts[i], t) {
        RelaxedMonotone(parts[i], s, t);
      }
    case GOr(parts) =>
      var i :| 0 <= i < |parts| && RelaxedTruth(parts[i], s);
      RelaxedMonotone(parts[i], s, t);
    case _ =>
  }

  // ---- the relaxed rules ----

  /** An action or a method: both add facts when they may fire. */
  datatype Schema = FromAction(a: ActionDef) | FromMethod(m: MethodDef)

  function ParamsOf(s: Schema): seq<TypedParam> {
    match s
    case FromAction(a) => a.params
    case FromMethod(m) => m.params
  }

  function PreOf(s: Schema, b: Binding, objs: ObjectIndex): Result<GroundGoal, GroundError> {
    match s
    case FromAction(a) => Ground(a.pre, b, objs)
    case FromMethod(m) => Ground(m.pre, b, objs)
  }

  /** Every fact a branch can add, its conditionals taken to fire. */
  function BranchAdds(x: GroundBranch): Facts {
    x.add + ConditionalAdds(x.conditional)
  }

  function ConditionalAdds(cs: seq<GroundConditional>): Facts {
    if cs == [] then {} else cs[0].add + ConditionalAdds(cs[1..])
  }

  function OutcomeAdds(xs: seq<GroundBranch>): Facts {
    if xs == [] then {} else BranchAdds(xs[0]) + OutcomeAdds(xs[1..])
  }

  function AddsOf(s: Schema, b: Binding): Result<Facts, GroundError> {
    match s
    case FromAction(a) =>
      var xs :- OutcomesOf(a.effect, b);
      Ok(OutcomeAdds(xs))
    case FromMethod(m) =>
      var x :- BranchOf(m.effect, b);
      Ok(BranchAdds(x))
  }

  /** The branch adds `f`, or one of its conditionals does. */
  ghost predicate MayAdd(x: GroundBranch, f: string) {
    f in x.add || exists i :: 0 <= i < |x.conditional| && f in x.conditional[i].add
  }

  /** An action's outcomes, or a method's effect alone. */
  ghost function BranchesOfRule(s: Schema, b: Binding): Result<seq<GroundBranch>, GroundError> {
    match s
    case FromAction(a) => OutcomesOf(a.effect, b)
    case FromMethod(m) =>
      var x :- BranchOf(m.effect, b);
      Ok([x])
  }

  lemma {:induction false} InConditionalAdds(cs: seq<GroundConditional>, f: string)
    ensures f in ConditionalAdds(cs) <==> exists i :: 0 <= i < |cs| && f in cs[i].add
  {
    if cs != [] {
      InConditionalAdds(cs[1..], f);
      assert forall i | 1 <= i < |cs| :: cs[i] == cs[1..][i - 1];
    }
  }

  lemma {:induction false} InOutcomeAdds(xs: seq<GroundBranch>, f: string)
    ensures f in OutcomeAdds(xs) <==> exists i :: 0 <= i < |xs| && MayAdd(xs[i], f)
  {
    if xs != [] {
      InConditionalAdds(xs[0].conditional, f);
      InOutcomeAdds(xs[1..], f);
      assert forall i | 1 <= i < |xs| :: xs[i] == xs[1..][i - 1];
    }
  }

  /** A rule adds exactly what one of its branches may add. */
  lemma AddsIff(s: Schema, b: Binding, f: string)
    ensures AddsOf(s, b).Ok? <==> BranchesOfRule(s, b).Ok?
    ensures AddsOf(s, b).Ok? ==>
              var xs := BranchesOfRule(s, b).value;
              f in AddsOf(s, b).value <==> exists i :: 0 <= i < |xs| && MayAdd(xs[i], f)
  {
    if AddsOf(s, b).Ok? {
      var xs := BranchesOfRule(s, b).value;
      InOutcomeAdds(xs, f);
      if s.FromMethod? {
        InConditionalAdds(xs[0].conditional, f);
      }
    }
  }

  ghost predicate IsSchema(d: Domain, s: Schema) {
    match s
    case FromAction(a) => a in d.actions
    case FromMethod(m) => m in d.methods
  }

  ghost predicate IsRule(d: Domain, objs: ObjectIndex, s: Schema, b: Binding) {
    IsSchema(d, s) && b in BindingsOf(ParamsOf(s), objs)
  }

  ghost predicate MayFire(s: Schema, b: Binding, objs: ObjectIndex, facts: Facts) {
    PreOf(s, b, objs).Ok? && RelaxedTruth(PreOf(s, b, objs).value, facts)
  }

  ghost predicate Satisfied(s: Schema, b: Binding, objs: ObjectIndex, facts: Facts) {
    MayFire(s, b, objs, facts) ==> AddsOf(s, b).Ok? && AddsOf(s, b).value <= facts
  }

  /** No relaxed rule adds anything new. */
  ghost predicate ClosedUnderRules(d: Domain, objs: ObjectIndex, facts: Facts) {
    forall s, b | IsRule(d, objs, s, b) :: Satisfied(s, b, objs, facts)
  }

  ghost predicate InEveryRelaxation(d: Domain, objs: ObjectIndex, init: Facts, facts: Facts) {
    forall c: Facts | init <= c && ClosedUnderRules(d, objs, c) :: facts <= c
  }

  ghost predicate NamedAction(d: Domain, objs: ObjectIndex, facts: Facts, name: string) {
    exists a, b :: IsRule(d, objs, FromAction(a), b) && MayFire(FromAction(a), b, objs, facts) && ActionName(a, b) == name
  }

  /** The least closed set of facts, and exactly the names of the actions that may fire in it. */
  ghost predicate IsReachability(d: Domain, objs: ObjectIndex, init: Facts, facts: Facts, names: set<string>) {
    && init <= facts
    && ClosedUnderRules(d, objs, facts)
    && InEveryRelaxation(d, objs, init, facts)
    && forall name :: name in names <==> NamedAction(d, objs, facts, name)
  }

  /** Reachability does not depend on the order in which schemas are listed. */
  lemma ReachabilityIgnoresOrder(
    d: Domain, d': Domain, objs: ObjectIndex, init: Facts, facts: Facts, names: set<string>,
    facts': Facts, names': set<string>)
    requires Elems(d.actions) == Elems(d'.actions) && Elems(d.methods) == Elems(d'.methods)
    requires IsReachability(d, objs, init, facts, names) && IsReachability(d', objs, init, facts', names')
    ensures facts == facts' && names == names'
  {
    assert forall a :: a in d.actions <==> a in Elems(d.actions);
    assert forall a :: a in d'.actions <==> a in Elems(d'.actions);
    assert forall m :: m in d.methods <==> m in Elems(d.methods);
    assert forall m :: m in d'.methods <==> m in Elems(d'.methods);
    assert forall s, b :: IsRule(d, objs, s, b) <==> IsRule(d', objs, s, b);
    assert facts <= facts' && facts' <= facts;
    forall name | NamedAction(d, objs, facts, name) {
      NamedActionCarries(d, d', objs, facts, name);
    }
    forall name | NamedAction(d', objs, facts', name) {
      NamedActionCarries(d', d, objs, facts', name);
    }
  }

  lemma NamedActionCarries(d: Domain, d': Domain, objs: ObjectIndex, facts: Facts, name: string)
    requires forall a :: a in d.actions ==> a in d'.actions
    requires NamedAction(d, objs, facts, name)
    ensures NamedAction(d', objs, facts, name)
  {
    var a, b :| IsRule(d, objs, FromAction(a), b) && MayFire(FromAction(a), b, objs, facts) && ActionName(a, b) == name;
    assert IsRule(d', objs, FromAction(a), b);
  }

  // ---- the fixpoint ----

  /** What one pass over a schema's pending bindings leaves. */
  datatype Pass = Pass(pending: set<nat>, facts: Facts, names: set<string>, changed: bool)

  ghost predicate Fired(s: Schema, b: Binding, objs: ObjectIndex, facts: Facts, names: set<string>) {
    && MayFire(s, b, objs, facts)
    && AddsOf(s, b).Ok? && AddsOf(s, b).value <= facts
    && (s.FromAction? ==> ActionName(s.a, b) in names)
  }

  ghost predicate Idle(s: Schema, b: Binding, objs: ObjectIndex, facts: Facts) {
    PreOf(s, b, objs).Ok? && !RelaxedTruth(PreOf(s, b, objs).value, facts)
  }

  lemma FiredMonotone(
    s: Schema, b: Binding, objs: ObjectIndex, facts: Facts, names: set<string>, facts': Facts, names': set<string>)
    requires Fired(s, b, objs, facts, names) && facts <= facts' && names <= names'
    ensures Fired(s, b, objs, facts', names')
  {
    RelaxedMonotone(PreOf(s, b, objs).value, facts, facts');
  }

  /** The state of the fixpoint between bindings: nothing in it goes beyond the least closed set. */
  ghost predicate Sound(d: Domain, objs: ObjectIndex, init: Facts, facts: Facts, names: set<string>) {
    && init <= facts <= FactUniverse(d, objs, init)
    && InEveryRelaxation(d, objs, init, facts)
    && forall name | name in names :: NamedAction(d, objs, facts, name)
  }

  ghost function FactUniverse(d: Domain, objs: ObjectIndex, init: Facts): Facts {
    init
    + (set a, b, f | a in d.actions && b in BindingsOf(a.params, objs) && AddsOf(FromAction(a), b).Ok?
                     && f in AddsOf(FromAction(a), b).value :: f)
    + (set m, b, f | m in d.methods && b in BindingsOf(m.params, objs) && AddsOf(FromMethod(m), b).Ok?
                     && f in AddsOf(FromMethod(m), b).value :: f)
  }

  function NameOf(s: Schema, b: Binding): set<string> {
    match s
    case FromAction(a) => {ActionName(a, b)}
    case FromMethod(_) => {}
  }

  /** Firing one rule that may fire keeps the state sound. */
  lemma FireKeepsSound(
    d: Domain, objs: ObjectIndex, init: Facts, facts: Facts, names: set<string>, s: Schema, b: Binding)
    requires Sound(d, objs, init, facts, names)
    requires IsRule(d, objs, s, b) && MayFire(s, b, objs, facts) && AddsOf(s, b).Ok?
    ensures Sound(d, objs, init, facts + AddsOf(s, b).value, names + NameOf(s, b))
    ensures Fired(s, b, objs, facts + AddsOf(s, b).value, names + NameOf(s, b))
  {
    var adds := AddsOf(s, b).value;
    var facts' := facts + adds;
    assert adds <= FactUniverse(d, objs, init);
    forall c: Facts | init <= c && ClosedUnderRules(d, objs, c) ensures facts' <= c {
      assert facts <= c;
      RelaxedMonotone(PreOf(s, b, objs).value, facts, c);
      assert Satisfied(s, b, objs, c);
    }
    RelaxedMonotone(PreOf(s, b, objs).value, facts, facts');
    forall name | name in names + NameOf(s, b) ensures NamedAction(d, objs, facts', name) {
      if name in names {
        var a, b' :| IsRule(d, objs, FromAction(a), b') && MayFire(FromAction(a), b', objs, facts)
                     && ActionName(a, b') == name;
        RelaxedMonotone(PreOf(FromAction(a), b', objs).value, facts, facts');
      } else {
        assert s.FromAction? && MayFire(FromAction(s.a), b, objs, facts');
      }
    }
  }

  ghost predicate PassDone(
    s: Schema, bs: seq<Binding>, objs: ObjectIndex, upTo: nat, facts0: Facts, p: Pass)
  {
    && (forall k | 0 <= k < |bs| && k !in p.pending :: Fired(s, bs[k], objs, p.facts, p.names))
    && (!p.changed ==> p.facts == facts0
                       && forall k | 0 <= k < upTo && k < |bs| && k in p.pending :: Idle(s, bs[k], objs, p.facts))
  }

  /** Some rule's precondition or effect does not ground, for the reason `e`. */
  ghost predicate RuleFails(d: Domain, objs: ObjectIndex, e: GroundError) {
    exists s, b :: IsRule(d, objs, s, b) && (PreOf(s, b, objs) == Err(e) || AddsOf(s, b) == Err(e))
  }

  /** Some ground precondition is deeper than the budget, outside its negations. */
  ghost predicate RuleTooDeep(d: Domain, objs: ObjectIndex) {
    exists s, b :: IsRule(d, objs, s, b) && PreOf(s, b, objs).Ok? && !FitsBudget(PreOf(s, b, objs).value)
  }

  /** The two ways in which the fixpoint is refused. */
  ghost predicate Refused(d: Domain, objs: ObjectIndex, e: GroundError) {
    RuleFails(d, objs, e) || (RuleTooDeep(d, objs) && e == GoalTooDeep(DEFAULT_MAX_GOAL_DEPTH + 1, DEFAULT_MAX_GOAL_DEPTH))
  }

  /** Tries every pending binding of one schema against the facts found so far. */
  method TrySchema(
    d: Domain, objs: ObjectIndex, ghost init: Facts, s: Schema, bs: seq<Binding>, pending0: set<nat>,
    facts0: Facts, names0: set<string>, changed0: bool) returns (r: Result<Pass, GroundError>)
    requires IsSchema(d, s) && bs == BindingsOf(ParamsOf(s), objs)
    requires Sound(d, objs, init, facts0, names0)
    requires forall k | 0 <= k < |bs| && k !in pending0 :: Fired(s, bs[k], objs, facts0, names0)
    ensures r.Ok? ==> Sound(d, objs, init, r.value.facts, r.value.names)
    ensures r.Ok? ==> PassDone(s, bs, objs, |bs|, facts0, r.value.(changed := changed0 || r.value.changed))
    ensures r.Ok? ==> facts0 <= r.value.facts && names0 <= r.value.names
    ensures r.Ok? ==> (r.value.changed <==> changed0 || r.value.facts != facts0)
    ensures r.Ok? ==> (r.value.facts == facts0 ==> forall k | 0 <= k < |bs| && k in r.value.pending ::
                                                     Idle(s, bs[k], objs, facts0))
    ensures r.Err? ==> Refused(d, objs, r.error)
  {
    hide RelaxedTruth, RelaxedSatisfiable, FitsBudget, HeightAtMost, AddsOf, PreOf, BindingsOf, FactUniverse, Sound, ActionName;
    var p := Pass(pending0, facts0, names0, changed0);
    for k := 0 to |bs|
      invariant Sound(d, objs, init, p.facts, p.names)
      invariant forall j | 0 <= j < |bs| && j !in p.pending :: Fired(s, bs[j], objs, p.facts, p.names)
      invariant facts0 <= p.facts && names0 <= p.names
      invariant p.changed <==> changed0 || p.facts != facts0
      invariant p.facts == facts0 ==> forall j | 0 <= j < k && j in p.pending :: Idle(s, bs[j], objs, facts0)
    {
      if k in p.pending {
        var b := bs[k];
        assert IsRule(d, objs, s, b);
        var pre := PreOf(s, b, objs);
        if pre.Err? {
          return Err(pre.error);
        }
        var sat := RelaxedSatisfiable(pre.value, p.facts);
        RelaxedTest(pre.value, p.facts);
        if sat.Err? {
          return Err(sat.error);
        }
        if sat.value {
          var adds := AddsOf(s, b);
          if adds.Err? {
            return Err(adds.error);
          }
          FireKeepsSound(d, objs, init, p.facts, p.names, s, b);
          var after := Pass(p.pending - {k}, p.facts + adds.value, p.names + NameOf(s, b),
                            p.changed || !(adds.value <= p.facts));
          forall j | 0 <= j < |bs| && j !in after.pending ensures Fired(s, bs[j], objs, after.facts, after.names) {
            if j != k {
              FiredMonotone(s, bs[j], objs, p.facts, p.names, after.facts, after.names);
            }
          }
          p := after;
        }
      }
    }
    r := Ok(p);
  }

  function Below(n: nat): (s: set<nat>)
    ensures forall k: nat :: k in s <==> k < n
  {
    if n == 0 then {} else Below(n - 1) + {n - 1}
  }

  /** Actions first, then methods, each in declaration order. */
  function SchemasOf(d: Domain): seq<Schema> {
    seq(|d.actions|, i requires 0 <= i < |d.actions| => FromAction(d.actions[i]))
    + seq(|d.methods|, i requires 0 <= i < |d.methods| => FromMethod(d.methods[i]))
  }

  lemma SchemaListed(d: Domain, s: Schema) returns (i: nat)
    requires IsSchema(d, s)
    ensures i < |SchemasOf(d)| && SchemasOf(d)[i] == s
  {
    match s
    case FromAction(a) =>
      i :| 0 <= i < |d.actions| && d.actions[i] == a;
    case FromMethod(m) =>
      var j :| 0 <= j < |d.methods| && d.methods[j] == m;
      i := |d.actions| + j;
  }

  ghost predicate AllFiredBut(
    schemas: seq<Schema>, objs: ObjectIndex, bindings: seq<seq<Binding>>, pending: seq<set<nat>>,
    facts: Facts, names: set<string>)
    requires |schemas| == |bindings| == |pending|
  {
    forall i, k | 0 <= i < |schemas| && 0 <= k < |bindings[i]| && k !in pending[i] ::
      Fired(schemas[i], bindings[i][k], objs, facts, names)
  }

  ghost predicate AllIdle(
    schemas: seq<Schema>, objs: ObjectIndex, bindings: seq<seq<Binding>>, pending: seq<set<nat>>, facts: Facts, n: nat)
    requires |schemas| == |bindings| == |pending|
  {
    forall i, k | 0 <= i < n && i < |schemas| && 0 <= k < |bindings[i]| && k in pending[i] ::
      Idle(schemas[i], bindings[i][k], objs, facts)
  }

  /**
   * The relaxed fixpoint. A successful result is exactly the least set of facts closed under
   * the relaxed add rules of actions and methods, with the names of the actions that may fire in it.
   */
  method ComputeReachability(d: Domain, objs: ObjectIndex, init: Facts)
    returns (r: Result<(Facts, set<string>), GroundError>)
    ensures r.Ok? ==> IsReachability(d, objs, init, r.value.0, r.value.1)
    ensures r.Err? ==> Refused(d, objs, r.error)
  {
    var schemas := SchemasOf(d);
    var bindings: seq<seq<Binding>> := [];
    var pending: seq<set<nat>> := [];
    for i := 0 to |schemas|
      invariant |bindings| == |pending| == i
      invariant forall j | 0 <= j < i :: bindings[j] == BindingsOf(ParamsOf(schemas[j]), objs)
      invariant forall j, k | 0 <= j < i && 0 <= k < |bindings[j]| :: k in pending[j]
    {
      var bs := EnumerateBindings(ParamsOf(schemas[i]), objs);
      bindings := bindings + [bs];
      pending := pending + [Below(|bs|)];
    }
    r := Saturate(d, objs, init, schemas, bindings, pending);
  }

  method Saturate(
    d: Domain, objs: ObjectIndex, init: Facts, schemas: seq<Schema>, bindings: seq<seq<Binding>>,
    pending0: seq<set<nat>>) returns (r: Result<(Facts, set<string>), GroundError>)
    requires schemas == SchemasOf(d) && |schemas| == |bindings| == |pending0|
    requires forall j | 0 <= j < |schemas| :: bindings[j] == BindingsOf(ParamsOf(schemas[j]), objs)
    requires forall j, k | 0 <= j < |schemas| && 0 <= k < |bindings[j]| :: k in pending0[j]
    ensures r.Ok? ==> IsReachability(d, objs, init, r.value.0, r.value.1)
    ensures r.Err? ==> Refused(d, objs, r.error)
  {
    hide BindingsOf, Refused, Fired, Idle, IsReachability;
    var facts, names, pending := init, {}, pending0;
    StartSound(d, objs, init);
    var changed := true;
    while changed
      invariant |pending| == |schemas|
      invariant Sound(d, objs, init, facts, names)
      invariant AllFiredBut(schemas, objs, bindings, pending, facts, names)
      invariant !changed ==> AllIdle(schemas, objs, bindings, pending, facts, |schemas|)
      decreases FactUniverse(d, objs, init) - facts, changed
    {
      hide FactUniverse;
      ghost var before := facts;
      changed := false;
      for i := 0 to |schemas|
        invariant |pending| == |schemas|
        invariant Sound(d, objs, init, facts, names) && before <= facts
        invariant AllFiredBut(schemas, objs, bindings, pending, facts, names)
        invariant changed <==> facts != before
        invariant !changed ==> AllIdle(schemas, objs, bindings, pending, facts, i)
      {
        SchemaInDomain(d, i);
        var p := TrySchema(d, objs, init, schemas[i], bindings[i], pending[i], facts, names, changed);
        if p.Err? {
          return Err(p.error);
        }
        CarryFired(schemas, objs, bindings, pending, facts, names, i, p.value);
        facts, names, changed := p.value.facts, p.value.names, p.value.changed;
        pending := pending[i := p.value.pending];
      }
    }
    FixpointReached(d, objs, init, schemas, bindings, pending, facts, names);
    r := Ok((facts, names));
  }

  lemma StartSound(d: Domain, objs: ObjectIndex, init: Facts)
    ensures Sound(d, objs, init, init, {})
  {
  }

  lemma SchemaInDomain(d: Domain, i: nat)
    requires i < |SchemasOf(d)|
    ensures IsSchema(d, SchemasOf(d)[i])
  {
  }

  lemma CarryFired(
    schemas: seq<Schema>, objs: ObjectIndex, bindings: seq<seq<Binding>>, pending: seq<set<nat>>,
    facts: Facts, names: set<string>, i: nat, p: Pass)
    requires |schemas| == |bindings| == |pending| && i < |schemas|
    requires AllFiredBut(schemas, objs, bindings, pending, facts, names)
    requires facts <= p.facts && names <= p.names
    requires forall k | 0 <= k < |bindings[i]| && k !in p.pending ::
               Fired(schemas[i], bindings[i][k], objs, p.facts, p.names)
    ensures AllFiredBut(schemas, objs, bindings, pending[i := p.pending], p.facts, p.names)
  {
    forall j, k | 0 <= j < |schemas| && 0 <= k < |bindings[j]| && k !in pending[i := p.pending][j]
      ensures Fired(schemas[j], bindings[j][k], objs, p.facts, p.names)
    {
      if j != i {
        FiredMonotone(schemas[j], bindings[j][k], objs, facts, names, p.facts, p.names);
      }
    }
  }

  /** When every rule has fired or is idle, the state is the least closed one. */
  lemma FixpointReached(
    d: Domain, objs: ObjectIndex, init: Facts, schemas: seq<Schema>, bindings: seq<seq<Binding>>,
    pending: seq<set<nat>>, facts: Facts, names: set<string>)
    requires schemas == SchemasOf(d) && |schemas| == |bindings| == |pending|
    requires forall j | 0 <= j < |schemas| :: bindings[j] == BindingsOf(ParamsOf(schemas[j]), objs)
    requires Sound(d, objs, init, facts, names)
    requires AllFiredBut(schemas, objs, bindings, pending, facts, names)
    requires AllIdle(schemas, objs, bindings, pending, facts, |schemas|)
    ensures IsReachability(d, objs, init, facts, names)
  {
    forall s, b | IsRule(d, objs, s, b)
      ensures Satisfied(s, b, objs, facts)
      ensures s.FromAction? && MayFire(s, b, objs, facts) ==> ActionName(s.a, b) in names
    {
      var i := SchemaListed(d, s);
      var k :| 0 <= k < |bindings[i]| && bindings[i][k] == b;
      assert k in pending[i] ==> Idle(schemas[i], bindings[i][k], objs, facts);
      assert k !in pending[i] ==> Fired(schemas[i], bindings[i][k], objs, facts, names);
    }
    forall name | NamedAction(d, objs, facts, name) ensures name in names {
      var a, b :| IsRule(d, objs, FromAction(a), b) && MayFire(FromAction(a), b, objs, facts)
                  && ActionName(a, b) == name;
    }
  }
}
