// When grounding refuses an input: exactly which goals and effects compile, and which inputs ground.
module Refusals {
  import opened Prelude
  import opened HddlAst
  import opened Bindings
  import opened Goals
  import opened Effects
  import opened Grounders
  import opened Validation
  import opened Pipeline
  import opened Instances

  // ---- goals ----

  /** The built-in equality always has two sides. */
  ghost predicate EqualitiesAreBinary(g: GoalDesc) {
    match g
    case Empty => true
    case Atom(a) => a.pred == "=" ==> |a.args| == 2
    case Not(inner) => EqualitiesAreBinary(inner)
    case And(parts) => forall i | 0 <= i < |parts| :: EqualitiesAreBinary(parts[i])
    case Or(parts) => forall i | 0 <= i < |parts| :: EqualitiesAreBinary(parts[i])
    case Imply(ante, conseq) => EqualitiesAreBinary(ante) && EqualitiesAreBinary(conseq)
    case Forall(_, body) => EqualitiesAreBinary(body)
    case Exists(_, body) => EqualitiesAreBinary(body)
  }

  /** No quantifier ranges over nothing. */
  ghost predicate RangesAreInhabited(g: GoalDesc, objs: ObjectIndex) {
    match g
    case Empty => true
    case Atom(_) => true
    case Not(inner) => RangesAreInhabited(inner, objs)
    case And(parts) => forall i | 0 <= i < |parts| :: RangesAreInhabited(parts[i], objs)
    case Or(parts) => forall i | 0 <= i < |parts| :: RangesAreInhabited(parts[i], objs)
    case Imply(ante, conseq) => RangesAreInhabited(ante, objs) && RangesAreInhabited(conseq, objs)
    case Forall(vars, body) => BindingsOf(vars, objs) != [] && RangesAreInhabited(body, objs)
    case Exists(vars, body) => BindingsOf(vars, objs) != [] && RangesAreInhabited(body, objs)
  }

  /** Every variable is bound where it stands, and equalities are binary. */
  ghost predicate Compilable(g: GoalDesc, scope: set<Name>) {
    GoalInScope(g, scope) && EqualitiesAreBinary(g)
  }

  lemma TermsInScope(ts: seq<Term>, b: Binding)
    ensures SubstTerms(ts, b).Ok? <==> ArgsInScope(ts, b.Keys)
  {
    TermsSubstitute(ts, b);
    if ArgsInScope(ts, b.Keys) {
      forall t | t in ts && t.Var? ensures t.v in b {
        var i :| 0 <= i < |ts| && ts[i] == t;
      }
    }
  }

  lemma AtomCompiles(a: Atomic, b: Binding)
    ensures SubstAtom(a, b).Ok? <==> ArgsInScope(a.args, b.Keys)
    ensures SubstEqArgs(a, b).Ok? <==> |a.args| == 2 && ArgsInScope(a.args, b.Keys)
  {
    TermsInScope(a.args, b);
  }

  lemma BinderScope(vars: seq<TypedParam>, objs: ObjectIndex, b: Binding, e: Binding)
    requires e in BindingsOf(vars, objs)
    ensures (b + e).Keys == b.Keys + BoundBy(vars)
  {
    ProductKeys(VarsOf(vars), ChoicesOf(vars, objs), e);
    VarsAre(vars);
    hide Product;
    assert BoundBy(vars) == set x | x in vars :: x.v by {
      forall x | x in vars ensures x.v in BoundBy(vars) {
        var i :| 0 <= i < |vars| && vars[i] == x;
      }
    }
  }

  /** A goal that is compilable in the binding's scope grounds; if no quantifier ranges over nothing, only such a goal does. */
  lemma {:induction false} GroundSucceedsIff(g: GoalDesc, b: Binding, objs: ObjectIndex)
    ensures Compilable(g, b.Keys) ==> Ground(g, b, objs).Ok?
    ensures RangesAreInhabited(g, objs) && Ground(g, b, objs).Ok? ==> Compilable(g, b.Keys)
    decreases g, 0, 0
  {
    hide BindingsOf, SubstAtom, SubstEqArgs, BoundBy;
    match g
    case Empty =>
    case Atom(a) => AtomCompiles(a, b);
    case Not(inner) => GroundSucceedsIff(inner, b, objs);
    case And(parts) => GroundPartsSucceedIff(parts, b, objs);
    case Or(parts) => GroundPartsSucceedIff(parts, b, objs);
    case Imply(ante, conseq) =>
      GroundSucceedsIff(ante, b, objs);
      GroundSucceedsIff(conseq, b, objs);
    case Forall(vars, body) => GroundUnderSucceedsIff(vars, body, BindingsOf(vars, objs), b, objs);
    case Exists(vars, body) => GroundUnderSucceedsIff(vars, body, BindingsOf(vars, objs), b, objs);
  }

  lemma {:induction false} GroundPartsSucceedIff(parts: seq<GoalDesc>, b: Binding, objs: ObjectIndex)
    ensures (forall i | 0 <= i < |parts| :: Compilable(parts[i], b.Keys)) ==> GroundParts(parts, b, objs).Ok?
    ensures (forall i | 0 <= i < |parts| :: RangesAreInhabited(parts[i], objs)) && GroundParts(parts, b, objs).Ok? ==>
              forall i | 0 <= i < |parts| :: Compilable(parts[i], b.Keys)
    decreases parts, 0, 0
  {
    if parts != [] {
      GroundSucceedsIff(parts[0], b, objs);
      GroundPartsSucceedIff(parts[1..], b, objs);
      hide Compilable, RangesAreInhabited, Ground;
      assert forall i | 1 <= i < |parts| :: parts[i] == parts[1..][i - 1];
      assert forall i | 0 <= i < |parts[1..]| :: parts[1..][i] == parts[i + 1];
    }
  }

  lemma {:induction false} GroundUnderSucceedsIff(
    vars: seq<TypedParam>, body: GoalDesc, extras: seq<Binding>, b: Binding, objs: ObjectIndex)
    requires forall e | e in extras :: e in BindingsOf(vars, objs)
    ensures Compilable(body, b.Keys + BoundBy(vars)) ==> GroundUnder(body, extras, b, objs).Ok?
    ensures RangesAreInhabited(body, objs) && extras != [] && GroundUnder(body, extras, b, objs).Ok? ==>
              Compilable(body, b.Keys + BoundBy(vars))
    decreases body, 1, |extras|
  {
    if extras != [] {
      assert extras[0] in extras && forall e | e in extras[1..] :: e in extras;
      BinderScope(vars, objs, b, extras[0]);
      GroundSucceedsIff(body, b + extras[0], objs);
      GroundUnderSucceedsIff(vars, body, extras[1..], b, objs);
    }
  }

  /** Quantifiers of a goal whose variables are all in scope expand. */
  lemma {:induction false} ExpandSucceeds(g: GoalDesc, b: Binding, objs: ObjectIndex)
    requires GoalInScope(g, b.Keys)
    ensures Expand(g, b, objs).Ok?
    decreases g, 0, 0
  {
    match g
    case Empty =>
    case Atom(a) => TermsInScope(a.args, b);
    case Not(inner) => ExpandSucceeds(inner, b, objs);
    case And(parts) => ExpandPartsSucceed(parts, b, objs);
    case Or(parts) => ExpandPartsSucceed(parts, b, objs);
    case Imply(ante, conseq) =>
      ExpandSucceeds(ante, b, objs);
      ExpandSucceeds(conseq, b, objs);
    case Forall(vars, body) => ExpandUnderSucceeds(vars, body, BindingsOf(vars, objs), b, objs);
    case Exists(vars, body) => ExpandUnderSucceeds(vars, body, BindingsOf(vars, objs), b, objs);
  }

  lemma {:induction false} ExpandPartsSucceed(parts: seq<GoalDesc>, b: Binding, objs: ObjectIndex)
    requires forall i | 0 <= i < |parts| :: GoalInScope(parts[i], b.Keys)
    ensures ExpandParts(parts, b, objs).Ok?
    decreases parts, 0, 0
  {
    if parts != [] {
      ExpandSucceeds(parts[0], b, objs);
      ExpandPartsSucceed(parts[1..], b, objs);
    }
  }

  lemma {:induction false} ExpandUnderSucceeds(
    vars: seq<TypedParam>, body: GoalDesc, extras: seq<Binding>, b: Binding, objs: ObjectIndex)
    requires GoalInScope(body, b.Keys + BoundBy(vars)) && forall e | e in extras :: e in BindingsOf(vars, objs)
    ensures ExpandUnder(body, extras, b, objs).Ok?
    decreases body, 1, |extras|
  {
    if extras != [] {
      assert extras[0] in extras && forall e | e in extras[1..] :: e in extras;
      BinderScope(vars, objs, b, extras[0]);
      ExpandSucceeds(body, b + extras[0], objs);
      ExpandUnderSucceeds(vars, body, extras[1..], b, objs);
    }
  }

  // ---- effects ----

  /** A conjunction of literals. */
  ghost predicate IsFlat(g: GoalDesc) {
    match g
    case Empty => true
    case Atom(_) => true
    case Not(inner) => inner.Atom?
    case And(parts) => forall i | 0 <= i < |parts| :: IsFlat(parts[i])
    case _ => false
  }

  /** A flat condition whose variables are bound. */
  ghost predicate Guards(g: GoalDesc, scope: set<Name>) {
    IsFlat(g) && Compilable(g, scope)
  }

  /** An effect of literals and of conditionals at most two deep with flat conditions; no choices, no numbers. */
  ghost predicate Writable(e: Effect, scope: set<Name>, depth: nat)
    decreases e
  {
    match e
    case NoEffect => true
    case AddLit(a) => ArgsInScope(a.args, scope)
    case DelLit(a) => ArgsInScope(a.args, scope)
    case Both(es) => forall i | 0 <= i < |es| :: Writable(es[i], scope, depth)
    case When(cond, body) => depth < 2 && Guards(cond, scope) && Writable(body, scope, depth + 1)
    case _ => false
  }

  /** The same, or a choice between such effects. */
  ghost predicate Performable(e: Effect, scope: set<Name>) {
    if e.Oneof? then forall i | 0 <= i < |e.effects| :: Writable(e.effects[i], scope, 0) else Writable(e, scope, 0)
  }

  lemma {:induction false} FlattenSucceedsIff(g: GoalDesc, b: Binding)
    ensures Flatten(g, b).Ok? <==> Guards(g, b.Keys)
    decreases g, 0
  {
    match g
    case Atom(a) => AtomCompiles(a, b);
    case Not(inner) =>
      if inner.Atom? {
        AtomCompiles(inner.atom, b);
        assert inner == Atom(inner.atom);
        assert GoalInScope(g, b.Keys) <==> GoalInScope(inner, b.Keys);
        assert EqualitiesAreBinary(g) <==> EqualitiesAreBinary(inner);
      }
    case And(parts) => FlattenPartsSucceedIff(parts, b);
    case _ =>
  }

  lemma {:induction false} FlattenPartsSucceedIff(parts: seq<GoalDesc>, b: Binding)
    ensures FlattenParts(parts, b).Ok? <==> forall i | 0 <= i < |parts| :: Guards(parts[i], b.Keys)
    decreases parts, 0
  {
    if parts != [] {
      FlattenSucceedsIff(parts[0], b);
      FlattenPartsSucceedIff(parts[1..], b);
      hide Guards, Flatten;
      assert forall i | 1 <= i < |parts| :: parts[i] == parts[1..][i - 1];
      assert forall i | 0 <= i < |parts[1..]| :: parts[1..][i] == parts[i + 1];
    }
  }

  lemma {:induction false} WhenBodySucceedsIff(e: Effect, b: Binding, c: Condition, depth: nat)
    requires depth >= 1
    ensures WhenBody(e, b, c, depth).Ok? <==> Writable(e, b.Keys, depth)
    decreases e, 0
  {
    match e
    case AddLit(a) => AtomCompiles(a, b);
    case DelLit(a) => AtomCompiles(a, b);
    case Both(es) => WhenBodyAllSucceedsIff(es, b, c, depth);
    case When(cond, body) =>
      FlattenSucceedsIff(cond, b);
      if depth < 2 && Flatten(cond, b).Ok? {
        WhenBodySucceedsIff(body, b, MergeCondition(c, Flatten(cond, b)).value, depth + 1);
      }
    case _ =>
  }

  lemma {:induction false} WhenBodyAllSucceedsIff(es: seq<Effect>, b: Binding, c: Condition, depth: nat)
    requires depth >= 1
    ensures WhenBodyAll(es, b, c, depth).Ok? <==> forall i | 0 <= i < |es| :: Writable(es[i], b.Keys, depth)
    decreases es, 0
  {
    if es != [] {
      WhenBodySucceedsIff(es[0], b, c, depth);
      WhenBodyAllSucceedsIff(es[1..], b, c, depth);
      hide Writable, WhenBody;
      assert forall i | 1 <= i < |es| :: es[i] == es[1..][i - 1];
      assert forall i | 0 <= i < |es[1..]| :: es[1..][i] == es[i + 1];
    }
  }

  /** An effect compiles to one branch exactly when it is writable. */
  lemma {:induction false} BranchSucceedsIff(e: Effect, b: Binding)
    ensures BranchOf(e, b).Ok? <==> Writable(e, b.Keys, 0)
    decreases e, 0
  {
    match e
    case AddLit(a) => AtomCompiles(a, b);
    case DelLit(a) => AtomCompiles(a, b);
    case Both(es) => BranchAllSucceedsIff(es, b);
    case When(cond, body) =>
      FlattenSucceedsIff(cond, b);
      if Flatten(cond, b).Ok? {
        WhenBodySucceedsIff(body, b, Flatten(cond, b).value, 1);
      }
    case _ =>
  }

  lemma {:induction false} BranchAllSucceedsIff(es: seq<Effect>, b: Binding)
    ensures BranchOfAll(es, b).Ok? <==> forall i | 0 <= i < |es| :: Writable(es[i], b.Keys, 0)
    decreases es, 0
  {
    if es != [] {
      BranchSucceedsIff(es[0], b);
      BranchAllSucceedsIff(es[1..], b);
      hide Writable, BranchOf;
      assert forall i | 1 <= i < |es| :: es[i] == es[1..][i - 1];
      assert forall i | 0 <= i < |es[1..]| :: es[1..][i] == es[i + 1];
    }
  }

  lemma {:induction false} BranchesSucceedIff(es: seq<Effect>, b: Binding)
    ensures BranchesOf(es, b).Ok? <==> forall i | 0 <= i < |es| :: Writable(es[i], b.Keys, 0)
  {
    if es != [] {
      BranchSucceedsIff(es[0], b);
      BranchesSucceedIff(es[1..], b);
      hide Writable, BranchOf;
      assert forall i | 1 <= i < |es| :: es[i] == es[1..][i - 1];
      assert forall i | 0 <= i < |es[1..]| :: es[1..][i] == es[i + 1];
    }
  }

  /** An action's effect compiles exactly when it is performable. */
  lemma OutcomesSucceedIff(e: Effect, b: Binding)
    ensures OutcomesOf(e, b).Ok? <==> Performable(e, b.Keys)
  {
    if e.Oneof? {
      BranchesSucceedIff(e.effects, b);
    } else {
      BranchSucceedsIff(e, b);
    }
  }

  // ---- what a refusal says ----

  ghost predicate ArgsRefused(args: seq<Term>, scope: set<Name>, e: GroundError) {
    exists i :: 0 <= i < |args| && args[i].Var? && args[i].v !in scope && e == UnboundVariable(args[i].v)
  }

  ghost predicate AtomRefused(a: Atomic, scope: set<Name>, e: GroundError) {
    if a.pred == "=" && |a.args| != 2 then e == UnsupportedPrecondition else ArgsRefused(a.args, scope, e)
  }

  /** Somewhere in the goal the variable of `e` stands unbound, or an equality is not binary. */
  ghost predicate GoalRefused(g: GoalDesc, scope: set<Name>, e: GroundError) {
    match g
    case Empty => false
    case Atom(a) => AtomRefused(a, scope, e)
    case Not(inner) => GoalRefused(inner, scope, e)
    case And(parts) => exists i :: 0 <= i < |parts| && GoalRefused(parts[i], scope, e)
    case Or(parts) => exists i :: 0 <= i < |parts| && GoalRefused(parts[i], scope, e)
    case Imply(ante, conseq) => GoalRefused(ante, scope, e) || GoalRefused(conseq, scope, e)
    case Forall(vars, body) => GoalRefused(body, scope + BoundBy(vars), e)
    case Exists(vars, body) => GoalRefused(body, scope + BoundBy(vars), e)
  }

  lemma {:induction false} TermsRefuse(ts: seq<Term>, b: Binding, e: GroundError)
    requires SubstTerms(ts, b) == Err(e)
    ensures ArgsRefused(ts, b.Keys, e)
  {
    if SubstTerm(ts[0], b).Ok? {
      TermsRefuse(ts[1..], b, e);
      var i :| 0 <= i < |ts[1..]| && ts[1..][i].Var? && ts[1..][i].v !in b.Keys && e == UnboundVariable(ts[1..][i].v);
      assert ts[i + 1] == ts[1..][i];
    }
  }

  lemma AtomRefuses(a: Atomic, b: Binding, e: GroundError)
    ensures (if a.pred == "=" then SubstEqArgs(a, b) == Err(e) else SubstAtom(a, b) == Err(e)) ==> AtomRefused(a, b.Keys, e)
  {
    if SubstAtom(a, b) == Err(e) {
      TermsRefuse(a.args, b, e);
    }
  }

  /** A refused goal is refused for a variable that stands unbound in it, or for an equality that is not binary. */
  lemma {:induction false} GroundRefuses(g: GoalDesc, b: Binding, objs: ObjectIndex, e: GroundError)
    requires Ground(g, b, objs) == Err(e)
    ensures GoalRefused(g, b.Keys, e)
    decreases g, 0, 0
  {
    hide BindingsOf, SubstAtom, SubstEqArgs, BoundBy, AtomRefused;
    match g
    case Atom(a) => AtomRefuses(a, b, e);
    case Not(inner) => GroundRefuses(inner, b, objs, e);
    case And(parts) => GroundPartsRefuse(parts, b, objs, e);
    case Or(parts) => GroundPartsRefuse(parts, b, objs, e);
    case Imply(ante, conseq) =>
      if Ground(ante, b, objs).Err? {
        GroundRefuses(ante, b, objs, e);
      } else {
        GroundRefuses(conseq, b, objs, e);
      }
    case Forall(vars, body) => GroundUnderRefuses(vars, body, BindingsOf(vars, objs), b, objs, e);
    case Exists(vars, body) => GroundUnderRefuses(vars, body, BindingsOf(vars, objs), b, objs, e);
  }

  lemma {:induction false} GroundPartsRefuse(parts: seq<GoalDesc>, b: Binding, objs: ObjectIndex, e: GroundError)
    requires GroundParts(parts, b, objs) == Err(e)
    ensures exists i :: 0 <= i < |parts| && GoalRefused(parts[i], b.Keys, e)
    decreases parts, 0, 0
  {
    if Ground(parts[0], b, objs).Err? {
      GroundRefuses(parts[0], b, objs, e);
    } else {
      GroundPartsRefuse(parts[1..], b, objs, e);
      var i :| 0 <= i < |parts[1..]| && GoalRefused(parts[1..][i], b.Keys, e);
      assert parts[i + 1] == parts[1..][i];
    }
  }

  lemma {:induction false} GroundUnderRefuses(
    vars: seq<TypedParam>, body: GoalDesc, extras: seq<Binding>, b: Binding, objs: ObjectIndex, e: GroundError)
    requires (forall x | x in extras :: x in BindingsOf(vars, objs)) && GroundUnder(body, extras, b, objs) == Err(e)
    ensures GoalRefused(body, b.Keys + BoundBy(vars), e)
    decreases body, 1, |extras|
  {
    assert extras[0] in extras && forall x | x in extras[1..] :: x in extras;
    if Ground(body, b + extras[0], objs).Err? {
      BinderScope(vars, objs, b, extras[0]);
      GroundRefuses(body, b + extras[0], objs, e);
    } else {
      GroundUnderRefuses(vars, body, extras[1..], b, objs, e);
    }
  }

  /** Somewhere in the condition stands what `e` complains of: an unbound variable, or anything but a literal. */
  ghost predicate GuardRefused(g: GoalDesc, scope: set<Name>, e: GroundError) {
    match g
    case Empty => false
    case Atom(a) => AtomRefused(a, scope, e)
    case Not(inner) => if inner.Atom? then AtomRefused(inner.atom, scope, e) else e == UnsupportedPrecondition
    case And(parts) => exists i :: 0 <= i < |parts| && GuardRefused(parts[i], scope, e)
    case _ => e == UnsupportedPrecondition
  }

  lemma {:induction false} FlattenRefuses(g: GoalDesc, b: Binding, e: GroundError)
    requires Flatten(g, b) == Err(e)
    ensures GuardRefused(g, b.Keys, e)
    decreases g, 0
  {
    match g
    case Atom(a) => AtomRefuses(a, b, e);
    case Not(inner) =>
      if inner.Atom? {
        AtomRefuses(inner.atom, b, e);
      }
    case And(parts) => FlattenPartsRefuse(parts, b, e);
    case _ =>
  }

  lemma {:induction false} FlattenPartsRefuse(parts: seq<GoalDesc>, b: Binding, e: GroundError)
    requires FlattenParts(parts, b) == Err(e)
    ensures exists i :: 0 <= i < |parts| && GuardRefused(parts[i], b.Keys, e)
    decreases parts, 0
  {
    if Flatten(parts[0], b).Err? {
      FlattenRefuses(parts[0], b, e);
    } else {
      FlattenPartsRefuse(parts[1..], b, e);
      var i :| 0 <= i < |parts[1..]| && GuardRefused(parts[1..][i], b.Keys, e);
      assert parts[i + 1] == parts[1..][i];
    }
  }

  /** Somewhere in the effect, below `depth` conditionals, stands what `err` complains of. */
  ghost predicate EffectRefused(e: Effect, scope: set<Name>, depth: nat, err: GroundError)
    decreases e
  {
    match e
    case NoEffect => false
    case AddLit(a) => ArgsRefused(a.args, scope, err)
    case DelLit(a) => ArgsRefused(a.args, scope, err)
    case Both(es) => exists i :: 0 <= i < |es| && EffectRefused(es[i], scope, depth, err)
    case When(cond, body) =>
      if depth >= 2 then err == UnsupportedPrecondition
      else GuardRefused(cond, scope, err) || EffectRefused(body, scope, depth + 1, err)
    case Oneof(_) => err == UnsupportedPrecondition
    case Increase(f) => err == UnsupportedNumericFluent(f.pred)
    case Decrease(f) => err == UnsupportedNumericFluent(f.pred)
  }

  lemma LiteralRefuses(a: Atomic, b: Binding, err: GroundError)
    requires SubstAtom(a, b) == Err(err)
    ensures ArgsRefused(a.args, b.Keys, err)
  {
    TermsRefuse(a.args, b, err);
  }

  lemma {:induction false} WhenBodyRefuses(e: Effect, b: Binding, c: Condition, depth: nat, err: GroundError)
    requires depth >= 1 && WhenBody(e, b, c, depth) == Err(err)
    ensures EffectRefused(e, b.Keys, depth, err)
    decreases e, 0
  {
    match e
    case AddLit(a) => LiteralRefuses(a, b, err);
    case DelLit(a) => LiteralRefuses(a, b, err);
    case Both(es) => WhenBodyAllRefuses(es, b, c, depth, err);
    case When(cond, body) =>
      if depth < 2 {
        if Flatten(cond, b).Err? {
          FlattenRefuses(cond, b, err);
        } else {
          WhenBodyRefuses(body, b, MergeCondition(c, Flatten(cond, b)).value, depth + 1, err);
        }
      }
    case _ =>
  }

  lemma {:induction false} WhenBodyAllRefuses(es: seq<Effect>, b: Binding, c: Condition, depth: nat, err: GroundError)
    requires depth >= 1 && WhenBodyAll(es, b, c, depth) == Err(err)
    ensures exists i :: 0 <= i < |es| && EffectRefused(es[i], b.Keys, depth, err)
    decreases es, 0
  {
    if WhenBody(es[0], b, c, depth).Err? {
      WhenBodyRefuses(es[0], b, c, depth, err);
    } else {
      WhenBodyAllRefuses(es[1..], b, c, depth, err);
      var i :| 0 <= i < |es[1..]| && EffectRefused(es[1..][i], b.Keys, depth, err);
      assert es[i + 1] == es[1..][i];
    }
  }

  lemma {:induction false} BranchRefuses(e: Effect, b: Binding, err: GroundError)
    requires BranchOf(e, b) == Err(err)
    ensures EffectRefused(e, b.Keys, 0, err)
    decreases e, 0
  {
    match e
    case AddLit(a) => LiteralRefuses(a, b, err);
    case DelLit(a) => LiteralRefuses(a, b, err);
    case Both(es) => BranchAllRefuses(es, b, err);
    case When(cond, body) =>
      if Flatten(cond, b).Err? {
        FlattenRefuses(cond, b, err);
      } else {
        WhenBodyRefuses(body, b, Flatten(cond, b).value, 1, err);
      }
    case _ =>
  }

  lemma {:induction false} BranchAllRefuses(es: seq<Effect>, b: Binding, err: GroundError)
    requires BranchOfAll(es, b) == Err(err)
    ensures exists i :: 0 <= i < |es| && EffectRefused(es[i], b.Keys, 0, err)
    decreases es, 0
  {
    if BranchOf(es[0], b).Err? {
      BranchRefuses(es[0], b, err);
    } else {
      BranchAllRefuses(es[1..], b, err);
      var i :| 0 <= i < |es[1..]| && EffectRefused(es[1..][i], b.Keys, 0, err);
      assert es[i + 1] == es[1..][i];
    }
  }

  /** A refused effect is refused for something that stands in it, or in one of its alternatives. */
  lemma OutcomesRefuse(e: Effect, b: Binding, err: GroundError)
    requires OutcomesOf(e, b) == Err(err)
    ensures var alternatives := if e.Oneof? then e.effects else [e];
            exists i :: 0 <= i < |alternatives| && EffectRefused(alternatives[i], b.Keys, 0, err)
  {
    if e.Oneof? {
      BranchesRefuse(e.effects, b, err);
    } else {
      BranchRefuses(e, b, err);
      assert [e][0] == e;
    }
  }

  lemma {:induction false} BranchesRefuse(es: seq<Effect>, b: Binding, err: GroundError)
    requires BranchesOf(es, b) == Err(err)
    ensures exists i :: 0 <= i < |es| && EffectRefused(es[i], b.Keys, 0, err)
  {
    if BranchOf(es[0], b).Err? {
      BranchRefuses(es[0], b, err);
    } else {
      BranchesRefuse(es[1..], b, err);
      var i :| 0 <= i < |es[1..]| && EffectRefused(es[1..][i], b.Keys, 0, err);
      assert es[i + 1] == es[1..][i];
    }
  }

  // ---- inputs ----

  ghost predicate ActionCompiles(a: ActionDef) {
    Compilable(a.pre, BoundBy(a.params)) && Performable(a.effect, BoundBy(a.params))
  }

  ghost predicate CallsInScope(sts: seq<Subtask>, scope: set<Name>) {
    forall i | 0 <= i < |sts| :: ArgsInScope(sts[i].task.args, scope)
  }

  ghost predicate MethodCompiles(m: MethodDef) {
    && ArgsInScope(m.task.args, BoundBy(m.params)) && CallsInScope(m.network.subtasks, BoundBy(m.params))
    && Compilable(m.pre, BoundBy(m.params)) && Writable(m.effect, BoundBy(m.params), 0)
  }

  ghost predicate ProblemCompiles(p: Problem) {
    && CallsInScope(p.htn.subtasks, BoundBy(p.htn.params)) && GoalInScope(p.goal, {})
    && forall a | a in p.init :: forall t | t in a.args :: t.Const?
  }

  lemma BoundVars(params: seq<TypedParam>, objs: ObjectIndex, b: Binding)
    requires b in BindingsOf(params, objs)
    ensures b.Keys == BoundBy(params)
  {
    BinderScope(params, objs, map[], b);
    hide BindingsOf;
    assert map[] + b == b;
  }

  lemma {:induction false} CallsSucceedIff(sts: seq<Subtask>, b: Binding)
    ensures GroundSubtasks(sts, b).Ok? <==> CallsInScope(sts, b.Keys)
  {
    if sts != [] {
      TermsInScope(sts[0].task.args, b);
      CallsSucceedIff(sts[1..], b);
      hide ArgsInScope, CallName;
      assert CallName(sts[0].task, b).Ok? <==> SubstTerms(sts[0].task.args, b).Ok? by {
        CallSucceedsIff(sts[0].task, b);
      }
      assert forall i | 1 <= i < |sts| :: sts[i] == sts[1..][i - 1];
      assert forall i | 0 <= i < |sts[1..]| :: sts[1..][i] == sts[i + 1];
    }
  }

  lemma CallSucceedsIff(call: TaskCall, b: Binding)
    ensures CallName(call, b).Ok? <==> SubstTerms(call.args, b).Ok?
  {
  }

  lemma ActionsCompile(d: Domain, objs: ObjectIndex)
    requires forall a | a in d.actions :: ActionCompiles(a)
    ensures forall a, b | a in d.actions && b in BindingsOf(a.params, objs) ::
              Ground(a.pre, b, objs).Ok? && OutcomesOf(a.effect, b).Ok?
  {
    hide Compilable, Performable, BindingsOf, Ground, OutcomesOf;
    forall a, b | a in d.actions && b in BindingsOf(a.params, objs)
      ensures Ground(a.pre, b, objs).Ok? && OutcomesOf(a.effect, b).Ok?
    {
      BoundVars(a.params, objs, b);
      GroundSucceedsIff(a.pre, b, objs);
      OutcomesSucceedIff(a.effect, b);
    }
  }

  lemma MethodsCompile(d: Domain, objs: ObjectIndex)
    requires forall m | m in d.methods :: MethodCompiles(m)
    ensures forall m, b | m in d.methods && b in BindingsOf(m.params, objs) ::
              && CallName(m.task, b).Ok? && GroundSubtasks(m.network.subtasks, b).Ok?
              && Ground(m.pre, b, objs).Ok? && BranchOf(m.effect, b).Ok?
  {
    hide Compilable, Writable, BindingsOf, Ground, BranchOf, CallsInScope, ArgsInScope, CallName, GroundSubtasks;
    forall m, b | m in d.methods && b in BindingsOf(m.params, objs)
      ensures CallName(m.task, b).Ok? && GroundSubtasks(m.network.subtasks, b).Ok?
      ensures Ground(m.pre, b, objs).Ok? && BranchOf(m.effect, b).Ok?
    {
      BoundVars(m.params, objs, b);
      TermsInScope(m.task.args, b);
      CallSucceedsIff(m.task, b);
      CallsSucceedIff(m.network.subtasks, b);
      GroundSucceedsIff(m.pre, b, objs);
      BranchSucceedsIff(m.effect, b);
    }
  }

  lemma {:induction false} RootsCompile(net: TaskNetwork, bs: seq<Binding>)
    requires CallsInScope(net.subtasks, BoundBy(net.params)) && forall b | b in bs :: b.Keys == BoundBy(net.params)
    ensures RootNetworksUnder(net, bs).Ok?
  {
    hide CallsInScope, GroundSubtasks;
    if bs != [] {
      assert bs[0] in bs;
      CallsSucceedIff(net.subtasks, bs[0]);
      RootsCompile(net, bs[1..]);
    }
  }

  lemma ProblemGrounds(p: Problem, objs: ObjectIndex)
    requires ProblemCompiles(p)
    ensures RootNetworks(p, objs).Ok? && InitialFacts(p.init).Ok? && Expand(p.goal, map[], objs).Ok?
  {
    InitialFactsAreTheAtoms(p.init);
    hide BindingsOf, CallsInScope, GoalInScope, Expand;
    var none: Binding := map[];
    assert none.Keys == {};
    ExpandSucceeds(p.goal, none, objs);
    forall b | b in BindingsOf(p.htn.params, objs) ensures b.Keys == BoundBy(p.htn.params) {
      BoundVars(p.htn.params, objs, b);
    }
    RootsCompile(p.htn, BindingsOf(p.htn.params, objs));
  }

  /** An input all of whose parts compile grounds exactly when the limits hold its choices of objects. */
  lemma GroundsWithinLimits(d: Domain, p: Problem, objs: ObjectIndex, lim: Limits)
    requires (forall a | a in d.actions :: ActionCompiles(a)) && (forall m | m in d.methods :: MethodCompiles(m))
    requires ProblemCompiles(p)
    ensures GroundsUnpruned(d, p, objs, lim) <==>
              && InstanceCount(ActionParams(d.actions), objs) <= lim.maxActions
              && InstanceCount(MethodParams(d.methods), objs) <= lim.maxMethods
  {
    hide ActionCompiles, MethodCompiles, ProblemCompiles, BindingsOf, Ground, OutcomesOf, BranchOf, CallName, GroundSubtasks,
         FullActions, FullMethods, RootNetworks, InitialFacts, Expand;
    ActionsCompile(d, objs);
    MethodsCompile(d, objs);
    ProblemGrounds(p, objs);
    FullActionsIff(d, objs, lim.maxActions);
    FullMethodsIff(d, objs, lim.maxMethods);
  }

  // ---- accepted inputs ----

  lemma {:induction false} DeclaredEqualities(d: Domain, g: GoalDesc)
    requires forall a | a in AtomsOf(g) :: AtomDeclared(d, a)
    ensures EqualitiesAreBinary(g)
    decreases g, 1
  {
    match g
    case Empty =>
    case Atom(a) => assert a in AtomsOf(g);
    case Not(inner) => DeclaredEqualities(d, inner);
    case And(parts) => DeclaredParts(d, parts, g);
    case Or(parts) => DeclaredParts(d, parts, g);
    case Imply(ante, conseq) =>
      DeclaredEqualities(d, ante);
      DeclaredEqualities(d, conseq);
    case Forall(_, body) => DeclaredEqualities(d, body);
    case Exists(_, body) => DeclaredEqualities(d, body);
  }

  lemma {:induction false} DeclaredParts(d: Domain, parts: seq<GoalDesc>, g: GoalDesc)
    requires (g == And(parts) || g == Or(parts)) && forall a | a in AtomsOf(g) :: AtomDeclared(d, a)
    ensures forall i | 0 <= i < |parts| :: EqualitiesAreBinary(parts[i])
    decreases g, 0
  {
    forall i | 0 <= i < |parts| ensures EqualitiesAreBinary(parts[i]) {
      forall a | a in AtomsOf(parts[i]) ensures a in AtomsOf(g) {
      }
      DeclaredEqualities(d, parts[i]);
    }
  }

  lemma {:induction false} ScopeIsBound(params: seq<TypedParam>)
    ensures Scope(params).Keys == BoundBy(params)
  {
    if params != [] {
      var n := |params| - 1;
      ScopeIsBound(params[..n]);
      assert BoundBy(params) == BoundBy(params[..n]) + {params[n].v};
    }
  }

  lemma FittingCallsInScope(d: Domain, params: seq<TypedParam>, sts: seq<Subtask>)
    requires forall st | st in sts :: SubtaskFits(d, Scope(params), st)
    ensures CallsInScope(sts, BoundBy(params))
  {
    ScopeIsBound(params);
    hide Scope;
    forall i | 0 <= i < |sts| ensures ArgsInScope(sts[i].task.args, BoundBy(params)) {
      assert sts[i] in sts;
      FittingArgs(d, Scope(params), sts[i]);
    }
  }

  lemma FittingArgs(d: Domain, scope: map<Name, Name>, st: Subtask)
    requires SubtaskFits(d, scope, st)
    ensures ArgsInScope(st.task.args, scope.Keys)
  {
  }

  lemma AcceptedMethodCompiles(d: Domain, p: Problem, m: MethodDef)
    requires Accepted(d, p) && m in d.methods && Writable(m.effect, BoundBy(m.params), 0)
    ensures MethodCompiles(m)
  {
    assert MethodFits(d, m);
    ScopeIsBound(m.params);
    FittingCallsInScope(d, m.params, m.network.subtasks);
    assert forall a | a in AtomsOf(m.pre) :: a in AtomsOf(m.pre) + EffectAtoms(m.effect);
    DeclaredEqualities(d, m.pre);
    hide Accepted, SubtaskFits, ValidOrder, AtomDeclared, Writable, EffectInScope;
  }

  lemma AcceptedRootCompiles(d: Domain, p: Problem)
    requires Accepted(d, p) && GoalInScope(p.goal, {})
    ensures ProblemCompiles(p)
  {
    assert ProblemAccepted(d, p);
    hide Accepted, DomainAccepted, SubtaskFits, ValidOrder, AtomDeclared, ConstantsFit, GoalInScope;
    assert forall st | st in p.htn.subtasks :: SubtaskFits(d, Scope(p.htn.params), st);
    FittingCallsInScope(d, p.htn.params, p.htn.subtasks);
  }

  /**
   * An accepted input whose actions are closed and performable, whose method effects are writable and
   * whose goal is closed grounds without pruning exactly when the limits hold its choices of objects.
   */
  lemma AcceptedInputGrounds(d: Domain, p: Problem, objs: ObjectIndex, lim: Limits)
    requires Accepted(d, p) && GoalInScope(p.goal, {}) && forall a | a in d.actions :: ActionCompiles(a)
    requires forall m | m in d.methods :: Writable(m.effect, BoundBy(m.params), 0)
    ensures GroundsUnpruned(d, p, objs, lim) <==>
              && InstanceCount(ActionParams(d.actions), objs) <= lim.maxActions
              && InstanceCount(MethodParams(d.methods), objs) <= lim.maxMethods
  {
    hide *;
    forall m | m in d.methods ensures MethodCompiles(m) {
      AcceptedMethodCompiles(d, p, m);
    }
    AcceptedRootCompiles(d, p);
    GroundsWithinLimits(d, p, objs, lim);
  }
}
