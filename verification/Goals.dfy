// Goal descriptions: grounding, quantifier expansion, budgeted evaluation, and what they mean.
module Goals {
  import opened Prelude
  import opened HddlAst
  import opened Names
  import opened Bindings

  /** A goal with every term replaced by an object name. */
  datatype GroundGoal =
    | GEmpty
    | GAtom(key: string)
    | GEq(x: Name, y: Name)
    | GNot(inner: GroundGoal)
    | GAnd(parts: seq<GroundGoal>)
    | GOr(parts: seq<GroundGoal>)

  // ---- substitution ----

  function SubstTerm(t: Term, b: Binding): Result<Name, GroundError> {
    match t
    case Const(c) => Ok(c)
    case Var(v) => if v in b then Ok(b[v]) else Err(UnboundVariable(v))
  }

  function SubstTerms(ts: seq<Term>, b: Binding): Result<seq<Name>, GroundError> {
    if ts == [] then Ok([])
    else
      var x :- SubstTerm(ts[0], b);
      var xs :- SubstTerms(ts[1..], b);
      Ok([x] + xs)
  }

  function SubstAtom(a: Atomic, b: Binding): Result<string, GroundError> {
    var args :- SubstTerms(a.args, b);
    Ok(AtomKey(a.pred, args))
  }

  /** The two sides of a built-in equality; any other arity is refused before substituting. */
  function SubstEqArgs(a: Atomic, b: Binding): Result<(Name, Name), GroundError> {
    if |a.args| != 2 then Err(UnsupportedPrecondition)
    else
      var x :- SubstTerm(a.args[0], b);
      var y :- SubstTerm(a.args[1], b);
      Ok((x, y))
  }

  function ConstTerms(args: seq<Name>): seq<Term> {
    seq(|args|, i requires 0 <= i < |args| => Const(args[i]))
  }

  function SubstAtomAst(a: Atomic, b: Binding): Result<Atomic, GroundError> {
    var args :- SubstTerms(a.args, b);
    Ok(Atomic(a.pred, ConstTerms(args)))
  }

  // ---- grounding ----

  function Ground(g: GoalDesc, b: Binding, objs: ObjectIndex): Result<GroundGoal, GroundError>
    decreases g, 0, 0
  {
    match g
    case Empty => Ok(GEmpty)
    case Atom(a) =>
      if a.pred == "=" then
        var xy :- SubstEqArgs(a, b);
        Ok(GEq(xy.0, xy.1))
      else
        var k :- SubstAtom(a, b);
        Ok(GAtom(k))
    case Not(inner) =>
      var i :- Ground(inner, b, objs);
      Ok(GNot(i))
    case And(parts) =>
      var ps :- GroundParts(parts, b, objs);
      Ok(GAnd(ps))
    case Or(parts) =>
      var ps :- GroundParts(parts, b, objs);
      Ok(GOr(ps))
    case Imply(ante, conseq) =>
      var a :- Ground(ante, b, objs);
      var c :- Ground(conseq, b, objs);
      Ok(GOr([GNot(a), c]))
    case Forall(vars, body) =>
      var ps :- GroundUnder(body, BindingsOf(vars, objs), b, objs);
      Ok(GAnd(ps))
    case Exists(vars, body) =>
      var ps :- GroundUnder(body, BindingsOf(vars, objs), b, objs);
      Ok(GOr(ps))
  }

  function GroundParts(parts: seq<GoalDesc>, b: Binding, objs: ObjectIndex): Result<seq<GroundGoal>, GroundError>
    decreases parts, 0, 0
  {
    if parts == [] then Ok([])
    else
      var p :- Ground(parts[0], b, objs);
      var ps :- GroundParts(parts[1..], b, objs);
      Ok([p] + ps)
  }

  /** `body` grounded under every extension of `b`; an extension overrides `b`. */
  function GroundUnder(body: GoalDesc, extras: seq<Binding>, b: Binding, objs: ObjectIndex)
    : Result<seq<GroundGoal>, GroundError>
    decreases body, 1, |extras|
  {
    if extras == [] then Ok([])
    else
      var p :- Ground(body, b + extras[0], objs);
      var ps :- GroundUnder(body, extras[1..], b, objs);
      Ok([p] + ps)
  }

  lemma {:induction false} GroundPartAt(parts: seq<GoalDesc>, b: Binding, objs: ObjectIndex, i: nat)
    requires i < |parts| && GroundParts(parts, b, objs).Ok?
    ensures |GroundParts(parts, b, objs).value| == |parts|
    ensures Ground(parts[i], b, objs) == Ok(GroundParts(parts, b, objs).value[i])
  {
    if i > 0 {
      GroundPartAt(parts[1..], b, objs, i - 1);
    } else if |parts| > 1 {
      GroundPartAt(parts[1..], b, objs, 0);
    }
  }

  lemma {:induction false} GroundUnderAt(
    body: GoalDesc, extras: seq<Binding>, b: Binding, objs: ObjectIndex, i: nat)
    requires i < |extras| && GroundUnder(body, extras, b, objs).Ok?
    ensures |GroundUnder(body, extras, b, objs).value| == |extras|
    ensures Ground(body, b + extras[i], objs) == Ok(GroundUnder(body, extras, b, objs).value[i])
    decreases |extras|
  {
    if i > 0 {
      GroundUnderAt(body, extras[1..], b, objs, i - 1);
    } else if |extras| > 1 {
      GroundUnderAt(body, extras[1..], b, objs, 0);
    }
  }

  /** Connectives ground part by part, quantifiers binding by binding, in order. */
  lemma GroundedPart(g: GoalDesc, b: Binding, objs: ObjectIndex, i: nat)
    requires Ground(g, b, objs).Ok?
    ensures var r := Ground(g, b, objs).value;
            match g
            case And(parts) =>
              r.GAnd? && (i < |parts| ==> |r.parts| == |parts| && Ground(parts[i], b, objs) == Ok(r.parts[i]))
            case Or(parts) =>
              r.GOr? && (i < |parts| ==> |r.parts| == |parts| && Ground(parts[i], b, objs) == Ok(r.parts[i]))
            case Forall(vars, body) =>
              var bs := BindingsOf(vars, objs);
              r.GAnd? && (i < |bs| ==> |r.parts| == |bs| && Ground(body, b + bs[i], objs) == Ok(r.parts[i]))
            case Exists(vars, body) =>
              var bs := BindingsOf(vars, objs);
              r.GOr? && (i < |bs| ==> |r.parts| == |bs| && Ground(body, b + bs[i], objs) == Ok(r.parts[i]))
            case _ => true
  {
    hide BindingsOf;
    match g
    case And(parts) =>
      if i < |parts| {
        GroundPartAt(parts, b, objs, i);
      }
    case Or(parts) =>
      if i < |parts| {
        GroundPartAt(parts, b, objs, i);
      }
    case Forall(vars, body) =>
      if i < |BindingsOf(vars, objs)| {
        GroundUnderAt(body, BindingsOf(vars, objs), b, objs, i);
      }
    case Exists(vars, body) =>
      if i < |BindingsOf(vars, objs)| {
        GroundUnderAt(body, BindingsOf(vars, objs), b, objs, i);
      }
    case _ =>
  }

  // ---- quantifier expansion of the problem goal ----

  function Expand(g: GoalDesc, b: Binding, objs: ObjectIndex): Result<GoalDesc, GroundError>
    decreases g, 0, 0
  {
    match g
    case Empty => Ok(Empty)
    case Atom(a) =>
      var a' :- SubstAtomAst(a, b);
      Ok(Atom(a'))
    case Not(inner) =>
      var i :- Expand(inner, b, objs);
      Ok(Not(i))
    case And(parts) =>
      var ps :- ExpandParts(parts, b, objs);
      Ok(And(ps))
    case Or(parts) =>
      var ps :- ExpandParts(parts, b, objs);
      Ok(Or(ps))
    case Imply(ante, conseq) =>
      var a :- Expand(ante, b, objs);
      var c :- Expand(conseq, b, objs);
      Ok(Imply(a, c))
    case Forall(vars, body) =>
      var ps :- ExpandUnder(body, BindingsOf(vars, objs), b, objs);
      Ok(And(ps))
    case Exists(vars, body) =>
      var ps :- ExpandUnder(body, BindingsOf(vars, objs), b, objs);
      Ok(Or(ps))
  }

  function ExpandParts(parts: seq<GoalDesc>, b: Binding, objs: ObjectIndex): Result<seq<GoalDesc>, GroundError>
    decreases parts, 0, 0
  {
    if parts == [] then Ok([])
    else
      var p :- Expand(parts[0], b, objs);
      var ps :- ExpandParts(parts[1..], b, objs);
      Ok([p] + ps)
  }

  function ExpandUnder(body: GoalDesc, extras: seq<Binding>, b: Binding, objs: ObjectIndex)
    : Result<seq<GoalDesc>, GroundError>
    decreases body, 1, |extras|
  {
    if extras == [] then Ok([])
    else
      var p :- Expand(body, b + extras[0], objs);
      var ps :- ExpandUnder(body, extras[1..], b, objs);
      Ok([p] + ps)
  }

  // ---- budgeted evaluation ----

  const DEFAULT_MAX_GOAL_DEPTH: nat := 256

  function EvalAt(g: GroundGoal, facts: set<string>, depth: nat, budget: nat): Result<bool, GroundError>
    decreases g, 1
  {
    if depth > budget then Err(GoalTooDeep(depth, budget))
    else match g
      case GEmpty => Ok(true)
      case GAtom(k) => Ok(k in facts)
      case GEq(x, y) => Ok(x == y)
      case GNot(inner) =>
        var v :- EvalAt(inner, facts, depth + 1, budget);
        Ok(!v)
      case GAnd(parts) => EvalAnd(parts, facts, depth + 1, budget)
      case GOr(parts) => EvalOr(parts, facts, depth + 1, budget)
  }

  function EvalAnd(parts: seq<GroundGoal>, facts: set<string>, depth: nat, budget: nat): Result<bool, GroundError>
    decreases parts, 0
  {
    if parts == [] then Ok(true)
    else
      var v :- EvalAt(parts[0], facts, depth, budget);
      if !v then Ok(false) else EvalAnd(parts[1..], facts, depth, budget)
  }

  function EvalOr(parts: seq<GroundGoal>, facts: set<string>, depth: nat, budget: nat): Result<bool, GroundError>
    decreases parts, 0
  {
    if parts == [] then Ok(false)
    else
      var v :- EvalAt(parts[0], facts, depth, budget);
      if v then Ok(true) else EvalOr(parts[1..], facts, depth, budget)
  }

  function EvalWithBudget(g: GroundGoal, facts: set<string>, budget: nat): Result<bool, GroundError> {
    EvalAt(g, facts, 1, budget)
  }

  function Eval(g: GroundGoal, facts: set<string>): Result<bool, GroundError> {
    EvalWithBudget(g, facts, DEFAULT_MAX_GOAL_DEPTH)
  }

  /** The truth value of a ground goal, with no depth limit. */
  ghost predicate Truth(g: GroundGoal, facts: set<string>) {
    match g
    case GEmpty => true
    case GAtom(k) => k in facts
    case GEq(x, y) => x == y
    case GNot(inner) => !Truth(inner, facts)
    case GAnd(parts) => forall i | 0 <= i < |parts| :: Truth(parts[i], facts)
    case GOr(parts) => exists i :: 0 <= i < |parts| && Truth(parts[i], facts)
  }

  /** `h` bounds the number of levels of `g`, leaves counting one. */
  ghost predicate HeightAtMost(g: GroundGoal, h: int)
    decreases g
  {
    h >= 1 &&
    match g
    case GNot(inner) => HeightAtMost(inner, h - 1)
    case GAnd(parts) => forall i | 0 <= i < |parts| :: HeightAtMost(parts[i], h - 1)
    case GOr(parts) => forall i | 0 <= i < |parts| :: HeightAtMost(parts[i], h - 1)
    case _ => true
  }

  /** An answer is the truth value, and the only refusal is one level past the budget. */
  lemma {:induction false} EvalFaithful(g: GroundGoal, facts: set<string>, depth: nat, budget: nat)
    requires depth <= budget + 1
    ensures match EvalAt(g, facts, depth, budget)
            case Ok(v) => v == Truth(g, facts)
            case Err(e) => e == GoalTooDeep(budget + 1, budget)
    decreases g
  {
    if depth <= budget {
      match g
      case GNot(inner) => EvalFaithful(inner, facts, depth + 1, budget);
      case GAnd(parts) => EvalAndFaithful(parts, facts, depth + 1, budget);
      case GOr(parts) => EvalOrFaithful(parts, facts, depth + 1, budget);
      case _ =>
    }
  }

  lemma {:induction false} EvalAndFaithful(parts: seq<GroundGoal>, facts: set<string>, depth: nat, budget: nat)
    requires depth <= budget + 1
    ensures match EvalAnd(parts, facts, depth, budget)
            case Ok(v) => v == forall i | 0 <= i < |parts| :: Truth(parts[i], facts)
            case Err(e) => e == GoalTooDeep(budget + 1, budget)
    decreases parts
  {
    if parts != [] {
      EvalFaithful(parts[0], facts, depth, budget);
      EvalAndFaithful(parts[1..], facts, depth, budget);
      assert forall i | 1 <= i < |parts| :: parts[i] == parts[1..][i - 1];
    }
  }

  lemma {:induction false} EvalOrFaithful(parts: seq<GroundGoal>, facts: set<string>, depth: nat, budget: nat)
    requires depth <= budget + 1
    ensures match EvalOr(parts, facts, depth, budget)
            case Ok(v) => v == exists i :: 0 <= i < |parts| && Truth(parts[i], facts)
            case Err(e) => e == GoalTooDeep(budget + 1, budget)
    decreases parts
  {
    if parts != [] {
      EvalFaithful(parts[0], facts, depth, budget);
      EvalOrFaithful(parts[1..], facts, depth, budget);
      assert forall i | 1 <= i < |parts| :: parts[i] == parts[1..][i - 1];
    }
  }

  /** A tree no higher than what is left of the budget is always answered. */
  lemma {:induction false} EvalTotal(g: GroundGoal, facts: set<string>, depth: nat, budget: nat)
    requires HeightAtMost(g, budget + 1 - depth)
    ensures EvalAt(g, facts, depth, budget).Ok?
    decreases g
  {
    match g
    case GNot(inner) => EvalTotal(inner, facts, depth + 1, budget);
    case GAnd(parts) => EvalPartsTotal(parts, facts, depth + 1, budget);
    case GOr(parts) => EvalPartsTotal(parts, facts, depth + 1, budget);
    case _ =>
  }

  lemma {:induction false} EvalPartsTotal(parts: seq<GroundGoal>, facts: set<string>, depth: nat, budget: nat)
    requires forall i | 0 <= i < |parts| :: HeightAtMost(parts[i], budget + 1 - depth)
    ensures EvalAnd(parts, facts, depth, budget).Ok? && EvalOr(parts, facts, depth, budget).Ok?
    decreases parts
  {
    if parts != [] {
      EvalTotal(parts[0], facts, depth, budget);
      EvalPartsTotal(parts[1..], facts, depth, budget);
    }
  }

  /** A larger budget never changes an answer, also where short-circuiting skipped over-deep parts. */
  lemma {:induction false} EvalBudgetMonotone(
    g: GroundGoal, facts: set<string>, depth: nat, small: nat, large: nat)
    requires small <= large
    ensures EvalAt(g, facts, depth, small).Ok? ==>
              EvalAt(g, facts, depth, large) == EvalAt(g, facts, depth, small)
    decreases g
  {
    if depth <= small {
      match g
      case GNot(inner) => EvalBudgetMonotone(inner, facts, depth + 1, small, large);
      case GAnd(parts) => EvalPartsBudgetMonotone(parts, facts, depth + 1, small, large);
      case GOr(parts) => EvalPartsBudgetMonotone(parts, facts, depth + 1, small, large);
      case _ =>
    }
  }

  lemma {:induction false} EvalPartsBudgetMonotone(
    parts: seq<GroundGoal>, facts: set<string>, depth: nat, small: nat, large: nat)
    requires small <= large
    ensures EvalAnd(parts, facts, depth, small).Ok? ==>
              EvalAnd(parts, facts, depth, large) == EvalAnd(parts, facts, depth, small)
    ensures EvalOr(parts, facts, depth, small).Ok? ==>
              EvalOr(parts, facts, depth, large) == EvalOr(parts, facts, depth, small)
    decreases parts
  {
    if parts != [] {
      EvalBudgetMonotone(parts[0], facts, depth, small, large);
      EvalPartsBudgetMonotone(parts[1..], facts, depth, small, large);
    }
  }

  /** The budgeted evaluator is a faithful partial evaluator. */
  lemma BudgetedEvaluation(g: GroundGoal, facts: set<string>, budget: nat, larger: nat)
    requires budget <= larger
    ensures match EvalWithBudget(g, facts, budget)
            case Ok(v) => v == Truth(g, facts) && EvalWithBudget(g, facts, larger) == Ok(v)
            case Err(e) => e == GoalTooDeep(budget + 1, budget) && !HeightAtMost(g, budget)
  {
    EvalFaithful(g, facts, 1, budget);
    EvalBudgetMonotone(g, facts, 1, budget, larger);
    if HeightAtMost(g, budget) {
      EvalTotal(g, facts, 1, budget);
    }
  }

  // ---- how deep a written goal grounds ----

  /** `h` bounds the nesting of the goal's lists as written, the outermost counting one. */
  ghost predicate NestedAtMost(g: GoalDesc, h: int)
    decreases g
  {
    h >= 1 &&
    match g
    case Not(inner) => NestedAtMost(inner, h - 1)
    case And(parts) => forall i | 0 <= i < |parts| :: NestedAtMost(parts[i], h - 1)
    case Or(parts) => forall i | 0 <= i < |parts| :: NestedAtMost(parts[i], h - 1)
    case Imply(ante, conseq) => NestedAtMost(ante, h - 1) && NestedAtMost(conseq, h - 1)
    case Forall(_, body) => NestedAtMost(body, h - 1)
    case Exists(_, body) => NestedAtMost(body, h - 1)
    case _ => true
  }

  /** `k` bounds the goal's levels if each antecedent counts twice. */
  ghost predicate LevelsAtMost(g: GoalDesc, k: int)
    decreases g
  {
    k >= 1 &&
    match g
    case Not(inner) => LevelsAtMost(inner, k - 1)
    case And(parts) => forall i | 0 <= i < |parts| :: LevelsAtMost(parts[i], k - 1)
    case Or(parts) => forall i | 0 <= i < |parts| :: LevelsAtMost(parts[i], k - 1)
    case Imply(ante, conseq) => LevelsAtMost(ante, k - 2) && LevelsAtMost(conseq, k - 1)
    case Forall(_, body) => LevelsAtMost(body, k - 1)
    case Exists(_, body) => LevelsAtMost(body, k - 1)
    case _ => true
  }

  /** Grounding keeps the levels, quantifiers included; an antecedent goes under a disjunction and a negation. */
  lemma {:induction false} GroundedLevels(g: GoalDesc, k: int, b: Binding, objs: ObjectIndex)
    requires LevelsAtMost(g, k) && Ground(g, b, objs).Ok?
    ensures HeightAtMost(Ground(g, b, objs).value, k)
    decreases g, 0, 0
  {
    match g
    case Empty =>
    case Atom(_) =>
    case Not(inner) => GroundedLevels(inner, k - 1, b, objs);
    case And(parts) => GroundedPartsLevels(parts, k - 1, b, objs);
    case Or(parts) => GroundedPartsLevels(parts, k - 1, b, objs);
    case Imply(ante, conseq) =>
      GroundedLevels(ante, k - 2, b, objs);
      GroundedLevels(conseq, k - 1, b, objs);
    case Forall(vars, body) => GroundedUnderLevels(body, k - 1, BindingsOf(vars, objs), b, objs);
    case Exists(vars, body) => GroundedUnderLevels(body, k - 1, BindingsOf(vars, objs), b, objs);
  }

  lemma {:induction false} GroundedPartsLevels(parts: seq<GoalDesc>, k: int, b: Binding, objs: ObjectIndex)
    requires (forall i | 0 <= i < |parts| :: LevelsAtMost(parts[i], k)) && GroundParts(parts, b, objs).Ok?
    ensures var gs := GroundParts(parts, b, objs).value; forall i | 0 <= i < |gs| :: HeightAtMost(gs[i], k)
    decreases parts, 0, 0
  {
    if parts != [] {
      GroundedLevels(parts[0], k, b, objs);
      GroundedPartsLevels(parts[1..], k, b, objs);
    }
  }

  lemma {:induction false} GroundedUnderLevels(
    body: GoalDesc, k: int, extras: seq<Binding>, b: Binding, objs: ObjectIndex)
    requires LevelsAtMost(body, k) && GroundUnder(body, extras, b, objs).Ok?
    ensures var gs := GroundUnder(body, extras, b, objs).value; forall i | 0 <= i < |gs| :: HeightAtMost(gs[i], k)
    decreases body, 1, |extras|
  {
    if extras != [] {
      GroundedLevels(body, k, b + extras[0], objs);
      GroundedUnderLevels(body, k, extras[1..], b, objs);
    }
  }

  lemma {:induction false} MoreLevels(g: GoalDesc, k: int, l: int)
    requires LevelsAtMost(g, k) && k <= l
    ensures LevelsAtMost(g, l)
  {
    match g
    case Empty =>
    case Atom(_) =>
    case Not(inner) => MoreLevels(inner, k - 1, l - 1);
    case And(parts) =>
      forall i | 0 <= i < |parts| {
        MoreLevels(parts[i], k - 1, l - 1);
      }
    case Or(parts) =>
      forall i | 0 <= i < |parts| {
        MoreLevels(parts[i], k - 1, l - 1);
      }
    case Imply(ante, conseq) =>
      MoreLevels(ante, k - 2, l - 2);
      MoreLevels(conseq, k - 1, l - 1);
    case Forall(_, body) => MoreLevels(body, k - 1, l - 1);
    case Exists(_, body) => MoreLevels(body, k - 1, l - 1);
  }

  /** At worst every list is an implication nested in an antecedent. */
  lemma {:induction false} NestedLevels(g: GoalDesc, h: int)
    requires NestedAtMost(g, h)
    ensures LevelsAtMost(g, 2 * h - 1)
  {
    match g
    case Empty =>
    case Atom(_) =>
    case Not(inner) =>
      NestedLevels(inner, h - 1);
      MoreLevels(inner, 2 * h - 3, 2 * h - 2);
    case And(parts) => NestedPartsLevels(g, parts, h);
    case Or(parts) => NestedPartsLevels(g, parts, h);
    case Imply(ante, conseq) =>
      NestedLevels(ante, h - 1);
      NestedLevels(conseq, h - 1);
      MoreLevels(conseq, 2 * h - 3, 2 * h - 2);
    case Forall(_, body) =>
      NestedLevels(body, h - 1);
      MoreLevels(body, 2 * h - 3, 2 * h - 2);
    case Exists(_, body) =>
      NestedLevels(body, h - 1);
      MoreLevels(body, 2 * h - 3, 2 * h - 2);
  }

  lemma {:induction false} NestedPartsLevels(g: GoalDesc, parts: seq<GoalDesc>, h: int)
    requires (g == And(parts) || g == Or(parts)) && forall i | 0 <= i < |parts| :: NestedAtMost(parts[i], h - 1)
    ensures forall i | 0 <= i < |parts| :: LevelsAtMost(parts[i], 2 * h - 2)
    decreases g, 0
  {
    forall i | 0 <= i < |parts| ensures LevelsAtMost(parts[i], 2 * h - 2) {
      NestedLevels(parts[i], h - 1);
      MoreLevels(parts[i], 2 * h - 3, 2 * h - 2);
    }
  }

  /** Implications, each in the antecedent of the next. */
  function Antecedents(h: nat): GoalDesc
    requires h >= 1
  {
    if h == 1 then Empty else Imply(Antecedents(h - 1), Empty)
  }

  lemma AntecedentsGround(h: nat)
    requires h > 1 && Ground(Antecedents(h - 1), map[], map[]).Ok?
    ensures Ground(Antecedents(h), map[], map[]) == Ok(GOr([GNot(Ground(Antecedents(h - 1), map[], map[]).value), GEmpty]))
  {
  }

  lemma ImplicationRefused(ante: GroundGoal, facts: set<string>, depth: nat, budget: nat)
    requires EvalAt(ante, facts, depth + 2, budget).Err?
    ensures EvalAt(GOr([GNot(ante), GEmpty]), facts, depth, budget).Err?
  {
    var parts := [GNot(ante), GEmpty];
    assert EvalAt(parts[0], facts, depth + 1, budget).Err?;
  }

  lemma {:induction false} AntecedentsRefused(h: nat, facts: set<string>, depth: nat, budget: nat)
    requires h >= 1 && depth + 2 * (h - 1) > budget
    ensures Ground(Antecedents(h), map[], map[]).Ok?
    ensures EvalAt(Ground(Antecedents(h), map[], map[]).value, facts, depth, budget).Err?
    decreases h
  {
    if h > 1 {
      hide *;
      AntecedentsRefused(h - 1, facts, depth + 2, budget);
      AntecedentsGround(h);
      ImplicationRefused(Ground(Antecedents(h - 1), map[], map[]).value, facts, depth, budget);
    }
  }

  lemma {:induction false} AntecedentsNested(h: nat)
    requires h >= 1
    ensures NestedAtMost(Antecedents(h), h)
  {
    if h > 1 {
      AntecedentsNested(h - 1);
    }
  }

  /** Every goal nested at most `h` lists deep is answered, once ground, within the budget. */
  ghost predicate AlwaysAnswered(h: nat, budget: nat) {
    forall g: GoalDesc, b: Binding, objs: ObjectIndex, facts: set<string> |
      NestedAtMost(g, h) && Ground(g, b, objs).Ok? ::
      EvalWithBudget(Ground(g, b, objs).value, facts, budget).Ok?
  }

  /** A budget is enough for everything written up to some nesting exactly when it is almost twice that nesting. */
  lemma AlwaysAnsweredIff(h: nat, budget: nat)
    requires h >= 1
    ensures AlwaysAnswered(h, budget) <==> 2 * h - 1 <= budget
  {
    if 2 * h - 1 <= budget {
      forall g: GoalDesc, b: Binding, objs: ObjectIndex, facts: set<string> | NestedAtMost(g, h) && Ground(g, b, objs).Ok?
        ensures EvalWithBudget(Ground(g, b, objs).value, facts, budget).Ok?
      {
        NestedLevels(g, h);
        MoreLevels(g, 2 * h - 1, budget);
        GroundedLevels(g, budget, b, objs);
        EvalTotal(Ground(g, b, objs).value, facts, 1, budget);
      }
    } else {
      AntecedentsNested(h);
      AntecedentsRefused(h, {}, 1, budget);
      assert EvalWithBudget(Ground(Antecedents(h), map[], map[]).value, {}, budget).Err?;
    }
  }

  // ---- the meaning of a lifted goal over a structured state ----

  datatype GroundAtom = GroundAtom(pred: Name, args: seq<Name>)

  /** A state as the fact strings the planner keeps. */
  function FactsOf(s: set<GroundAtom>): set<string> {
    set a | a in s :: AtomKey(a.pred, a.args)
  }

  function Denotation(t: Term, b: Binding): Name {
    match t
    case Const(c) => c
    case Var(v) => if v in b then b[v] else ""
  }

  function Denotations(ts: seq<Term>, b: Binding): seq<Name> {
    seq(|ts|, i requires 0 <= i < |ts| => Denotation(ts[i], b))
  }

  /** Truth of a lifted goal: `=` compares objects, `imply` is material, binders range one at a time. */
  ghost predicate Holds(g: GoalDesc, b: Binding, objs: ObjectIndex, s: set<GroundAtom>)
    decreases g, 0, 0
  {
    match g
    case Empty => true
    case Atom(a) =>
      if a.pred == "=" then |a.args| == 2 && Denotation(a.args[0], b) == Denotation(a.args[1], b)
      else GroundAtom(a.pred, Denotations(a.args, b)) in s
    case Not(inner) => !Holds(inner, b, objs, s)
    case And(parts) => forall i | 0 <= i < |parts| :: Holds(parts[i], b, objs, s)
    case Or(parts) => exists i :: 0 <= i < |parts| && Holds(parts[i], b, objs, s)
    case Imply(ante, conseq) => Holds(ante, b, objs, s) ==> Holds(conseq, b, objs, s)
    case Forall(vars, body) => HoldsForall(vars, body, b, objs, s)
    case Exists(vars, body) => HoldsExists(vars, body, b, objs, s)
  }

  /** For every object of the first binder's type, with it bound (shadowing any namesake), and so on. */
  ghost predicate HoldsForall(
    vars: seq<TypedParam>, body: GoalDesc, b: Binding, objs: ObjectIndex, s: set<GroundAtom>)
    decreases body, 1, |vars|
  {
    if vars == [] then Holds(body, b, objs, s)
    else forall o | o in ObjectsOf(objs, vars[0].ty) :: HoldsForall(vars[1..], body, b[vars[0].v := o], objs, s)
  }

  ghost predicate HoldsExists(
    vars: seq<TypedParam>, body: GoalDesc, b: Binding, objs: ObjectIndex, s: set<GroundAtom>)
    decreases body, 1, |vars|
  {
    if vars == [] then Holds(body, b, objs, s)
    else exists o | o in ObjectsOf(objs, vars[0].ty) :: HoldsExists(vars[1..], body, b[vars[0].v := o], objs, s)
  }

  // ---- names that the key format can tell apart ----

  predicate CleanTerm(t: Term) {
    t.Const? ==> ',' !in t.c
  }

  predicate CleanAtom(a: Atomic) {
    '(' !in a.pred && forall t | t in a.args :: CleanTerm(t)
  }

  ghost predicate CleanGoal(g: GoalDesc) {
    match g
    case Empty => true
    case Atom(a) => CleanAtom(a)
    case Not(inner) => CleanGoal(inner)
    case And(parts) => forall i | 0 <= i < |parts| :: CleanGoal(parts[i])
    case Or(parts) => forall i | 0 <= i < |parts| :: CleanGoal(parts[i])
    case Imply(ante, conseq) => CleanGoal(ante) && CleanGoal(conseq)
    case Forall(_, body) => CleanGoal(body)
    case Exists(_, body) => CleanGoal(body)
  }

  predicate CleanBinding(b: Binding) {
    forall v | v in b :: ',' !in b[v]
  }

  predicate CleanObjects(objs: ObjectIndex) {
    forall ty | ty in objs :: forall o | o in objs[ty] :: ',' !in o
  }

  predicate CleanState(s: set<GroundAtom>) {
    forall a | a in s :: '(' !in a.pred && CleanArgs(a.args)
  }

  // ---- grounding preserves meaning ----

  lemma {:induction false} SubstTermsDenote(ts: seq<Term>, b: Binding)
    requires SubstTerms(ts, b).Ok?
    ensures SubstTerms(ts, b).value == Denotations(ts, b)
  {
    if ts != [] {
      SubstTermsDenote(ts[1..], b);
      assert Denotations(ts, b) == [Denotation(ts[0], b)] + Denotations(ts[1..], b);
    }
  }

  lemma AtomMeansMembership(a: Atomic, b: Binding, s: set<GroundAtom>)
    requires CleanAtom(a) && CleanBinding(b) && CleanState(s)
    requires SubstAtom(a, b).Ok?
    ensures SubstAtom(a, b).value in FactsOf(s) <==> GroundAtom(a.pred, Denotations(a.args, b)) in s
  {
    SubstTermsDenote(a.args, b);
    var args := Denotations(a.args, b);
    assert CleanArgs(args) by {
      forall x | x in args ensures ',' !in x {
        var i :| 0 <= i < |args| && x == args[i];
        assert CleanTerm(a.args[i]);
      }
    }
    if AtomKey(a.pred, args) in FactsOf(s) {
      var q :| q in s && AtomKey(q.pred, q.args) == AtomKey(a.pred, args);
      KeyInjective(q.pred, q.args, a.pred, args);
    }
  }

  /** Peeling the first parameter: a binding of the rest overrides it. */
  lemma {:induction false} ProductConsSplit(vars: seq<Name>, choices: seq<seq<Name>>, e: Binding)
    returns (c: Name, rest: Binding)
    requires |vars| == |choices| > 0 && e in Product(vars, choices)
    ensures c in choices[0] && rest in Product(vars[1..], choices[1..]) && e == map[vars[0] := c] + rest
  {
    hide Product;
    var n := |vars| - 1;
    ProductUnfolds(vars, choices);
    ProductUnfolds(vars[1..], choices[1..]);
    var f := ExtendAllMember(Product(vars[..n], choices[..n]), vars[n], choices[n], e);
    if n == 0 {
      ProductUnfolds(vars[..0], choices[..0]);
      c, rest := f.1, map[];
    } else {
      var c0, r0 := ProductConsSplit(vars[..n], choices[..n], f.0);
      assert vars[1..][..n - 1] == vars[..n][1..] && choices[1..][..n - 1] == choices[..n][1..];
      ExtendAllHas(Product(vars[..n][1..], choices[..n][1..]), vars[n], choices[n], r0, f.1);
      c, rest := c0, r0[vars[n] := f.1];
    }
  }

  lemma ProductUnfolds(vars: seq<Name>, choices: seq<seq<Name>>)
    requires |vars| == |choices|
    ensures vars == [] ==> Product(vars, choices) == [map[]]
    ensures vars != [] ==>
              var n := |vars| - 1;
              Product(vars, choices) == ExtendAll(Product(vars[..n], choices[..n]), vars[n], choices[n])
  {
  }

  lemma {:induction false} ProductConsJoin(vars: seq<Name>, choices: seq<seq<Name>>, c: Name, rest: Binding)
    requires |vars| == |choices| > 0
    requires c in choices[0] && rest in Product(vars[1..], choices[1..])
    ensures map[vars[0] := c] + rest in Product(vars, choices)
  {
    hide Product;
    var n := |vars| - 1;
    var one := map[vars[0] := c];
    ProductUnfolds(vars, choices);
    ProductUnfolds(vars[1..], choices[1..]);
    if n == 0 {
      ExtendAllHas([map[]], vars[0], choices[0], map[], c);
      assert one + rest == map[][vars[0] := c];
      assert vars[..0] == [] && choices[..0] == [];
      ProductUnfolds(vars[..0], choices[..0]);
    } else {
      var vf, cf := vars[..n], choices[..n];
      assert vars[1..][..n - 1] == vf[1..] && choices[1..][..n - 1] == cf[1..];
      var f := ExtendAllMember(Product(vf[1..], cf[1..]), vars[n], choices[n], rest);
      ProductConsJoin(vf, cf, c, f.0);
      ExtendAllHas(Product(vf, cf), vars[n], choices[n], one + f.0, f.1);
      assert one + rest == (one + f.0)[vars[n] := f.1];
    }
  }

  lemma ShadowInOrder(b: Binding, v: Name, o: Name, e: Binding)
    ensures b + (map[v := o] + e) == b[v := o] + e
  {
  }

  lemma BindingsJoin(vars: seq<TypedParam>, objs: ObjectIndex, o: Name, e: Binding)
    requires vars != [] && o in ObjectsOf(objs, vars[0].ty) && e in BindingsOf(vars[1..], objs)
    ensures map[vars[0].v := o] + e in BindingsOf(vars, objs)
  {
    assert VarsOf(vars)[1..] == VarsOf(vars[1..]) && ChoicesOf(vars, objs)[1..] == ChoicesOf(vars[1..], objs);
    ProductConsJoin(VarsOf(vars), ChoicesOf(vars, objs), o, e);
  }

  lemma BindingsSplit(vars: seq<TypedParam>, objs: ObjectIndex, e: Binding) returns (o: Name, r: Binding)
    requires vars != [] && e in BindingsOf(vars, objs)
    ensures o in ObjectsOf(objs, vars[0].ty) && r in BindingsOf(vars[1..], objs) && e == map[vars[0].v := o] + r
  {
    assert VarsOf(vars)[1..] == VarsOf(vars[1..]) && ChoicesOf(vars, objs)[1..] == ChoicesOf(vars[1..], objs);
    o, r := ProductConsSplit(VarsOf(vars), ChoicesOf(vars, objs), e);
  }

  /** What a binding of all binders adds, the first one adds and then the others. */
  lemma BindFirst(vars: seq<TypedParam>, b: Binding, objs: ObjectIndex, e: Binding) returns (o: Name, r: Binding)
    requires vars != [] && e in BindingsOf(vars, objs)
    ensures o in ObjectsOf(objs, vars[0].ty) && r in BindingsOf(vars[1..], objs) && b + e == b[vars[0].v := o] + r
  {
    hide BindingsOf, ObjectsOf;
    o, r := BindingsSplit(vars, objs, e);
    ShadowInOrder(b, vars[0].v, o, r);
  }

  lemma BindAll(vars: seq<TypedParam>, b: Binding, objs: ObjectIndex, o: Name, r: Binding) returns (e: Binding)
    requires vars != [] && o in ObjectsOf(objs, vars[0].ty) && r in BindingsOf(vars[1..], objs)
    ensures e in BindingsOf(vars, objs) && b + e == b[vars[0].v := o] + r
  {
    hide BindingsOf, ObjectsOf;
    BindingsJoin(vars, objs, o, r);
    ShadowInOrder(b, vars[0].v, o, r);
    e := map[vars[0].v := o] + r;
  }

  lemma NoBinders(objs: ObjectIndex)
    ensures BindingsOf([], objs) == [map[]]
  {
  }

  /** Quantifying binder by binder is quantifying over the product. */
  lemma {:induction false} ForallRangesOverProduct(
    vars: seq<TypedParam>, body: GoalDesc, b: Binding, objs: ObjectIndex, s: set<GroundAtom>)
    ensures HoldsForall(vars, body, b, objs, s) <==>
              forall e | e in BindingsOf(vars, objs) :: Holds(body, b + e, objs, s)
    decreases |vars|
  {
    hide Holds, BindingsOf, ObjectsOf;
    if vars == [] {
      assert b + map[] == b;
      NoBinders(objs);
    } else {
      var v := vars[0].v;
      forall o | o in ObjectsOf(objs, vars[0].ty) {
        ForallRangesOverProduct(vars[1..], body, b[v := o], objs, s);
      }
      if forall e | e in BindingsOf(vars, objs) :: Holds(body, b + e, objs, s) {
        forall o, r | o in ObjectsOf(objs, vars[0].ty) && r in BindingsOf(vars[1..], objs)
          ensures Holds(body, b[v := o] + r, objs, s)
        {
          var e := BindAll(vars, b, objs, o, r);
        }
      }
      if HoldsForall(vars, body, b, objs, s) {
        forall e | e in BindingsOf(vars, objs) ensures Holds(body, b + e, objs, s) {
          var o, r := BindFirst(vars, b, objs, e);
        }
      }
    }
  }

  /** An existential holds when the universal of the negation does not. */
  lemma {:induction false} ExistsIsNotForall(
    vars: seq<TypedParam>, body: GoalDesc, b: Binding, objs: ObjectIndex, s: set<GroundAtom>)
    ensures HoldsExists(vars, body, b, objs, s) <==> !HoldsForall(vars, Not(body), b, objs, s)
    decreases |vars|
  {
    if vars != [] {
      hide Holds;
      forall o | o in ObjectsOf(objs, vars[0].ty) {
        ExistsIsNotForall(vars[1..], body, b[vars[0].v := o], objs, s);
      }
    }
  }

  lemma ExistsRangesOverProduct(
    vars: seq<TypedParam>, body: GoalDesc, b: Binding, objs: ObjectIndex, s: set<GroundAtom>)
    ensures HoldsExists(vars, body, b, objs, s) <==>
              exists e | e in BindingsOf(vars, objs) :: Holds(body, b + e, objs, s)
  {
    hide BindingsOf, HoldsExists, HoldsForall;
    ExistsIsNotForall(vars, body, b, objs, s);
    ForallRangesOverProduct(vars, Not(body), b, objs, s);
    assert forall e :: Holds(Not(body), b + e, objs, s) <==> !Holds(body, b + e, objs, s);
  }

  lemma {:induction false} ProductClean(vars: seq<Name>, choices: seq<seq<Name>>, e: Binding)
    requires |vars| == |choices| && e in Product(vars, choices)
    requires forall i | 0 <= i < |choices| :: CleanArgs(choices[i])
    ensures CleanBinding(e)
  {
    if vars != [] {
      var n := |vars| - 1;
      var f := ExtendAllMember(Product(vars[..n], choices[..n]), vars[n], choices[n], e);
      ProductClean(vars[..n], choices[..n], f.0);
    }
  }

  lemma ImplicationTruth(a: GroundGoal, c: GroundGoal, facts: set<string>)
    ensures Truth(GOr([GNot(a), c]), facts) <==> (Truth(a, facts) ==> Truth(c, facts))
  {
    var g := GOr([GNot(a), c]);
    assert g.parts[0] == GNot(a) && g.parts[1] == c;
  }

  /** Grounding keeps the meaning: the ground goal is true of the fact strings iff the lifted one holds. */
  lemma {:induction false} GroundingPreservesTruth(g: GoalDesc, b: Binding, objs: ObjectIndex, s: set<GroundAtom>)
    requires CleanGoal(g) && CleanBinding(b) && CleanObjects(objs) && CleanState(s)
    requires Ground(g, b, objs).Ok?
    ensures Truth(Ground(g, b, objs).value, FactsOf(s)) <==> Holds(g, b, objs, s)
    decreases g, 0, 0
  {
    hide FactsOf, CleanAtom, CleanBinding, CleanObjects, CleanState, BindingsOf, GroundParts, GroundUnder, HoldsForall,
         HoldsExists, SubstAtom;
    match g
    case Empty =>
    case Atom(a) =>
      if a.pred != "=" {
        AtomMeansMembership(a, b, s);
      }
    case Not(inner) => GroundingPreservesTruth(inner, b, objs, s);
    case And(parts) => GroundPartsPreserveTruth(parts, b, objs, s);
    case Or(parts) => GroundPartsPreserveTruth(parts, b, objs, s);
    case Imply(ante, conseq) =>
      GroundingPreservesTruth(ante, b, objs, s);
      GroundingPreservesTruth(conseq, b, objs, s);
      ImplicationTruth(Ground(ante, b, objs).value, Ground(conseq, b, objs).value, FactsOf(s));
    case Forall(vars, body) =>
      GroundUnderPreservesTruth(body, BindingsOf(vars, objs), vars, b, objs, s);
      ForallRangesOverProduct(vars, body, b, objs, s);
    case Exists(vars, body) =>
      GroundUnderPreservesTruth(body, BindingsOf(vars, objs), vars, b, objs, s);
      ExistsRangesOverProduct(vars, body, b, objs, s);
  }

  lemma {:induction false} GroundPartsPreserveTruth(
    parts: seq<GoalDesc>, b: Binding, objs: ObjectIndex, s: set<GroundAtom>)
    requires forall i | 0 <= i < |parts| :: CleanGoal(parts[i])
    requires CleanBinding(b) && CleanObjects(objs) && CleanState(s)
    requires GroundParts(parts, b, objs).Ok?
    ensures var ps := GroundParts(parts, b, objs).value;
            |ps| == |parts|
            && forall i | 0 <= i < |parts| :: Truth(ps[i], FactsOf(s)) <==> Holds(parts[i], b, objs, s)
    decreases parts, 0, 0
  {
    if parts != [] {
      GroundingPreservesTruth(parts[0], b, objs, s);
      GroundPartsPreserveTruth(parts[1..], b, objs, s);
    }
  }

  lemma {:induction false} GroundUnderPreservesTruth(
    body: GoalDesc, extras: seq<Binding>, vars: seq<TypedParam>, b: Binding, objs: ObjectIndex, s: set<GroundAtom>)
    requires CleanGoal(body) && CleanBinding(b) && CleanObjects(objs) && CleanState(s)
    requires forall e | e in extras :: e in BindingsOf(vars, objs)
    requires GroundUnder(body, extras, b, objs).Ok?
    ensures var ps := GroundUnder(body, extras, b, objs).value;
            |ps| == |extras|
            && forall i | 0 <= i < |ps| :: Truth(ps[i], FactsOf(s)) <==> Holds(body, b + extras[i], objs, s)
    decreases body, 1, |extras|
  {
    if extras != [] {
      hide Holds, Truth, FactsOf, CleanGoal, CleanBinding, CleanObjects, CleanState, BindingsOf, Ground;
      assert extras[0] in extras && forall e | e in extras[1..] :: e in extras;
      ExtendedIsClean(vars, objs, b, extras[0]);
      GroundingPreservesTruth(body, b + extras[0], objs, s);
      GroundUnderPreservesTruth(body, extras[1..], vars, b, objs, s);
    }
  }

  lemma ExtendedIsClean(vars: seq<TypedParam>, objs: ObjectIndex, b: Binding, e: Binding)
    requires CleanBinding(b) && CleanObjects(objs) && e in BindingsOf(vars, objs)
    ensures CleanBinding(b + e)
  {
    ProductClean(VarsOf(vars), ChoicesOf(vars, objs), e);
  }

  /** Whenever grounding and evaluation both succeed, the answer is the lifted goal's truth. */
  lemma GroundedAnswerIsTruth(
    g: GoalDesc, b: Binding, objs: ObjectIndex, s: set<GroundAtom>, gg: GroundGoal, budget: nat, answer: bool)
    requires CleanGoal(g) && CleanBinding(b) && CleanObjects(objs) && CleanState(s)
    requires Ground(g, b, objs) == Ok(gg) && EvalWithBudget(gg, FactsOf(s), budget) == Ok(answer)
    ensures answer <==> Holds(g, b, objs, s)
  {
    GroundingPreservesTruth(g, b, objs, s);
    EvalFaithful(gg, FactsOf(s), 1, budget);
  }

  // ---- the two quantifier expanders agree ----

  /** No quantifier and no variable is left. */
  ghost predicate FullyExpanded(g: GoalDesc) {
    match g
    case Empty => true
    case Atom(a) => forall t | t in a.args :: t.Const?
    case Not(inner) => FullyExpanded(inner)
    case And(parts) => forall i | 0 <= i < |parts| :: FullyExpanded(parts[i])
    case Or(parts) => forall i | 0 <= i < |parts| :: FullyExpanded(parts[i])
    case Imply(ante, conseq) => FullyExpanded(ante) && FullyExpanded(conseq)
    case Forall(_, _) => false
    case Exists(_, _) => false
  }

  /** Both succeed with the same value, or both fail. */
  ghost predicate SameOutcome<T(!new)>(x: Result<T, GroundError>, y: Result<T, GroundError>) {
    (x.Ok? <==> y.Ok?) && (x.Ok? ==> x == y)
  }

  lemma {:induction false} SubstConsts(args: seq<Name>)
    ensures SubstTerms(ConstTerms(args), map[]) == Ok(args)
  {
    if args != [] {
      assert ConstTerms(args)[1..] == ConstTerms(args[1..]);
      SubstConsts(args[1..]);
      assert args == [args[0]] + args[1..];
    }
  }

  lemma {:induction false} SubstTwo(ts: seq<Term>, b: Binding)
    requires |ts| == 2
    ensures SubstTerms(ts, b).Ok? <==> SubstTerm(ts[0], b).Ok? && SubstTerm(ts[1], b).Ok?
    ensures SubstTerms(ts, b).Ok? ==>
              SubstTerms(ts, b).value == [SubstTerm(ts[0], b).value, SubstTerm(ts[1], b).value]
  {
    var rest := ts[1..];
    assert rest[0] == ts[1] && rest[1..] == [];
    assert SubstTerms(rest[1..], b) == Ok([]);
    assert SubstTerms(rest, b).Ok? <==> SubstTerm(ts[1], b).Ok?;
  }

  lemma {:induction false} SubstTermsLength(ts: seq<Term>, b: Binding)
    requires SubstTerms(ts, b).Ok?
    ensures |SubstTerms(ts, b).value| == |ts|
  {
    SubstTermsDenote(ts, b);
  }

  lemma AtomExpandersAgree(a: Atomic, b: Binding, objs: ObjectIndex)
    ensures SubstAtomAst(a, b).Err? ==> Ground(Atom(a), b, objs).Err?
    ensures SubstAtomAst(a, b).Ok? ==>
              var h := Atom(SubstAtomAst(a, b).value);
              FullyExpanded(h) && SameOutcome(Ground(h, map[], objs), Ground(Atom(a), b, objs))
  {
    if a.pred == "=" && |a.args| == 2 {
      SubstTwo(a.args, b);
    }
    if SubstTerms(a.args, b).Ok? {
      SubstTermsLength(a.args, b);
      SubstConsts(SubstTerms(a.args, b).value);
    }
  }

  /**
   * Expanding quantifiers in the syntax tree and then grounding is grounding directly:
   * the same tree, or a failure on both sides; and the expanded goal has no binder and no variable.
   */
  lemma {:induction false} ExpandersCommute(g: GoalDesc, b: Binding, objs: ObjectIndex)
    ensures Expand(g, b, objs).Err? ==> Ground(g, b, objs).Err?
    ensures Expand(g, b, objs).Ok? ==>
              var h := Expand(g, b, objs).value;
              FullyExpanded(h) && SameOutcome(Ground(h, map[], objs), Ground(g, b, objs))
    decreases g, 0, 0
  {
    hide Expand, Ground, FullyExpanded, SameOutcome, ExpandParts, ExpandUnder, GroundParts, GroundUnder, BindingsOf,
         SubstAtomAst;
    match g
    case Empty => EmptyCommutes(b, objs);
    case Atom(a) => AtomCommutes(a, b, objs);
    case Not(inner) =>
      ExpandersCommute(inner, b, objs);
      NotCommutes(inner, b, objs);
    case And(parts) =>
      ExpandPartsCommute(parts, b, objs);
      PartsCommute(parts, b, objs);
    case Or(parts) =>
      ExpandPartsCommute(parts, b, objs);
      PartsCommute(parts, b, objs);
    case Imply(ante, conseq) =>
      ExpandersCommute(ante, b, objs);
      ExpandersCommute(conseq, b, objs);
      ImplyCommutes(ante, conseq, b, objs);
    case Forall(vars, body) =>
      ExpandUnderCommutes(body, BindingsOf(vars, objs), b, objs);
      UnderCommutes(vars, body, b, objs);
    case Exists(vars, body) =>
      ExpandUnderCommutes(body, BindingsOf(vars, objs), b, objs);
      UnderCommutes(vars, body, b, objs);
  }

  /** Expanding and then grounding a goal gives what grounding it gives. */
  ghost predicate Commutes(g: GoalDesc, b: Binding, objs: ObjectIndex) {
    && (Expand(g, b, objs).Err? ==> Ground(g, b, objs).Err?)
    && (Expand(g, b, objs).Ok? ==>
          var h := Expand(g, b, objs).value;
          FullyExpanded(h) && SameOutcome(Ground(h, map[], objs), Ground(g, b, objs)))
  }

  lemma EmptyCommutes(b: Binding, objs: ObjectIndex)
    ensures Commutes(Empty, b, objs)
  {
  }

  lemma AtomCommutes(a: Atomic, b: Binding, objs: ObjectIndex)
    ensures Commutes(Atom(a), b, objs)
  {
    AtomExpandersAgree(a, b, objs);
    hide FullyExpanded, SameOutcome, SubstAtomAst, Ground;
  }

  lemma NotCommutes(inner: GoalDesc, b: Binding, objs: ObjectIndex)
    requires Commutes(inner, b, objs)
    ensures Commutes(Not(inner), b, objs)
  {
  }

  lemma ImplyCommutes(ante: GoalDesc, conseq: GoalDesc, b: Binding, objs: ObjectIndex)
    requires Commutes(ante, b, objs) && Commutes(conseq, b, objs)
    ensures Commutes(Imply(ante, conseq), b, objs)
  {
  }

  ghost predicate PartsCommuteTo(
    hs: Result<seq<GoalDesc>, GroundError>, gs: Result<seq<GroundGoal>, GroundError>, objs: ObjectIndex)
  {
    && (hs.Err? ==> gs.Err?)
    && (hs.Ok? ==>
          && (forall i | 0 <= i < |hs.value| :: FullyExpanded(hs.value[i]))
          && SameOutcome(GroundParts(hs.value, map[], objs), gs))
  }

  lemma PartsCommute(parts: seq<GoalDesc>, b: Binding, objs: ObjectIndex)
    requires PartsCommuteTo(ExpandParts(parts, b, objs), GroundParts(parts, b, objs), objs)
    ensures Commutes(And(parts), b, objs) && Commutes(Or(parts), b, objs)
  {
    hide GroundParts, ExpandParts;
  }

  lemma UnderCommutes(vars: seq<TypedParam>, body: GoalDesc, b: Binding, objs: ObjectIndex)
    requires var extras := BindingsOf(vars, objs);
             PartsCommuteTo(ExpandUnder(body, extras, b, objs), GroundUnder(body, extras, b, objs), objs)
    ensures Commutes(Forall(vars, body), b, objs) && Commutes(Exists(vars, body), b, objs)
  {
    hide GroundParts, ExpandUnder, GroundUnder, BindingsOf;
  }

  lemma {:induction false} ExpandPartsCommute(parts: seq<GoalDesc>, b: Binding, objs: ObjectIndex)
    ensures PartsCommuteTo(ExpandParts(parts, b, objs), GroundParts(parts, b, objs), objs)
    decreases parts, 0, 0
  {
    hide Expand, Ground, FullyExpanded;
    if parts != [] {
      ExpandersCommute(parts[0], b, objs);
      ExpandPartsCommute(parts[1..], b, objs);
      if ExpandParts(parts, b, objs).Ok? {
        var hs := ExpandParts(parts, b, objs).value;
        assert hs[1..] == ExpandParts(parts[1..], b, objs).value;
      }
    }
  }

  lemma {:induction false} ExpandUnderCommutes(body: GoalDesc, extras: seq<Binding>, b: Binding, objs: ObjectIndex)
    ensures PartsCommuteTo(ExpandUnder(body, extras, b, objs), GroundUnder(body, extras, b, objs), objs)
    decreases body, 1, |extras|
  {
    hide Expand, Ground, FullyExpanded;
    if extras != [] {
      ExpandersCommute(body, b + extras[0], objs);
      ExpandUnderCommutes(body, extras[1..], b, objs);
      if ExpandUnder(body, extras, b, objs).Ok? {
        var hs := ExpandUnder(body, extras, b, objs).value;
        assert hs[1..] == ExpandUnder(body, extras[1..], b, objs).value;
      }
    }
  }
}
