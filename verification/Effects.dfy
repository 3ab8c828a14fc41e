// Effects: flattening conditional effects at grounding time, and applying a ground effect.
module Effects {
  import opened Prelude
  import opened HddlAst
  import opened Names
  import opened Bindings
  import opened Goals

  type Facts = set<string>

  /** Fires when every `posCond` fact and no `negCond` fact is in the source state. */
  datatype GroundConditional = GroundConditional(posCond: Facts, negCond: Facts, add: Facts, del: Facts)

  datatype GroundBranch = GroundBranch(add: Facts, del: Facts, conditional: seq<GroundConditional>)

  const EMPTY_BRANCH := GroundBranch({}, {}, [])

  /** A key no state contains: it stands for a condition that is constantly false. */
  function Marker(x: Name, y: Name): string {
    "never:(= " + x + " " + y + ")"
  }

  // ---- specification of flattening ----

  datatype Condition = Condition(pos: Facts, neg: Facts)

  function MergeCondition(c: Condition, r: Result<Condition, GroundError>): Result<Condition, GroundError> {
    if r.Err? then r else Ok(Condition(c.pos + r.value.pos, c.neg + r.value.neg))
  }

  function Flatten(g: GoalDesc, b: Binding): Result<Condition, GroundError>
    decreases g, 0
  {
    match g
    case Empty => Ok(Condition({}, {}))
    case Atom(a) =>
      if a.pred == "=" then
        var xy :- SubstEqArgs(a, b);
        Ok(Condition(if xy.0 != xy.1 then {Marker(xy.0, xy.1)} else {}, {}))
      else
        var k :- SubstAtom(a, b);
        Ok(Condition({k}, {}))
    case Not(inner) =>
      if inner.Atom? then
        if inner.atom.pred == "=" then
          var xy :- SubstEqArgs(inner.atom, b);
          Ok(Condition(if xy.0 == xy.1 then {Marker(xy.0, xy.1)} else {}, {}))
        else
          var k :- SubstAtom(inner.atom, b);
          Ok(Condition({}, {k}))
      else Err(UnsupportedPrecondition)
    case And(parts) => FlattenParts(parts, b)
    case _ => Err(UnsupportedPrecondition)
  }

  function FlattenParts(parts: seq<GoalDesc>, b: Binding): Result<Condition, GroundError>
    decreases parts, 0
  {
    if parts == [] then Ok(Condition({}, {}))
    else
      var c :- Flatten(parts[0], b);
      MergeCondition(c, FlattenParts(parts[1..], b))
  }

  function Merge(x: GroundBranch, r: Result<GroundBranch, GroundError>): Result<GroundBranch, GroundError> {
    if r.Err? then r
    else Ok(GroundBranch(x.add + r.value.add, x.del + r.value.del, x.conditional + r.value.conditional))
  }

  /** A ground effect with its conditionals flattened to one level of guard. */
  function BranchOf(e: Effect, b: Binding): Result<GroundBranch, GroundError>
    decreases e, 0
  {
    match e
    case NoEffect => Ok(EMPTY_BRANCH)
    case AddLit(a) =>
      var k :- SubstAtom(a, b);
      Ok(GroundBranch({k}, {}, []))
    case DelLit(a) =>
      var k :- SubstAtom(a, b);
      Ok(GroundBranch({}, {k}, []))
    case Both(es) => BranchOfAll(es, b)
    case When(cond, body) =>
      var c :- Flatten(cond, b);
      var inner :- WhenBody(body, b, c, 1);
      Ok(GroundBranch({}, {}, inner.conditional + [GroundConditional(c.pos, c.neg, inner.add, inner.del)]))
    case Oneof(_) => Err(UnsupportedPrecondition)
    case Increase(f) => Err(UnsupportedNumericFluent(f.pred))
    case Decrease(f) => Err(UnsupportedNumericFluent(f.pred))
  }

  function BranchOfAll(es: seq<Effect>, b: Binding): Result<GroundBranch, GroundError>
    decreases es, 0
  {
    if es == [] then Ok(EMPTY_BRANCH)
    else
      var x :- BranchOf(es[0], b);
      Merge(x, BranchOfAll(es[1..], b))
  }

  /** The body of `depth` enclosing conditionals with accumulated guard `c`: its own literals, plus inner conditionals. */
  function WhenBody(e: Effect, b: Binding, c: Condition, depth: nat): Result<GroundBranch, GroundError>
    decreases e, 0
  {
    match e
    case NoEffect => Ok(EMPTY_BRANCH)
    case AddLit(a) =>
      var k :- SubstAtom(a, b);
      Ok(GroundBranch({k}, {}, []))
    case DelLit(a) =>
      var k :- SubstAtom(a, b);
      Ok(GroundBranch({}, {k}, []))
    case Both(es) => WhenBodyAll(es, b, c, depth)
    case When(cond, body) =>
      if depth >= 2 then Err(UnsupportedPrecondition)
      else
        var d :- MergeCondition(c, Flatten(cond, b));
        var inner :- WhenBody(body, b, d, depth + 1);
        Ok(GroundBranch({}, {}, inner.conditional + [GroundConditional(d.pos, d.neg, inner.add, inner.del)]))
    case Oneof(_) => Err(UnsupportedPrecondition)
    case Increase(f) => Err(UnsupportedNumericFluent(f.pred))
    case Decrease(f) => Err(UnsupportedNumericFluent(f.pred))
  }

  function WhenBodyAll(es: seq<Effect>, b: Binding, c: Condition, depth: nat): Result<GroundBranch, GroundError>
    decreases es, 0
  {
    if es == [] then Ok(EMPTY_BRANCH)
    else
      var x :- WhenBody(es[0], b, c, depth);
      Merge(x, WhenBodyAll(es[1..], b, c, depth))
  }

  /** One branch per `oneof` alternative, or a single one. */
  function OutcomesOf(e: Effect, b: Binding): Result<seq<GroundBranch>, GroundError> {
    if e.Oneof? then BranchesOf(e.effects, b)
    else
      var x :- BranchOf(e, b);
      Ok([x])
  }

  function BranchesOf(es: seq<Effect>, b: Binding): Result<seq<GroundBranch>, GroundError> {
    if es == [] then Ok([])
    else
      var x :- BranchOf(es[0], b);
      var xs :- BranchesOf(es[1..], b);
      Ok([x] + xs)
  }

  // ---- the accumulating passes ----

  lemma MergeConditionAssoc(c: Condition, d: Condition, r: Result<Condition, GroundError>)
    ensures MergeCondition(c, MergeCondition(d, r)) == MergeCondition(Condition(c.pos + d.pos, c.neg + d.neg), r)
  {
    if r.Ok? {
      assert c.pos + (d.pos + r.value.pos) == (c.pos + d.pos) + r.value.pos;
      assert c.neg + (d.neg + r.value.neg) == (c.neg + d.neg) + r.value.neg;
    }
  }

  lemma MergeAssoc(x: GroundBranch, y: GroundBranch, r: Result<GroundBranch, GroundError>)
    ensures Merge(x, Merge(y, r)) ==
            Merge(GroundBranch(x.add + y.add, x.del + y.del, x.conditional + y.conditional), r)
  {
    if r.Ok? {
      assert x.add + (y.add + r.value.add) == (x.add + y.add) + r.value.add;
      assert x.del + (y.del + r.value.del) == (x.del + y.del) + r.value.del;
      assert x.conditional + (y.conditional + r.value.conditional)
          == (x.conditional + y.conditional) + r.value.conditional;
    }
  }

  lemma PushConditional(cs: seq<GroundConditional>, body: GroundBranch, c: Condition)
    ensures {} + body.add == body.add && {} + body.del == body.del
    ensures var own := [GroundConditional(c.pos, c.neg, body.add, body.del)];
            (cs + body.conditional) + own == cs + (body.conditional + own)
  {
  }

  /** Adds a goal's literals to the condition accumulated so far. */
  method FlattenGoal(g: GoalDesc, b: Binding, pos0: Facts, neg0: Facts) returns (r: Result<Condition, GroundError>)
    ensures r == MergeCondition(Condition(pos0, neg0), Flatten(g, b))
    decreases g
  {
    var pos, neg := pos0, neg0;
    assert pos0 + {} == pos0 && neg0 + {} == neg0;
    match g {
      case Empty =>
      case Atom(a) =>
        if a.pred == "=" {
          var xy :- SubstEqArgs(a, b);
          if xy.0 != xy.1 {
            pos := pos + {Marker(xy.0, xy.1)};
          }
        } else {
          var k :- SubstAtom(a, b);
          pos := pos + {k};
        }
      case Not(inner) =>
        if !inner.Atom? {
          return Err(UnsupportedPrecondition);
        }
        if inner.atom.pred == "=" {
          var xy :- SubstEqArgs(inner.atom, b);
          if xy.0 == xy.1 {
            pos := pos + {Marker(xy.0, xy.1)};
          }
        } else {
          var k :- SubstAtom(inner.atom, b);
          neg := neg + {k};
        }
      case And(parts) =>
        for i := 0 to |parts|
          invariant MergeCondition(Condition(pos, neg), FlattenParts(parts[i..], b))
                 == MergeCondition(Condition(pos0, neg0), FlattenParts(parts, b))
        {
          var c := FlattenGoal(parts[i], b, pos, neg);
          assert parts[i..][0] == parts[i] && parts[i..][1..] == parts[i + 1..];
          if c.Err? {
            return c;
          }
          MergeConditionAssoc(Condition(pos, neg), Flatten(parts[i], b).value, FlattenParts(parts[i + 1..], b));
          pos, neg := c.value.pos, c.value.neg;
        }
      case _ => return Err(UnsupportedPrecondition);
    }
    assert pos + {} == pos && neg + {} == neg;
    r := Ok(Condition(pos, neg));
  }

  /** Adds an effect's literals and conditionals to the branch accumulated so far. */
  method CollectEffect(e: Effect, b: Binding, branch0: GroundBranch) returns (r: Result<GroundBranch, GroundError>)
    ensures r == Merge(branch0, BranchOf(e, b))
    decreases e
  {
    var branch := branch0;
    assert branch0.add + {} == branch0.add && branch0.del + {} == branch0.del
           && branch0.conditional + [] == branch0.conditional;
    match e {
      case NoEffect =>
      case AddLit(a) =>
        var k :- SubstAtom(a, b);
        branch := branch.(add := branch.add + {k});
      case DelLit(a) =>
        var k :- SubstAtom(a, b);
        branch := branch.(del := branch.del + {k});
      case Both(es) =>
        for i := 0 to |es|
          invariant Merge(branch, BranchOfAll(es[i..], b)) == Merge(branch0, BranchOfAll(es, b))
        {
          var c := CollectEffect(es[i], b, branch);
          assert es[i..][0] == es[i] && es[i..][1..] == es[i + 1..];
          if c.Err? {
            return c;
          }
          MergeAssoc(branch, BranchOf(es[i], b).value, BranchOfAll(es[i + 1..], b));
          branch := c.value;
        }
      case When(cond, body) =>
        var guard :- FlattenGoal(cond, b, {}, {});
        assert guard == Flatten(cond, b).value by {
          assert {} + guard.pos == guard.pos && {} + guard.neg == guard.neg;
        }
        var inner :- CollectWhenBody(body, b, guard, {}, {}, branch.conditional, 1);
        PushConditional(branch0.conditional, WhenBody(body, b, guard, 1).value, guard);
        branch := branch.(conditional :=
          inner.conditional + [GroundConditional(guard.pos, guard.neg, inner.add, inner.del)]);
      case Oneof(_) => return Err(UnsupportedPrecondition);
      case Increase(f) => return Err(UnsupportedNumericFluent(f.pred));
      case Decrease(f) => return Err(UnsupportedNumericFluent(f.pred));
    }
    assert branch.add + {} == branch.add && branch.del + {} == branch.del && branch.conditional + [] == branch.conditional;
    r := Ok(branch);
  }

  /** Collects a conditional's body into `add`/`del`, pushing nested conditionals onto the enclosing branch. */
  method CollectWhenBody(
    e: Effect, b: Binding, guard: Condition, add0: Facts, del0: Facts, conditional0: seq<GroundConditional>,
    depth: nat) returns (r: Result<GroundBranch, GroundError>)
    ensures r == Merge(GroundBranch(add0, del0, conditional0), WhenBody(e, b, guard, depth))
    decreases e
  {
    var add, del, conditional := add0, del0, conditional0;
    assert add0 + {} == add0 && del0 + {} == del0 && conditional0 + [] == conditional0;
    match e {
      case NoEffect =>
      case AddLit(a) =>
        var k :- SubstAtom(a, b);
        add := add + {k};
      case DelLit(a) =>
        var k :- SubstAtom(a, b);
        del := del + {k};
      case Both(es) =>
        for i := 0 to |es|
          invariant Merge(GroundBranch(add, del, conditional), WhenBodyAll(es[i..], b, guard, depth))
                 == Merge(GroundBranch(add0, del0, conditional0), WhenBodyAll(es, b, guard, depth))
        {
          var c := CollectWhenBody(es[i], b, guard, add, del, conditional, depth);
          assert es[i..][0] == es[i] && es[i..][1..] == es[i + 1..];
          if c.Err? {
            return c;
          }
          MergeAssoc(GroundBranch(add, del, conditional), WhenBody(es[i], b, guard, depth).value,
                     WhenBodyAll(es[i + 1..], b, guard, depth));
          add, del, conditional := c.value.add, c.value.del, c.value.conditional;
        }
      case When(cond, body) =>
        if depth >= 2 {
          return Err(UnsupportedPrecondition);
        }
        var nested :- FlattenGoal(cond, b, guard.pos, guard.neg);
        var inner :- CollectWhenBody(body, b, nested, {}, {}, conditional, depth + 1);
        PushConditional(conditional0, WhenBody(body, b, nested, depth + 1).value, nested);
        conditional := inner.conditional + [GroundConditional(nested.pos, nested.neg, inner.add, inner.del)];
      case Oneof(_) => return Err(UnsupportedPrecondition);
      case Increase(f) => return Err(UnsupportedNumericFluent(f.pred));
      case Decrease(f) => return Err(UnsupportedNumericFluent(f.pred));
    }
    assert add + {} == add && del + {} == del && conditional + [] == conditional;
    r := Ok(GroundBranch(add, del, conditional));
  }

  // ---- the meaning of a nested effect, every guard read in the source state ----

  /** The atoms an effect adds. */
  ghost function EffectAdds(e: Effect, b: Binding, objs: ObjectIndex, s: set<GroundAtom>): set<GroundAtom> {
    match e
    case AddLit(a) => {GroundAtom(a.pred, Denotations(a.args, b))}
    case Both(es) => set i, a | 0 <= i < |es| && a in EffectAdds(es[i], b, objs, s) :: a
    case When(cond, body) => if Holds(cond, b, objs, s) then EffectAdds(body, b, objs, s) else {}
    case _ => {}
  }

  /** The atoms an effect deletes. */
  ghost function EffectDels(e: Effect, b: Binding, objs: ObjectIndex, s: set<GroundAtom>): set<GroundAtom> {
    match e
    case DelLit(a) => {GroundAtom(a.pred, Denotations(a.args, b))}
    case Both(es) => set i, a | 0 <= i < |es| && a in EffectDels(es[i], b, objs, s) :: a
    case When(cond, body) => if Holds(cond, b, objs, s) then EffectDels(body, b, objs, s) else {}
    case _ => {}
  }

  predicate GuardHolds(pos: Facts, neg: Facts, source: Facts) {
    pos <= source && neg !! source
  }

  predicate Fires(c: GroundConditional, source: Facts) {
    GuardHolds(c.posCond, c.negCond, source)
  }

  /** Everything a branch adds from `source`: its own adds and those of the conditionals that fire. */
  function AllAdds(x: GroundBranch, source: Facts): Facts {
    x.add + FiredAdds(x.conditional, source)
  }

  function AllDels(x: GroundBranch, source: Facts): Facts {
    x.del + FiredDels(x.conditional, source)
  }

  function FiredAdds(cs: seq<GroundConditional>, source: Facts): Facts {
    if cs == [] then {} else (if Fires(cs[0], source) then cs[0].add else {}) + FiredAdds(cs[1..], source)
  }

  function FiredDels(cs: seq<GroundConditional>, source: Facts): Facts {
    if cs == [] then {} else (if Fires(cs[0], source) then cs[0].del else {}) + FiredDels(cs[1..], source)
  }

  lemma {:induction false} FiredAppend(cs: seq<GroundConditional>, ds: seq<GroundConditional>, source: Facts)
    ensures FiredAdds(cs + ds, source) == FiredAdds(cs, source) + FiredAdds(ds, source)
    ensures FiredDels(cs + ds, source) == FiredDels(cs, source) + FiredDels(ds, source)
  {
    if cs == [] {
      assert cs + ds == ds;
    } else {
      assert (cs + ds)[1..] == cs[1..] + ds;
      FiredAppend(cs[1..], ds, source);
    }
  }

  ghost predicate MarkerFree(source: Facts) {
    forall x, y :: Marker(x, y) !in source
  }

  /** No atom whose predicate is free of `(` and `:` is spelled like a marker. */
  lemma MarkerIsNoKey(p: Name, args: seq<Name>, x: Name, y: Name)
    requires '(' !in p && ':' !in p
    ensures AtomKey(p, args) != Marker(x, y)
  {
    hide AtomKey, Marker;
    BaseNameInvertsKey(p, args);
    MarkerBase(x, y);
    assert "never:"[5] == ':';
  }

  lemma MarkerBase(x: Name, y: Name)
    ensures TaskBaseName(Marker(x, y)) == "never:"
  {
    var rest := "(= " + x + " " + y + ")";
    assert rest[0] == '(' && "never:" + rest == Marker(x, y);
    hide TaskBaseName, Marker;
    BaseNameOfPrefix("never:", rest);
  }

  lemma ColonFreeStatesAreMarkerFree(s: set<GroundAtom>)
    requires forall a | a in s :: '(' !in a.pred && ':' !in a.pred
    ensures MarkerFree(FactsOf(s))
  {
    forall a, x, y | a in s ensures AtomKey(a.pred, a.args) != Marker(x, y) {
      MarkerIsNoKey(a.pred, a.args, x, y);
    }
  }

  ghost predicate CleanEffect(e: Effect) {
    match e
    case AddLit(a) => CleanAtom(a)
    case DelLit(a) => CleanAtom(a)
    case Both(es) => forall i | 0 <= i < |es| :: CleanEffect(es[i])
    case When(cond, body) => CleanGoal(cond) && CleanEffect(body)
    case _ => true
  }

  ghost predicate CleanSetting(b: Binding, s: set<GroundAtom>) {
    CleanBinding(b) && CleanState(s) && MarkerFree(FactsOf(s))
  }

  /** A flattened guard is satisfied exactly when the goal it came from holds. */
  lemma {:induction false} FlattenedGuardMeans(g: GoalDesc, b: Binding, objs: ObjectIndex, s: set<GroundAtom>)
    requires CleanGoal(g) && CleanSetting(b, s)
    requires Flatten(g, b).Ok?
    ensures var c := Flatten(g, b).value;
            GuardHolds(c.pos, c.neg, FactsOf(s)) <==> Holds(g, b, objs, s)
    decreases g, 0
  {
    match g
    case Atom(a) =>
      if a.pred != "=" {
        AtomMeansMembership(a, b, s);
      }
    case Not(inner) =>
      assert CleanGoal(inner);
      if inner.atom.pred != "=" {
        AtomMeansMembership(inner.atom, b, s);
      }
    case And(parts) => FlattenedPartsMean(parts, b, objs, s);
    case _ =>
  }

  lemma {:induction false} FlattenedPartsMean(
    parts: seq<GoalDesc>, b: Binding, objs: ObjectIndex, s: set<GroundAtom>)
    requires forall i | 0 <= i < |parts| :: CleanGoal(parts[i])
    requires CleanSetting(b, s)
    requires FlattenParts(parts, b).Ok?
    ensures var c := FlattenParts(parts, b).value;
            GuardHolds(c.pos, c.neg, FactsOf(s)) <==> forall i | 0 <= i < |parts| :: Holds(parts[i], b, objs, s)
    decreases parts, 0
  {
    if parts != [] {
      FlattenedGuardMeans(parts[0], b, objs, s);
      FlattenedPartsMean(parts[1..], b, objs, s);
      assert forall i | 1 <= i < |parts| :: parts[i] == parts[1..][i - 1];
    }
  }

  lemma LiteralKey(a: Atomic, b: Binding)
    requires SubstAtom(a, b).Ok?
    ensures {SubstAtom(a, b).value} == FactsOf({GroundAtom(a.pred, Denotations(a.args, b))})
  {
    SubstTermsDenote(a.args, b);
    var q := GroundAtom(a.pred, Denotations(a.args, b));
    assert forall k :: k in FactsOf({q}) <==> k == AtomKey(q.pred, q.args);
  }

  lemma BothSplits(es: seq<Effect>, b: Binding, objs: ObjectIndex, s: set<GroundAtom>)
    requires es != []
    ensures FactsOf(EffectAdds(Both(es), b, objs, s))
         == FactsOf(EffectAdds(es[0], b, objs, s)) + FactsOf(EffectAdds(Both(es[1..]), b, objs, s))
    ensures FactsOf(EffectDels(Both(es), b, objs, s))
         == FactsOf(EffectDels(es[0], b, objs, s)) + FactsOf(EffectDels(Both(es[1..]), b, objs, s))
  {
    BothAddsSplit(es, b, objs, s);
    BothDelsSplit(es, b, objs, s);
    hide *;
    FactsOfUnion(EffectAdds(es[0], b, objs, s), EffectAdds(Both(es[1..]), b, objs, s));
    FactsOfUnion(EffectDels(es[0], b, objs, s), EffectDels(Both(es[1..]), b, objs, s));
  }

  lemma FactsOfUnion(s: set<GroundAtom>, t: set<GroundAtom>)
    ensures FactsOf(s + t) == FactsOf(s) + FactsOf(t)
  {
  }

  lemma BothAddsSplit(es: seq<Effect>, b: Binding, objs: ObjectIndex, s: set<GroundAtom>)
    requires es != []
    ensures EffectAdds(Both(es), b, objs, s) == EffectAdds(es[0], b, objs, s) + EffectAdds(Both(es[1..]), b, objs, s)
  {
    var rest := es[1..];
    forall a ensures a in EffectAdds(Both(es), b, objs, s) <==>
                       a in EffectAdds(es[0], b, objs, s) || a in EffectAdds(Both(rest), b, objs, s) {
      if i :| 0 <= i < |es| && a in EffectAdds(es[i], b, objs, s) {
        if i > 0 {
          assert rest[i - 1] == es[i];
        }
      }
      if i :| 0 <= i < |rest| && a in EffectAdds(rest[i], b, objs, s) {
        assert es[i + 1] == rest[i];
      }
    }
  }

  lemma BothDelsSplit(es: seq<Effect>, b: Binding, objs: ObjectIndex, s: set<GroundAtom>)
    requires es != []
    ensures EffectDels(Both(es), b, objs, s) == EffectDels(es[0], b, objs, s) + EffectDels(Both(es[1..]), b, objs, s)
  {
    var rest := es[1..];
    forall a ensures a in EffectDels(Both(es), b, objs, s) <==>
                       a in EffectDels(es[0], b, objs, s) || a in EffectDels(Both(rest), b, objs, s) {
      if i :| 0 <= i < |es| && a in EffectDels(es[i], b, objs, s) {
        if i > 0 {
          assert rest[i - 1] == es[i];
        }
      }
      if i :| 0 <= i < |rest| && a in EffectDels(rest[i], b, objs, s) {
        assert es[i + 1] == rest[i];
      }
    }
  }

  /** A conditional appended with the literals of its body fires just when its guard holds. */
  lemma GuardedLast(inner: GroundBranch, c: Condition, source: Facts)
    ensures var own := GroundConditional(c.pos, c.neg, inner.add, inner.del);
            && FiredAdds(inner.conditional + [own], source) ==
                 FiredAdds(inner.conditional, source) + (if GuardHolds(c.pos, c.neg, source) then inner.add else {})
            && FiredDels(inner.conditional + [own], source) ==
                 FiredDels(inner.conditional, source) + (if GuardHolds(c.pos, c.neg, source) then inner.del else {})
  {
    var own := GroundConditional(c.pos, c.neg, inner.add, inner.del);
    FiredAppend(inner.conditional, [own], source);
    assert [own][1..] == [];
    assert FiredAdds([own], source) == if Fires(own, source) then own.add else {};
    assert FiredDels([own], source) == if Fires(own, source) then own.del else {};
  }

  lemma MergedMeans(x: GroundBranch, y: GroundBranch, source: Facts)
    ensures var z := Merge(x, Ok(y)).value;
            && AllAdds(z, source) == AllAdds(x, source) + AllAdds(y, source)
            && AllDels(z, source) == AllDels(x, source) + AllDels(y, source)
            && FiredAdds(z.conditional, source) == FiredAdds(x.conditional, source) + FiredAdds(y.conditional, source)
            && FiredDels(z.conditional, source) == FiredDels(x.conditional, source) + FiredDels(y.conditional, source)
  {
    FiredAppend(x.conditional, y.conditional, source);
  }

  /** A body under guard `c` contributes its meaning when the guard holds and nothing otherwise. */
  lemma {:induction false} WhenBodyMeans(
    e: Effect, b: Binding, c: Condition, depth: nat, objs: ObjectIndex, s: set<GroundAtom>)
    requires CleanEffect(e) && CleanSetting(b, s)
    requires WhenBody(e, b, c, depth).Ok?
    ensures var x, F := WhenBody(e, b, c, depth).value, FactsOf(s);
            if GuardHolds(c.pos, c.neg, F) then
              AllAdds(x, F) == FactsOf(EffectAdds(e, b, objs, s)) && AllDels(x, F) == FactsOf(EffectDels(e, b, objs, s))
            else FiredAdds(x.conditional, F) == {} && FiredDels(x.conditional, F) == {}
    decreases e, 0
  {
    match e
    case AddLit(a) => LiteralKey(a, b);
    case DelLit(a) => LiteralKey(a, b);
    case Both(es) => WhenBodyAllMeans(es, b, c, depth, objs, s);
    case When(cond, body) =>
      var d := MergeCondition(c, Flatten(cond, b)).value;
      WhenBodyMeans(body, b, d, depth + 1, objs, s);
      NestedWhenMeans(e, b, c, depth, objs, s);
    case _ =>
  }

  /** A nested `when`: its body is under both guards. */
  lemma NestedWhenMeans(e: Effect, b: Binding, c: Condition, depth: nat, objs: ObjectIndex, s: set<GroundAtom>)
    requires e.When? && CleanEffect(e) && CleanSetting(b, s) && WhenBody(e, b, c, depth).Ok?
    requires var d, F := MergeCondition(c, Flatten(e.cond, b)).value, FactsOf(s);
             var x := WhenBody(e.body, b, d, depth + 1).value;
             if GuardHolds(d.pos, d.neg, F) then
               && AllAdds(x, F) == FactsOf(EffectAdds(e.body, b, objs, s))
               && AllDels(x, F) == FactsOf(EffectDels(e.body, b, objs, s))
             else FiredAdds(x.conditional, F) == {} && FiredDels(x.conditional, F) == {}
    ensures var x, F := WhenBody(e, b, c, depth).value, FactsOf(s);
            if GuardHolds(c.pos, c.neg, F) then
              AllAdds(x, F) == FactsOf(EffectAdds(e, b, objs, s)) && AllDels(x, F) == FactsOf(EffectDels(e, b, objs, s))
            else FiredAdds(x.conditional, F) == {} && FiredDels(x.conditional, F) == {}
  {
    FlattenedGuardMeans(e.cond, b, objs, s);
    var d := MergeCondition(c, Flatten(e.cond, b)).value;
    var inner := WhenBody(e.body, b, d, depth + 1).value;
    hide Flatten, FiredAdds, FiredDels, Holds, CleanGoal, CleanSetting, FactsOf;
    GuardedLast(inner, d, FactsOf(s));
  }

  lemma {:induction false} WhenBodyAllMeans(
    es: seq<Effect>, b: Binding, c: Condition, depth: nat, objs: ObjectIndex, s: set<GroundAtom>)
    requires forall i | 0 <= i < |es| :: CleanEffect(es[i])
    requires CleanSetting(b, s)
    requires WhenBodyAll(es, b, c, depth).Ok?
    ensures var x, F := WhenBodyAll(es, b, c, depth).value, FactsOf(s);
            if GuardHolds(c.pos, c.neg, F) then
              AllAdds(x, F) == FactsOf(EffectAdds(Both(es), b, objs, s))
              && AllDels(x, F) == FactsOf(EffectDels(Both(es), b, objs, s))
            else FiredAdds(x.conditional, F) == {} && FiredDels(x.conditional, F) == {}
    decreases es, 0
  {
    if es != [] {
      hide EffectAdds, EffectDels, FactsOf, WhenBody, CleanEffect, CleanSetting, GuardHolds, AllAdds, AllDels;
      WhenBodyMeans(es[0], b, c, depth, objs, s);
      WhenBodyAllMeans(es[1..], b, c, depth, objs, s);
      MergedMeans(WhenBody(es[0], b, c, depth).value, WhenBodyAll(es[1..], b, c, depth).value, FactsOf(s));
      BothSplits(es, b, objs, s);
    }
  }

  /** Flattening keeps the meaning: what fires adds and deletes exactly what the nested effect does. */
  lemma {:induction false} FlatteningPreservesEffect(e: Effect, b: Binding, objs: ObjectIndex, s: set<GroundAtom>)
    requires CleanEffect(e) && CleanSetting(b, s)
    requires BranchOf(e, b).Ok?
    ensures AllAdds(BranchOf(e, b).value, FactsOf(s)) == FactsOf(EffectAdds(e, b, objs, s))
    ensures AllDels(BranchOf(e, b).value, FactsOf(s)) == FactsOf(EffectDels(e, b, objs, s))
    decreases e, 0
  {
    match e
    case AddLit(a) => LiteralKey(a, b);
    case DelLit(a) => LiteralKey(a, b);
    case Both(es) => FlatteningAllPreservesEffect(es, b, objs, s);
    case When(cond, body) =>
      FlattenedGuardMeans(cond, b, objs, s);
      var c := Flatten(cond, b).value;
      WhenBodyMeans(body, b, c, 1, objs, s);
      var inner := WhenBody(body, b, c, 1).value;
      GuardedLast(inner, c, FactsOf(s));
    case _ =>
  }

  lemma {:induction false} FlatteningAllPreservesEffect(
    es: seq<Effect>, b: Binding, objs: ObjectIndex, s: set<GroundAtom>)
    requires forall i | 0 <= i < |es| :: CleanEffect(es[i])
    requires CleanSetting(b, s)
    requires BranchOfAll(es, b).Ok?
    ensures AllAdds(BranchOfAll(es, b).value, FactsOf(s)) == FactsOf(EffectAdds(Both(es), b, objs, s))
    ensures AllDels(BranchOfAll(es, b).value, FactsOf(s)) == FactsOf(EffectDels(Both(es), b, objs, s))
    decreases es, 0
  {
    if es != [] {
      FlatteningPreservesEffect(es[0], b, objs, s);
      FlatteningAllPreservesEffect(es[1..], b, objs, s);
      FiredAppend(BranchOf(es[0], b).value.conditional, BranchOfAll(es[1..], b).value.conditional, FactsOf(s));
      BothSplits(es, b, objs, s);
    }
  }

  /**
   * `(when c1 (when c2 e))` grounds like `(when (and c1 c2) e)`: the same conditionals,
   * then one more that changes nothing.
   */
  lemma NestedWhenConjoins(c1: GoalDesc, c2: GoalDesc, e: Effect, b: Binding)
    requires BranchOf(When(c1, When(c2, e)), b).Ok?
    requires BranchOf(When(And([c1, c2]), e), b).Ok?
    requires !HasWhen(e)
    ensures var nested, joint := BranchOf(When(c1, When(c2, e)), b).value, BranchOf(When(And([c1, c2]), e), b).value;
            var g := Flatten(c1, b).value;
            nested.conditional == joint.conditional + [GroundConditional(g.pos, g.neg, {}, {})]
            && nested.add == joint.add == {} && nested.del == joint.del == {}
  {
    var parts := [c1, c2];
    assert parts[1..] == [c2] && parts[1..][1..] == [];
    var g1, g2 := Flatten(c1, b).value, Flatten(c2, b).value;
    assert parts[1..][0] == c2;
    assert FlattenParts(parts[1..][1..], b) == Ok(Condition({}, {}));
    assert g2.pos + {} == g2.pos && g2.neg + {} == g2.neg;
    assert FlattenParts(parts[1..], b) == Ok(g2);
    WhenBodyIgnoresDepth(e, b, MergeCondition(g1, Ok(g2)).value, 1, 2);
    WhenFreeBody(e, b, MergeCondition(g1, Ok(g2)).value, 1);
    var d := MergeCondition(g1, Ok(g2)).value;
    assert Flatten(And(parts), b) == Ok(d);
    assert MergeCondition(g1, Flatten(c2, b)) == Ok(d);
    var inner := WhenBody(e, b, d, 1).value;
    var own := GroundConditional(d.pos, d.neg, inner.add, inner.del);
    var nested, joint := BranchOf(When(c1, When(c2, e)), b).value, BranchOf(When(And(parts), e), b).value;
    assert inner.conditional + [own] == [own];
    assert WhenBody(When(c2, e), b, g1, 1) == Ok(GroundBranch({}, {}, [own]));
    assert nested.conditional == [own] + [GroundConditional(g1.pos, g1.neg, {}, {})];
    assert joint.conditional == [own];
  }

  ghost predicate HasWhen(e: Effect) {
    match e
    case When(_, _) => true
    case Both(es) => exists i :: 0 <= i < |es| && HasWhen(es[i])
    case _ => false
  }

  lemma {:induction false} WhenBodyIgnoresDepth(e: Effect, b: Binding, c: Condition, m: nat, n: nat)
    requires !HasWhen(e)
    ensures WhenBody(e, b, c, m) == WhenBody(e, b, c, n)
    decreases e, 0
  {
    if e.Both? {
      WhenBodyAllIgnoresDepth(e.effects, b, c, m, n);
    }
  }

  lemma {:induction false} WhenBodyAllIgnoresDepth(es: seq<Effect>, b: Binding, c: Condition, m: nat, n: nat)
    requires forall i | 0 <= i < |es| :: !HasWhen(es[i])
    ensures WhenBodyAll(es, b, c, m) == WhenBodyAll(es, b, c, n)
    decreases es, 0
  {
    if es != [] {
      WhenBodyIgnoresDepth(es[0], b, c, m, n);
      WhenBodyAllIgnoresDepth(es[1..], b, c, m, n);
    }
  }

  lemma {:induction false} WhenFreeBody(e: Effect, b: Binding, c: Condition, depth: nat)
    requires !HasWhen(e) && WhenBody(e, b, c, depth).Ok?
    ensures WhenBody(e, b, c, depth).value.conditional == []
    decreases e, 0
  {
    if e.Both? {
      WhenFreeBodyAll(e.effects, b, c, depth);
    }
  }

  lemma {:induction false} WhenFreeBodyAll(es: seq<Effect>, b: Binding, c: Condition, depth: nat)
    requires (forall i | 0 <= i < |es| :: !HasWhen(es[i])) && WhenBodyAll(es, b, c, depth).Ok?
    ensures WhenBodyAll(es, b, c, depth).value.conditional == []
    decreases es, 0
  {
    if es != [] {
      WhenFreeBody(es[0], b, c, depth);
      WhenFreeBodyAll(es[1..], b, c, depth);
    }
  }

  lemma {:induction false} BranchesAt(es: seq<Effect>, b: Binding, i: nat)
    requires BranchesOf(es, b).Ok? && i < |es|
    ensures |BranchesOf(es, b).value| == |es| && BranchOf(es[i], b) == Ok(BranchesOf(es, b).value[i])
  {
    if i > 0 {
      BranchesAt(es[1..], b, i - 1);
    } else if |es| > 1 {
      BranchesAt(es[1..], b, 0);
    }
  }

  /** One outcome per alternative in order, each with exactly the alternative's adds and deletes. */
  lemma OutcomesPreserveEffects(e: Effect, b: Binding, objs: ObjectIndex, s: set<GroundAtom>, i: nat)
    requires OutcomesOf(e, b).Ok? && CleanSetting(b, s)
    requires var alternatives := if e.Oneof? then e.effects else [e];
             i < |alternatives| && CleanEffect(alternatives[i])
    ensures var alternatives, outs := if e.Oneof? then e.effects else [e], OutcomesOf(e, b).value;
            && |outs| == |alternatives|
            && AllAdds(outs[i], FactsOf(s)) == FactsOf(EffectAdds(alternatives[i], b, objs, s))
            && AllDels(outs[i], FactsOf(s)) == FactsOf(EffectDels(alternatives[i], b, objs, s))
  {
    if e.Oneof? {
      BranchesAt(e.effects, b, i);
      FlatteningPreservesEffect(e.effects[i], b, objs, s);
    } else {
      FlatteningPreservesEffect(e, b, objs, s);
    }
  }

  // ---- applying a ground effect ----

  /** Deletes then adds; then each conditional that fires in `source`, deletes then adds, in order. */
  function Apply(source: Facts, x: GroundBranch): Facts {
    ApplyConditionals(source - x.del + x.add, source, x.conditional)
  }

  function ApplyConditionals(next: Facts, source: Facts, cs: seq<GroundConditional>): Facts
    decreases |cs|
  {
    if cs == [] then next
    else ApplyConditionals(if Fires(cs[0], source) then next - cs[0].del + cs[0].add else next, source, cs[1..])
  }

  method ApplyEffectBranch(source: Facts, x: GroundBranch) returns (next: Facts)
    ensures next == Apply(source, x)
  {
    next := source - x.del;
    next := next + x.add;
    for i := 0 to |x.conditional|
      invariant ApplyConditionals(next, source, x.conditional[i..]) == Apply(source, x)
    {
      var c := x.conditional[i];
      assert x.conditional[i..][1..] == x.conditional[i + 1..];
      if c.posCond <= source && c.negCond !! source {
        next := next - c.del;
        next := next + c.add;
      }
    }
  }

  /** Group 0 is the unconditional part; group i + 1 is conditional i when it fires. */
  ghost predicate GroupAdds(x: GroundBranch, source: Facts, i: nat, f: string)
    requires i <= |x.conditional|
  {
    if i == 0 then f in x.add else Fires(x.conditional[i - 1], source) && f in x.conditional[i - 1].add
  }

  ghost predicate GroupTakes(x: GroundBranch, source: Facts, i: nat, f: string)
    requires i <= |x.conditional|
  {
    if i == 0 then f in x.del && f !in x.add
    else Fires(x.conditional[i - 1], source) && f in x.conditional[i - 1].del && f !in x.conditional[i - 1].add
  }

  /** Some group adds `f` and no later group takes it away. */
  ghost predicate AddedForGood(x: GroundBranch, source: Facts, f: string) {
    exists i :: 0 <= i <= |x.conditional| && GroupAdds(x, source, i, f) && NotTakenAfter(x, source, i, f)
  }

  ghost predicate NotTakenAfter(x: GroundBranch, source: Facts, i: int, f: string) {
    forall j | 0 <= j <= |x.conditional| && i < j :: !GroupTakes(x, source, j, f)
  }

  ghost predicate AddsSurvive(x: GroundBranch, source: Facts) {
    forall f | f in AllAdds(x, source) :: AddedForGood(x, source, f)
  }

  ghost predicate Takes(c: GroundConditional, source: Facts, f: string) {
    Fires(c, source) && f in c.del && f !in c.add
  }

  ghost predicate NoneTakesAfter(cs: seq<GroundConditional>, source: Facts, i: int, f: string) {
    forall j | 0 <= j < |cs| && i < j :: !Takes(cs[j], source, f)
  }

  ghost predicate SomeAddsForGood(cs: seq<GroundConditional>, source: Facts, f: string) {
    exists i :: 0 <= i < |cs| && Fires(cs[i], source) && f in cs[i].add && NoneTakesAfter(cs, source, i, f)
  }

  lemma {:induction false} ApplyConditionalsAt(next: Facts, source: Facts, cs: seq<GroundConditional>, f: string)
    ensures f in ApplyConditionals(next, source, cs) <==>
              (f in next && NoneTakesAfter(cs, source, -1, f)) || SomeAddsForGood(cs, source, f)
    decreases |cs|
  {
    if cs != [] {
      var rest := cs[1..];
      var next' := if Fires(cs[0], source) then next - cs[0].del + cs[0].add else next;
      ApplyConditionalsAt(next', source, rest, f);
      assert forall j | 0 <= j < |rest| :: rest[j] == cs[j + 1];
      assert forall j | 1 <= j < |cs| :: cs[j] == rest[j - 1];
      assert forall i | -1 <= i :: NoneTakesAfter(rest, source, i, f) <==> NoneTakesAfter(cs, source, i + 1, f) by {
        forall i | -1 <= i ensures NoneTakesAfter(rest, source, i, f) <==> NoneTakesAfter(cs, source, i + 1, f) {
          assert forall j | 0 <= j < |rest| && i < j :: rest[j] == cs[j + 1];
        }
      }
      assert NoneTakesAfter(cs, source, -1, f) <==> !Takes(cs[0], source, f) && NoneTakesAfter(cs, source, 0, f);
      if SomeAddsForGood(cs, source, f) {
        var i :| 0 <= i < |cs| && Fires(cs[i], source) && f in cs[i].add && NoneTakesAfter(cs, source, i, f);
        if i > 0 {
          assert NoneTakesAfter(rest, source, i - 1, f) && rest[i - 1] == cs[i];
        }
      }
      if SomeAddsForGood(rest, source, f) {
        var i :| 0 <= i < |rest| && Fires(rest[i], source) && f in rest[i].add && NoneTakesAfter(rest, source, i, f);
        assert cs[i + 1] == rest[i] && NoneTakesAfter(cs, source, i + 1, f);
      }
    }
  }

  lemma {:induction false} FiredMember(cs: seq<GroundConditional>, source: Facts, f: string)
    ensures f in FiredAdds(cs, source) <==> exists i :: 0 <= i < |cs| && Fires(cs[i], source) && f in cs[i].add
    ensures f in FiredDels(cs, source) <==> exists i :: 0 <= i < |cs| && Fires(cs[i], source) && f in cs[i].del
  {
    if cs != [] {
      FiredMember(cs[1..], source, f);
      assert forall j | 0 <= j < |cs[1..]| :: cs[1..][j] == cs[j + 1];
      assert forall j | 1 <= j < |cs| :: cs[j] == cs[1..][j - 1];
    }
  }

  /** A fact holds afterwards iff the last group that touches it adds it, or none takes it and it held. */
  lemma ApplyAt(source: Facts, x: GroundBranch, f: string)
    ensures f in Apply(source, x) <==> (f in source && NotTakenAfter(x, source, -1, f)) || AddedForGood(x, source, f)
  {
    var cs := x.conditional;
    ApplyConditionalsAt(source - x.del + x.add, source, cs, f);
    assert forall j | 0 <= j < |cs| :: GroupTakes(x, source, j + 1, f) == Takes(cs[j], source, f);
    assert forall j | 1 <= j <= |cs| :: GroupTakes(x, source, j, f) == Takes(cs[j - 1], source, f);
    forall i | -1 <= i <= |cs| ensures NoneTakesAfter(cs, source, i, f) <==> NotTakenAfter(x, source, i + 1, f) {
      assert forall j | 0 <= j < |cs| && i < j :: GroupTakes(x, source, j + 1, f) == Takes(cs[j], source, f);
    }
    assert NotTakenAfter(x, source, -1, f) <==> !GroupTakes(x, source, 0, f) && NotTakenAfter(x, source, 0, f);
    if SomeAddsForGood(cs, source, f) {
      var i :| 0 <= i < |cs| && Fires(cs[i], source) && f in cs[i].add && NoneTakesAfter(cs, source, i, f);
      assert GroupAdds(x, source, i + 1, f) && NotTakenAfter(x, source, i + 1, f);
    }
    if AddedForGood(x, source, f) {
      var i :| 0 <= i <= |cs| && GroupAdds(x, source, i, f) && NotTakenAfter(x, source, i, f);
      if i > 0 {
        assert Fires(cs[i - 1], source) && f in cs[i - 1].add && NoneTakesAfter(cs, source, i - 1, f);
      }
    }
    assert GroupTakes(x, source, 0, f) == (f in x.del && f !in x.add);
    assert GroupAdds(x, source, 0, f) == (f in x.add);
    assert f in x.add && NotTakenAfter(x, source, 0, f) ==> AddedForGood(x, source, f);
  }

  /**
   * The in-order application is the simultaneous one, `(source - deletes) + adds`,
   * exactly when no added fact is taken away for good by a later conditional.
   */
  lemma ApplyIsSimultaneousIff(source: Facts, x: GroundBranch)
    ensures Apply(source, x) == source - AllDels(x, source) + AllAdds(x, source) <==> AddsSurvive(x, source)
  {
    var sim := source - AllDels(x, source) + AllAdds(x, source);
    forall f: string ensures f in Apply(source, x) <==> f in sim && (f in AllAdds(x, source) ==> AddedForGood(x, source, f)) {
      if f in AllAdds(x, source) {
        ApplyAddedAt(source, x, f);
      } else {
        ApplyUnaddedAt(source, x, f);
      }
    }
    if !AddsSurvive(x, source) {
      var f :| f in AllAdds(x, source) && !AddedForGood(x, source, f);
      assert f in sim && f !in Apply(source, x);
    }
  }

  lemma ApplyUnaddedAt(source: Facts, x: GroundBranch, f: string)
    requires f !in AllAdds(x, source)
    ensures f in Apply(source, x) <==> f in source && f !in AllDels(x, source)
  {
    ApplyAt(source, x, f);
    FiredMember(x.conditional, source, f);
    var cs := x.conditional;
    assert forall i | 0 <= i <= |cs| :: !GroupAdds(x, source, i, f);
    if f in FiredDels(cs, source) {
      var i :| 0 <= i < |cs| && Fires(cs[i], source) && f in cs[i].del;
      assert GroupTakes(x, source, i + 1, f);
    }
    if f in x.del {
      assert GroupTakes(x, source, 0, f);
    }
  }

  lemma ApplyAddedAt(source: Facts, x: GroundBranch, f: string)
    requires f in AllAdds(x, source)
    ensures f in Apply(source, x) <==> AddedForGood(x, source, f)
  {
    ApplyAt(source, x, f);
    FiredMember(x.conditional, source, f);
    if f in source && NotTakenAfter(x, source, -1, f) {
      if f in x.add {
        assert GroupAdds(x, source, 0, f) && NotTakenAfter(x, source, 0, f);
      } else {
        var k :| 0 <= k < |x.conditional| && Fires(x.conditional[k], source) && f in x.conditional[k].add;
        assert GroupAdds(x, source, k + 1, f) && NotTakenAfter(x, source, k + 1, f);
      }
    }
  }

  /** `(and (p) (when (q) (not (p))))` in `{q}`: the delete comes last, so `p` is lost. */
  lemma LaterDeleteBeatsAdd()
    ensures var x := GroundBranch({"p"}, {}, [GroundConditional({"q"}, {}, {}, {"p"})]);
            Apply({"q"}, x) == {"q"} && {"q"} - AllDels(x, {"q"}) + AllAdds(x, {"q"}) == {"q", "p"}
  {
    var c := GroundConditional({"q"}, {}, {}, {"p"});
    var x := GroundBranch({"p"}, {}, [c]);
    assert x.conditional[1..] == [];
    assert Fires(c, {"q"});
    assert "p"[0] != "q"[0];
    assert ApplyConditionals({"q"}, {"q"}, []) == {"q"};
    assert {"q"} - {} + {"p"} - {"p"} + {} == {"q"};
  }

  /** Whatever order is used, applying a branch adds nothing beyond its adds. */
  lemma ApplyAddsOnly(source: Facts, x: GroundBranch, f: string)
    requires f in Apply(source, x)
    ensures f in source || f in x.add || exists i :: 0 <= i < |x.conditional| && f in x.conditional[i].add
  {
    ApplyAt(source, x, f);
    if AddedForGood(x, source, f) {
      var i :| 0 <= i <= |x.conditional| && GroupAdds(x, source, i, f);
      if i > 0 {
        assert f in x.conditional[i - 1].add;
      }
    }
  }
}
