// The type hierarchy: the ancestor search, the subtype closure, and the typed object universe.
module TypeClosure {
  import opened Prelude
  import opened HddlAst
  import opened Bindings

  type Parents = map<Name, set<Name>>

  const OBJECT: Name := "object"

  function ParentsOf(types: Parents, t: Name): set<Name> {
    if t in types then types[t] else {}
  }

  // ---- paths in the hierarchy ----

  /** Each element is a declared parent of the one before it. */
  ghost predicate IsPath(types: Parents, path: seq<Name>) {
    path != [] && forall i | 0 <= i < |path| - 1 :: path[i + 1] in ParentsOf(types, path[i])
  }

  ghost predicate PathFromTo(types: Parents, path: seq<Name>, a: Name, b: Name) {
    IsPath(types, path) && path[0] == a && path[|path| - 1] == b
  }

  /** `b` is `a` or one of its transitive ancestors. */
  ghost predicate Reaches(types: Parents, a: Name, b: Name) {
    exists path :: PathFromTo(types, path, a, b)
  }

  ghost predicate OnCycle(types: Parents, t: Name) {
    exists p :: p in ParentsOf(types, t) && Reaches(types, p, t)
  }

  ghost predicate ReachesCycle(types: Parents, a: Name) {
    exists t :: Reaches(types, a, t) && OnCycle(types, t)
  }

  lemma ReachesSelf(types: Parents, a: Name)
    ensures Reaches(types, a, a)
  {
    assert PathFromTo(types, [a], a, a);
  }

  lemma ReachesParent(types: Parents, a: Name, b: Name, c: Name)
    requires Reaches(types, a, b) && c in ParentsOf(types, b)
    ensures Reaches(types, a, c)
  {
    var path :| PathFromTo(types, path, a, b);
    assert PathFromTo(types, path + [c], a, c);
  }

  lemma ReachesFromChild(types: Parents, a: Name, b: Name, c: Name)
    requires b in ParentsOf(types, a) && Reaches(types, b, c)
    ensures Reaches(types, a, c)
  {
    var path :| PathFromTo(types, path, b, c);
    assert PathFromTo(types, [a] + path, a, c);
  }

  ghost predicate ClosedUnderParents(types: Parents, s: set<Name>) {
    forall t | t in s :: ParentsOf(types, t) <= s
  }

  lemma {:induction false} ClosedPathStays(types: Parents, s: set<Name>, path: seq<Name>, i: nat)
    requires ClosedUnderParents(types, s) && IsPath(types, path) && path[0] in s && i < |path|
    ensures path[i] in s
  {
    if i > 0 {
      ClosedPathStays(types, s, path, i - 1);
      assert path[i - 1 + 1] in ParentsOf(types, path[i - 1]);
    }
  }

  lemma ClosedHasReachable(types: Parents, s: set<Name>, a: Name, b: Name)
    requires ClosedUnderParents(types, s) && a in s && Reaches(types, a, b)
    ensures b in s
  {
    var path :| PathFromTo(types, path, a, b);
    ClosedPathStays(types, s, path, |path| - 1);
  }

  // ---- finishing order: a certificate that the finished part has no cycle ----

  /** Every type comes after all of its parents. */
  ghost predicate FinishingOrder(types: Parents, done: seq<Name>) {
    && Unrepeated(done)
    && forall i | 0 <= i < |done| :: ParentsOf(types, done[i]) <= Elems(done[..i])
  }

  lemma FinishedIsClosed(types: Parents, done: seq<Name>)
    requires FinishingOrder(types, done)
    ensures ClosedUnderParents(types, Elems(done))
  {
    forall t, p | t in Elems(done) && p in ParentsOf(types, t) ensures p in Elems(done) {
      var i :| 0 <= i < |done| && done[i] == t;
      assert p in Elems(done[..i]);
      assert p in done[..i];
    }
  }

  /** Along a path that starts in a finishing order, positions strictly drop. */
  lemma {:induction false} PathDescends(types: Parents, done: seq<Name>, path: seq<Name>, i: nat) returns (j: nat)
    requires FinishingOrder(types, done) && i < |done|
    requires IsPath(types, path) && path[0] == done[i]
    ensures j <= i && done[j] == path[|path| - 1] && (|path| > 1 ==> j < i)
    decreases |path|
  {
    if |path| == 1 {
      j := i;
    } else {
      assert path[0 + 1] in ParentsOf(types, path[0]);
      assert path[1] in done[..i];
      var k :| 0 <= k < i && done[k] == path[1];
      var rest := path[1..];
      forall x | 0 <= x < |rest| - 1 ensures rest[x + 1] in ParentsOf(types, rest[x]) {
        assert path[x + 1 + 1] in ParentsOf(types, path[x + 1]);
      }
      j := PathDescends(types, done, rest, k);
    }
  }

  lemma FinishedHasNoCycle(types: Parents, done: seq<Name>, a: Name)
    requires FinishingOrder(types, done) && a in done
    ensures !ReachesCycle(types, a)
  {
    FinishedIsClosed(types, done);
    forall t | Reaches(types, a, t) ensures !OnCycle(types, t) {
      ClosedHasReachable(types, Elems(done), a, t);
      if p :| p in ParentsOf(types, t) && Reaches(types, p, t) {
        var path :| PathFromTo(types, path, p, t);
        var i :| 0 <= i < |done| && done[i] == t;
        assert IsPath(types, [t] + path);
        var j := PathDescends(types, done, [t] + path, i);
      }
    }
  }

  // ---- the white/grey/black search ----

  /** The search state: grey types are on the current path, black ones are finished, `out` lists visits. */
  datatype Walk = Walk(grey: set<Name>, black: set<Name>, out: seq<Name>)

  ghost function TypeNames(types: Parents, start: Name): set<Name> {
    {start} + types.Keys + (set t, p | t in types && p in types[t] :: p)
  }

  /** What holds between visits: `trail` is the current path and `done` the order in which types finished. */
  ghost predicate WalkInvariant(types: Parents, start: Name, trail: seq<Name>, done: seq<Name>, w: Walk) {
    && w.grey == Elems(trail) && w.black == Elems(done) && w.grey !! w.black
    && FinishingOrder(types, done)
    && Unrepeated(w.out) && Elems(w.out) == w.grey + w.black
    && w.grey + w.black <= TypeNames(types, start)
    && (forall t | t in w.grey + w.black :: Reaches(types, start, t))
  }

  /** A parent already on the trail closes a cycle through that parent. */
  lemma TrailCycle(types: Parents, trail: seq<Name>, parent: Name)
    requires IsPath(types, trail) && parent in trail && parent in ParentsOf(types, trail[|trail| - 1])
    ensures OnCycle(types, parent)
  {
    var i :| 0 <= i < |trail| && trail[i] == parent;
    var last := trail[|trail| - 1];
    var back := trail[i..];
    assert PathFromTo(types, back, parent, last);
    if i == |trail| - 1 {
      ReachesSelf(types, parent);
    } else {
      assert trail[i + 1] in ParentsOf(types, parent);
      assert PathFromTo(types, trail[i + 1..], trail[i + 1], last);
      ReachesParent(types, trail[i + 1], last, parent);
    }
  }

  /** Finishing a type whose parents are all finished extends the finishing order. */
  lemma FinishOne(types: Parents, done: seq<Name>, t: Name)
    requires FinishingOrder(types, done) && t !in done && ParentsOf(types, t) <= Elems(done)
    ensures FinishingOrder(types, done + [t])
  {
    var done' := done + [t];
    forall i | 0 <= i < |done'| ensures ParentsOf(types, done'[i]) <= Elems(done'[..i]) {
      if i < |done| {
        assert done'[..i] == done[..i];
      } else {
        assert done'[..i] == done;
      }
    }
  }

  /**
   * Visits `current`, then its unfinished parents. Success finishes exactly what `current`
   * reaches; a failure names a type that lies on a cycle reachable from the start.
   */
  method Visit(
    current: Name, types: Parents, ghost start: Name, ghost trail: seq<Name>, ghost done0: seq<Name>, w0: Walk)
    returns (r: Result<Walk, GroundError>, ghost done: seq<Name>)
    requires WalkInvariant(types, start, trail, done0, w0)
    requires current !in w0.grey && current !in w0.black && current in TypeNames(types, start)
    requires IsPath(types, trail + [current]) && Reaches(types, start, current)
    ensures r.Ok? ==> WalkInvariant(types, start, trail, done, r.value)
    ensures r.Ok? ==> r.value.grey == w0.grey && w0.black + {current} <= r.value.black && w0.out + [current] <= r.value.out
    ensures r.Ok? ==> forall t | t in r.value.black && t !in w0.black :: Reaches(types, current, t)
    ensures r.Err? ==> r.error.TypeCycle? && Reaches(types, start, r.error.ty) && OnCycle(types, r.error.ty)
    decreases TypeNames(types, start) - w0.grey - w0.black
  {
    hide Reaches, OnCycle, IsPath, TypeNames, FinishingOrder;
    done := done0;
    ghost var here := trail + [current];
    var w := Walk(w0.grey + {current}, w0.black, w0.out + [current]);
    UnrepeatedSnoc(w0.out, current);
    ReachesSelf(types, current);
    var todo := ParentsOf(types, current);
    while todo != {}
      invariant todo <= ParentsOf(types, current)
      invariant WalkInvariant(types, start, here, done, w)
      invariant w.grey == w0.grey + {current} && w0.black <= w.black && w0.out + [current] <= w.out
      invariant ParentsOf(types, current) - todo <= w.black
      invariant forall t | t in w.black && t !in w0.black :: Reaches(types, current, t)
      decreases todo
    {
      var parent :| parent in todo;
      todo := todo - {parent};
      ReachesParent(types, start, current, parent);
      if parent in w.grey {
        TrailCycle(types, here, parent);
        return Err(TypeCycle(parent)), done;
      }
      if parent !in w.black {
        ParentIsType(types, start, current, parent);
        StepAlong(types, here, parent);
        ghost var before := w;
        Shrinks(TypeNames(types, start), w0, w, current);
        var v, done' := Visit(parent, types, start, here, done, w);
        if v.Err? {
          return v, done;
        }
        w, done := v.value, done';
        forall t | t in w.black && t !in w0.black ensures Reaches(types, current, t) {
          if t !in before.black {
            ReachesFromChild(types, current, parent, t);
          }
        }
      }
    }
    FinishOne(types, done, current);
    done := done + [current];
    r := Ok(Walk(w.grey - {current}, w.black + {current}, w.out));
  }

  lemma Shrinks(names: set<Name>, w0: Walk, w: Walk, current: Name)
    requires current in names && current !in w0.grey && current !in w0.black
    requires w.grey == w0.grey + {current} && w0.black <= w.black
    ensures names - w.grey - w.black < names - w0.grey - w0.black
  {
    assert current in names - w0.grey - w0.black;
    assert current !in names - w.grey - w.black;
  }

  lemma ParentIsType(types: Parents, start: Name, t: Name, p: Name)
    requires p in ParentsOf(types, t)
    ensures p in TypeNames(types, start)
  {
  }

  lemma StepAlong(types: Parents, here: seq<Name>, p: Name)
    requires IsPath(types, here) && p in ParentsOf(types, here[|here| - 1])
    ensures IsPath(types, here + [p])
  {
  }

  /** `u` is a subtype of `t`: `t` itself, a transitive ancestor, or the top type. */
  ghost predicate IsSubtype(types: Parents, u: Name, t: Name) {
    Reaches(types, u, t) || t == OBJECT
  }

  /**
   * The ancestors of a type, each visited once, ending with `object`: it succeeds exactly when no
   * cycle is reachable, and a failure names a type on a reachable cycle.
   */
  method AncestorsOf(t: Name, types: Parents) returns (r: Result<seq<Name>, GroundError>)
    ensures r.Ok? <==> !ReachesCycle(types, t)
    ensures r.Ok? ==> forall u :: u in r.value <==> IsSubtype(types, t, u)
    ensures r.Ok? ==> |r.value| > 0 && r.value[|r.value| - 1] == OBJECT && Unrepeated(r.value[..|r.value| - 1])
    ensures r.Err? ==> r.error.TypeCycle? && Reaches(types, t, r.error.ty) && OnCycle(types, r.error.ty)
  {
    ReachesSelf(types, t);
    var v, done := Visit(t, types, t, [], [], Walk({}, {}, []));
    if v.Err? {
      return Err(v.error);
    }
    var chain := v.value.out;
    assert Elems(chain) == v.value.black == Elems(done);
    assert chain[0] == t;
    FinishedIsClosed(types, done);
    assert t in done;
    FinishedHasNoCycle(types, done, t);
    forall u ensures u in chain <==> Reaches(types, t, u) {
      if Reaches(types, t, u) {
        ClosedHasReachable(types, Elems(done), t, u);
        assert u in Elems(chain);
      }
      if u in chain {
        assert u in Elems(chain);
      }
    }
    if chain[|chain| - 1] != OBJECT {
      assert (chain + [OBJECT])[..|chain|] == chain;
      chain := chain + [OBJECT];
    }
    r := Ok(chain);
  }

  // ---- the closure ----

  function ParamTypes(params: seq<TypedParam>): set<Name> {
    set p | p in params :: p.ty
  }

  /** The types the closure knows: declared edges, parameter types and constant types. */
  function KnownTypes(d: Domain): set<Name> {
    {OBJECT} + d.parents.Keys
    + (set t, p | t in d.parents && p in d.parents[t] :: p)
    + (set x, t | x in d.predicates && t in ParamTypes(x.params) :: t)
    + (set x, t | x in d.tasks && t in ParamTypes(x.params) :: t)
    + (set x, t | x in d.actions && t in ParamTypes(x.params) :: t)
    + (set x, t | x in d.methods && t in ParamTypes(x.params) :: t)
    + (set o | o in d.constants :: o.ty)
  }

  ghost predicate TypesAParam(params: seq<TypedParam>, t: Name) {
    exists p :: p in params && p.ty == t
  }

  /** The type stands in the hierarchy, types a parameter of a declaration, or types a constant. */
  ghost predicate Mentioned(d: Domain, t: Name) {
    || t == OBJECT || t in d.parents
    || (exists c :: c in d.parents && t in d.parents[c])
    || (exists x :: x in d.predicates && TypesAParam(x.params, t))
    || (exists x :: x in d.tasks && TypesAParam(x.params, t))
    || (exists x :: x in d.actions && TypesAParam(x.params, t))
    || (exists x :: x in d.methods && TypesAParam(x.params, t))
    || (exists o :: o in d.constants && o.ty == t)
  }

  lemma KnownIsMentioned(d: Domain, t: Name)
    ensures t in KnownTypes(d) <==> Mentioned(d, t)
  {
    assert forall ps: seq<TypedParam> :: t in ParamTypes(ps) <==> TypesAParam(ps, t);
    hide ParamTypes, TypesAParam;
  }

  /** Exactly the known types, each with exactly its known subtypes. */
  ghost predicate IsClosure(d: Domain, closure: map<Name, set<Name>>) {
    && closure.Keys == KnownTypes(d)
    && forall t, u :: t in closure ==> (u in closure[t] <==> u in KnownTypes(d) && IsSubtype(d.parents, u, t))
  }

  lemma KnownTypesAreClosed(d: Domain, u: Name, t: Name)
    requires u in KnownTypes(d) && IsSubtype(d.parents, u, t)
    ensures t in KnownTypes(d)
  {
    if Reaches(d.parents, u, t) {
      ClosedHasReachable(d.parents, KnownTypes(d), u, t);
    }
  }

  /** No known type reaches a cycle of the hierarchy. */
  ghost predicate IsAcyclic(d: Domain) {
    forall t | t in KnownTypes(d) :: !ReachesCycle(d.parents, t)
  }

  /**
   * The inverse of the ancestor relation on the known types; it fails exactly when one of them
   * reaches a cycle.
   */
  method BuildTypeClosure(d: Domain) returns (r: Result<map<Name, set<Name>>, GroundError>)
    ensures r.Ok? <==> IsAcyclic(d)
    ensures r.Ok? ==> IsClosure(d, r.value)
    ensures r.Err? ==> r.error.TypeCycle? && OnCycle(d.parents, r.error.ty)
  {
    hide ReachesCycle, IsSubtype, OnCycle, Reaches, KnownTypes;
    var known := KnownTypes(d);
    var descendants: map<Name, set<Name>> := map t | t in known :: {};
    var todo := known;
    while todo != {}
      invariant todo <= known && descendants.Keys == known
      invariant forall t | t in known && t !in todo :: !ReachesCycle(d.parents, t)
      invariant forall t, u :: t in known ==>
                  (u in descendants[t] <==> u in known && u !in todo && IsSubtype(d.parents, u, t))
      decreases todo
    {
      var ty :| ty in todo;
      todo := todo - {ty};
      var chain := AncestorsOf(ty, d.parents);
      if chain.Err? {
        return Err(chain.error);
      }
      descendants := AddToAll(d, descendants, chain.value, ty);
    }
    r := Ok(descendants);
  }

  /** Adds `ty` to the entry of each of its ancestors. */
  method AddToAll(d: Domain, descendants0: map<Name, set<Name>>, chain: seq<Name>, ty: Name)
    returns (descendants: map<Name, set<Name>>)
    requires descendants0.Keys == KnownTypes(d) && ty in KnownTypes(d)
    requires forall u :: u in chain <==> IsSubtype(d.parents, ty, u)
    ensures descendants.Keys == KnownTypes(d)
    ensures forall t | t in KnownTypes(d) ::
              descendants[t] == descendants0[t] + if IsSubtype(d.parents, ty, t) then {ty} else {}
  {
    hide KnownTypes, IsSubtype;
    descendants := descendants0;
    for i := 0 to |chain|
      invariant AddedTo(descendants0, descendants, chain[..i], ty)
    {
      assert chain[i] in chain;
      KnownTypesAreClosed(d, ty, chain[i]);
      AddedNext(descendants0, descendants, chain, i, ty);
      descendants := descendants[chain[i] := descendants[chain[i]] + {ty}];
    }
    assert chain[..|chain|] == chain;
  }

  /** `ty` has been added to the entries of these types. */
  ghost predicate AddedTo(
    before: map<Name, set<Name>>, after: map<Name, set<Name>>, types: seq<Name>, ty: Name)
  {
    && after.Keys == before.Keys
    && forall t | t in before :: after[t] == before[t] + if t in types then {ty} else {}
  }

  lemma AddedNext(
    before: map<Name, set<Name>>, after: map<Name, set<Name>>, chain: seq<Name>, i: nat, ty: Name)
    requires i < |chain| && chain[i] in before && AddedTo(before, after, chain[..i], ty)
    ensures AddedTo(before, after[chain[i] := after[chain[i]] + {ty}], chain[..i + 1], ty)
  {
    assert chain[..i + 1] == chain[..i] + [chain[i]];
    assert forall t :: t in chain[..i + 1] <==> t in chain[..i] || t == chain[i];
  }

  // ---- the typed object universe ----

  /** Code-point order on names. */
  predicate NameLeq(a: Name, b: Name) {
    a == "" || (b != "" && (a[0] < b[0] || (a[0] == b[0] && NameLeq(a[1..], b[1..]))))
  }

  function InsertByName(o: TypedObject, s: seq<TypedObject>): (r: seq<TypedObject>)
    ensures multiset(r) == multiset(s) + multiset{o}
  {
    if s == [] then [o]
    else if NameLeq(o.name, s[0].name) then [o] + s
    else
      assert s == [s[0]] + s[1..];
      [s[0]] + InsertByName(o, s[1..])
  }

  /** Stands for the library's stable sort by name. */
  function SortByName(s: seq<TypedObject>): (r: seq<TypedObject>)
    ensures multiset(r) == multiset(s)
  {
    if s == [] then []
    else
      assert s == [s[0]] + s[1..];
      InsertByName(s[0], SortByName(s[1..]))
  }

  lemma {:induction false} NameLeqTotal(a: Name, b: Name)
    ensures NameLeq(a, b) || NameLeq(b, a)
    ensures NameLeq(a, b) && NameLeq(b, a) ==> a == b
  {
    if a != "" && b != "" && a[0] == b[0] {
      NameLeqTotal(a[1..], b[1..]);
      assert a == [a[0]] + a[1..] && b == [b[0]] + b[1..];
    }
  }

  /** Names are compared at the first place where they differ; a proper beginning comes first. */
  lemma {:induction false} NameLeqIff(a: Name, b: Name)
    ensures NameLeq(a, b) <==> a <= b || exists i :: FirstDifference(a, b, i) && a[i] < b[i]
  {
    if a != "" && b != "" {
      var c, d := a[1..], b[1..];
      NameLeqIff(c, d);
      assert a == [a[0]] + c && b == [b[0]] + d;
      if a[0] == b[0] {
        assert a <= b <==> c <= d;
        if i :| FirstDifference(c, d, i) && c[i] < d[i] {
          assert a[i + 1] == c[i] && b[i + 1] == d[i] && a[..i + 1] == [a[0]] + c[..i] && b[..i + 1] == [b[0]] + d[..i];
          assert FirstDifference(a, b, i + 1);
        }
        if i :| FirstDifference(a, b, i) && a[i] < b[i] {
          assert c[i - 1] == a[i] && d[i - 1] == b[i] && c[..i - 1] == a[1..i] && d[..i - 1] == b[1..i];
          assert a[1..i] == a[..i][1..] && b[1..i] == b[..i][1..];
          assert FirstDifference(c, d, i - 1);
        }
      } else {
        assert a[..0] == b[..0] && FirstDifference(a, b, 0);
        assert forall i | FirstDifference(a, b, i) :: i == 0 by {
          forall i | FirstDifference(a, b, i) ensures i == 0 {
            EqualBefore(a, b, i);
          }
        }
      }
    }
  }

  lemma EqualBefore(a: Name, b: Name, i: int)
    requires FirstDifference(a, b, i)
    ensures forall j | 0 <= j < i :: a[j] == b[j]
  {
    assert forall j | 0 <= j < i :: a[j] == a[..i][j] && b[j] == b[..i][j];
  }

  ghost predicate FirstDifference(a: Name, b: Name, i: int) {
    0 <= i < |a| && i < |b| && a[..i] == b[..i] && a[i] != b[i]
  }

  lemma {:induction false} NameLeqTransitive(a: Name, b: Name, c: Name)
    requires NameLeq(a, b) && NameLeq(b, c)
    ensures NameLeq(a, c)
  {
    if a != "" && a[0] == b[0] == c[0] {
      NameLeqTransitive(a[1..], b[1..], c[1..]);
    }
  }

  ghost predicate InNameOrder(s: seq<TypedObject>) {
    forall i, j | 0 <= i < j < |s| :: NameLeq(s[i].name, s[j].name)
  }

  function WithName(n: Name): TypedObject -> bool {
    (o: TypedObject) => o.name == n
  }

  lemma ConsKeepsOrder(o: TypedObject, s: seq<TypedObject>)
    requires InNameOrder(s) && forall x | x in s :: NameLeq(o.name, x.name)
    ensures InNameOrder([o] + s)
  {
  }

  lemma InInserted(o: TypedObject, s: seq<TypedObject>, x: TypedObject)
    requires x in InsertByName(o, s)
    ensures x == o || x in s
  {
    assert x in multiset(InsertByName(o, s));
    assert x == o || x in multiset(s);
  }

  lemma {:induction false} InsertKeepsOrder(o: TypedObject, s: seq<TypedObject>)
    requires InNameOrder(s)
    ensures InNameOrder(InsertByName(o, s))
  {
    if s == [] {
    } else if NameLeq(o.name, s[0].name) {
      hide NameLeq;
      forall x | x in s ensures NameLeq(o.name, x.name) {
        NameLeqTotal(x.name, x.name);
        NameLeqTransitive(o.name, s[0].name, x.name);
      }
      ConsKeepsOrder(o, s);
    } else {
      hide NameLeq;
      var rest := InsertByName(o, s[1..]);
      InsertKeepsOrder(o, s[1..]);
      NameLeqTotal(o.name, s[0].name);
      forall x | x in rest ensures NameLeq(s[0].name, x.name) {
        InInserted(o, s[1..], x);
      }
      ConsKeepsOrder(s[0], rest);
    }
  }

  lemma {:induction false} InsertIsStable(o: TypedObject, s: seq<TypedObject>, n: Name)
    ensures Filter(InsertByName(o, s), WithName(n)) == Filter([o] + s, WithName(n))
  {
    if s != [] && !NameLeq(o.name, s[0].name) {
      InsertIsStable(o, s[1..], n);
      NameLeqTotal(o.name, s[0].name);
      assert ([o] + s[1..])[1..] == s[1..] && ([o] + s)[1..] == s;
    }
  }

  /** The sort orders by name and keeps objects of one name in their order. */
  lemma {:induction false} SortByNameIsStableSort(s: seq<TypedObject>, n: Name)
    ensures InNameOrder(SortByName(s))
    ensures Filter(SortByName(s), WithName(n)) == Filter(s, WithName(n))
  {
    if s != [] {
      var sorted := SortByName(s[1..]);
      SortByNameIsStableSort(s[1..], n);
      InsertKeepsOrder(s[0], sorted);
      InsertIsStable(s[0], sorted, n);
      assert ([s[0]] + sorted)[1..] == sorted;
    }
  }

  lemma {:induction false} FilterKeepsOrder(s: seq<TypedObject>, keep: TypedObject -> bool)
    requires InNameOrder(s)
    ensures InNameOrder(Filter(s, keep))
  {
    if s != [] {
      FilterKeepsOrder(s[1..], keep);
      if keep(s[0]) {
        ConsKeepsOrder(s[0], Filter(s[1..], keep));
      }
    }
  }

  function OfTypes(types: set<Name>): TypedObject -> bool {
    (o: TypedObject) => o.ty in types
  }

  /** The objects listed for a type: those whose declared type is one of its known subtypes. */
  function ListedObjects(d: Domain, p: Problem, types: set<Name>): seq<TypedObject> {
    Filter(SortByName(d.constants + p.objects), OfTypes(types))
  }

  function NamesOf(s: seq<TypedObject>): seq<Name> {
    seq(|s|, i requires 0 <= i < |s| => s[i].name)
  }

  function IndexObjects(d: Domain, p: Problem, closure: map<Name, set<Name>>): ObjectIndex {
    map t | t in closure :: NamesOf(ListedObjects(d, p, closure[t]))
  }

  /** Each type's objects are listed in name order. */
  lemma IndexIsInNameOrder(d: Domain, p: Problem, closure: map<Name, set<Name>>, t: Name)
    requires t in closure
    ensures var names := IndexObjects(d, p, closure)[t];
            forall i, j | 0 <= i < j < |names| :: NameLeq(names[i], names[j])
  {
    SortByNameIsStableSort(d.constants + p.objects, "");
    FilterKeepsOrder(SortByName(d.constants + p.objects), OfTypes(closure[t]));
  }

  /** How many of the declarations have this name and one of these types. */
  ghost function TimesDeclared(s: seq<TypedObject>, types: set<Name>, n: Name): nat {
    if s == [] then 0
    else (if s[0].name == n && s[0].ty in types then 1 else 0) + TimesDeclared(s[1..], types, n)
  }

  lemma {:induction false} FilterCounts(s: seq<TypedObject>, types: set<Name>, n: Name)
    ensures multiset(NamesOf(Filter(s, OfTypes(types))))[n] == TimesDeclared(s, types, n)
  {
    if s != [] {
      var rest := Filter(s[1..], OfTypes(types));
      FilterCounts(s[1..], types, n);
      if s[0].ty in types {
        assert NamesOf([s[0]] + rest) == [s[0].name] + NamesOf(rest);
      }
    }
  }

  lemma {:induction false} OnlyNamedCount(s: seq<TypedObject>, types: set<Name>, n: Name)
    ensures TimesDeclared(Filter(s, WithName(n)), types, n) == TimesDeclared(s, types, n)
  {
    if s != [] {
      OnlyNamedCount(s[1..], types, n);
      var named := Filter(s[1..], WithName(n));
      assert ([s[0]] + named)[1..] == named;
    }
  }

  /** Each name is listed for a type exactly as often as it is declared with one of the type's known subtypes. */
  lemma ListedAsOftenAsDeclared(d: Domain, p: Problem, closure: map<Name, set<Name>>, t: Name, n: Name)
    requires t in closure
    ensures multiset(IndexObjects(d, p, closure)[t])[n] == TimesDeclared(d.constants + p.objects, closure[t], n)
  {
    var all := d.constants + p.objects;
    FilterCounts(SortByName(all), closure[t], n);
    SortByNameIsStableSort(all, n);
    OnlyNamedCount(SortByName(all), closure[t], n);
    OnlyNamedCount(all, closure[t], n);
  }

  /** Two declarations of one name, both with one of these types. */
  ghost predicate DeclaredTwice(s: seq<TypedObject>, types: set<Name>) {
    exists i, j | 0 <= i < j < |s| :: s[i].name == s[j].name && s[i].ty in types && s[j].ty in types
  }

  lemma {:induction false} DeclaredIff(s: seq<TypedObject>, types: set<Name>, n: Name)
    ensures TimesDeclared(s, types, n) > 0 <==> exists i :: 0 <= i < |s| && s[i].name == n && s[i].ty in types
  {
    if s != [] {
      DeclaredIff(s[1..], types, n);
      assert forall i | 1 <= i < |s| :: s[i] == s[1..][i - 1];
    }
  }

  /** Places of two declarations of one name, both with one of these types. */
  ghost predicate AtBoth(s: seq<TypedObject>, types: set<Name>, n: Name, i: int, j: int) {
    0 <= i < j < |s| && s[i].name == n == s[j].name && s[i].ty in types && s[j].ty in types
  }

  lemma {:induction false} TwoPlaces(s: seq<TypedObject>, types: set<Name>, n: Name)
    ensures TimesDeclared(s, types, n) > 1 <==> exists i, j :: AtBoth(s, types, n, i, j)
  {
    if s != [] {
      var rest := s[1..];
      TwoPlaces(rest, types, n);
      DeclaredIff(rest, types, n);
      if i, j :| AtBoth(s, types, n, i, j) {
        assert s[j] == rest[j - 1];
        if i > 0 {
          assert AtBoth(rest, types, n, i - 1, j - 1);
        }
      }
      if i, j :| AtBoth(rest, types, n, i, j) {
        assert AtBoth(s, types, n, i + 1, j + 1);
      }
      if j :| s[0].name == n && s[0].ty in types && 0 <= j < |rest| && rest[j].name == n && rest[j].ty in types {
        assert AtBoth(s, types, n, 0, j + 1);
      }
    }
  }

  lemma DeclaredTwiceIff(s: seq<TypedObject>, types: set<Name>)
    ensures DeclaredTwice(s, types) <==> exists n :: TimesDeclared(s, types, n) > 1
  {
    if i, j :| 0 <= i < j < |s| && s[i].name == s[j].name && s[i].ty in types && s[j].ty in types {
      assert AtBoth(s, types, s[i].name, i, j);
      TwoPlaces(s, types, s[i].name);
    }
    if n :| TimesDeclared(s, types, n) > 1 {
      TwoPlaces(s, types, n);
      var i, j :| AtBoth(s, types, n, i, j);
    }
  }

  lemma {:induction false} UnrepeatedIff(s: seq<Name>)
    ensures Unrepeated(s) <==> forall n :: multiset(s)[n] <= 1
  {
    if s != [] {
      var rest := s[1..];
      UnrepeatedIff(rest);
      assert s == [s[0]] + rest;
      assert forall n :: multiset(s)[n] == multiset(rest)[n] + if n == s[0] then 1 else 0;
      assert s[0] in multiset(rest) <==> s[0] in rest;
      assert Unrepeated(s) ==> Unrepeated(rest) && s[0] !in rest;
    }
  }

  /** A type lists a name twice exactly when the name is declared twice with known subtypes of the type. */
  lemma ListsTwiceIff(d: Domain, p: Problem, closure: map<Name, set<Name>>, t: Name)
    requires t in closure
    ensures Unrepeated(IndexObjects(d, p, closure)[t]) <==> !DeclaredTwice(d.constants + p.objects, closure[t])
  {
    var names := IndexObjects(d, p, closure)[t];
    UnrepeatedIff(names);
    DeclaredTwiceIff(d.constants + p.objects, closure[t]);
    hide IndexObjects, TimesDeclared, DeclaredTwice, Unrepeated;
    if n :| TimesDeclared(d.constants + p.objects, closure[t], n) > 1 {
      ListedAsOftenAsDeclared(d, p, closure, t, n);
    } else {
      forall n ensures multiset(names)[n] <= 1 {
        ListedAsOftenAsDeclared(d, p, closure, t, n);
      }
    }
  }

  /** No binding is enumerated twice when parameter names, constants and objects are all distinct. */
  lemma BindingsOverIndexAreDistinct(d: Domain, p: Problem, closure: map<Name, set<Name>>, params: seq<TypedParam>)
    requires DistinctVars(params) && Unrepeated(NamesOf(d.constants + p.objects))
    ensures Unrepeated(BindingsOf(params, IndexObjects(d, p, closure)))
  {
    var objs, all := IndexObjects(d, p, closure), d.constants + p.objects;
    assert forall i | 0 <= i < |all| :: NamesOf(all)[i] == all[i].name;
    forall i | 0 <= i < |params| ensures Unrepeated(ObjectsOf(objs, params[i].ty)) {
      if params[i].ty in closure {
        ListsTwiceIff(d, p, closure, params[i].ty);
      }
    }
    BindingsAreDistinct(params, objs);
  }

  function SubtypesIn(closure: map<Name, set<Name>>, t: Name): set<Name> {
    if t in closure then closure[t] else {}
  }

  /** The objects that are instances of `t` in the declared hierarchy. */
  ghost predicate IsInstanceOf(d: Domain, p: Problem, o: TypedObject, t: Name) {
    o in d.constants + p.objects && IsSubtype(d.parents, o.ty, t)
  }

  lemma ListedIff(d: Domain, p: Problem, types: set<Name>, o: TypedObject)
    ensures o in ListedObjects(d, p, types) <==> o in d.constants + p.objects && o.ty in types
  {
    var all := d.constants + p.objects;
    assert o in SortByName(all) <==> o in multiset(SortByName(all));
    assert o in all <==> o in multiset(all);
  }

  /** An instance is listed for a type exactly when the domain mentions the instance's own type. */
  lemma InstanceListedIff(d: Domain, p: Problem, closure: map<Name, set<Name>>, o: TypedObject, t: Name)
    requires IsClosure(d, closure) && IsInstanceOf(d, p, o, t)
    ensures o in ListedObjects(d, p, SubtypesIn(closure, t)) <==> Mentioned(d, o.ty)
  {
    KnownIsMentioned(d, o.ty);
    hide KnownTypes, Mentioned, ListedObjects;
    ListedIff(d, p, SubtypesIn(closure, t), o);
    if o.ty in KnownTypes(d) {
      KnownTypesAreClosed(d, o.ty, t);
    }
  }

  /**
   * Quantifiers and parameters of type `t` range over all of its instances exactly when the domain
   * mentions every instance's own type.
   */
  lemma UniverseCompleteIff(d: Domain, p: Problem, closure: map<Name, set<Name>>, t: Name)
    requires IsClosure(d, closure)
    ensures (forall o :: o in ListedObjects(d, p, SubtypesIn(closure, t)) <==> IsInstanceOf(d, p, o, t))
       <==> (forall o | IsInstanceOf(d, p, o, t) :: Mentioned(d, o.ty))
  {
    hide KnownTypes, Mentioned, ListedObjects, IsSubtype;
    forall o | IsInstanceOf(d, p, o, t) {
      InstanceListedIff(d, p, closure, o, t);
    }
    forall o | o in ListedObjects(d, p, SubtypesIn(closure, t)) ensures IsInstanceOf(d, p, o, t) {
      ListedIff(d, p, SubtypesIn(closure, t), o);
    }
  }

  lemma NoneListed(d: Domain, p: Problem, types: set<Name>)
    requires forall o | o in d.constants + p.objects :: o.ty !in types
    ensures ListedObjects(d, p, types) == []
  {
    var listed := ListedObjects(d, p, types);
    if listed != [] {
      ListedIff(d, p, types, listed[0]);
    }
  }

  lemma IndexListsNames(d: Domain, p: Problem, closure: map<Name, set<Name>>, t: Name)
    ensures ObjectsOf(IndexObjects(d, p, closure), t) == NamesOf(ListedObjects(d, p, SubtypesIn(closure, t)))
  {
    if t !in closure {
      NoneListed(d, p, {});
    }
  }
}
