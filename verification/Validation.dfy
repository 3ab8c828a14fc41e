// The inputs that validation accepts: grounding starts only from these.
module Validation {
  import opened Prelude
  import opened HddlAst
  import opened Bindings
  import opened TypeClosure

  // ---- types ----

  /** The declared types, the types used as parents, and the top type. */
  function DeclaredTypes(d: Domain): set<Name> {
    {OBJECT} + Elems(d.declared) + (set t, p | t in d.parents && p in d.parents[t] :: p)
  }

  predicate ParamsDeclared(d: Domain, params: seq<TypedParam>) {
    forall p | p in params :: p.ty in DeclaredTypes(d)
  }

  /** The binders of every quantifier in a goal. */
  function Binders(g: GoalDesc): set<TypedParam>
    decreases g
  {
    match g
    case Empty => {}
    case Atom(_) => {}
    case Not(inner) => Binders(inner)
    case And(parts) => set i, x | 0 <= i < |parts| && x in Binders(parts[i]) :: x
    case Or(parts) => set i, x | 0 <= i < |parts| && x in Binders(parts[i]) :: x
    case Imply(ante, conseq) => Binders(ante) + Binders(conseq)
    case Forall(vars, body) => Elems(vars) + Binders(body)
    case Exists(vars, body) => Elems(vars) + Binders(body)
  }

  predicate BindersDeclared(d: Domain, g: GoalDesc) {
    forall x | x in Binders(g) :: x.ty in DeclaredTypes(d)
  }

  // ---- predicates ----

  function AtomsOf(g: GoalDesc): set<Atomic>
    decreases g
  {
    match g
    case Empty => {}
    case Atom(a) => {a}
    case Not(inner) => AtomsOf(inner)
    case And(parts) => set i, a | 0 <= i < |parts| && a in AtomsOf(parts[i]) :: a
    case Or(parts) => set i, a | 0 <= i < |parts| && a in AtomsOf(parts[i]) :: a
    case Imply(ante, conseq) => AtomsOf(ante) + AtomsOf(conseq)
    case Forall(_, body) => AtomsOf(body)
    case Exists(_, body) => AtomsOf(body)
  }

  function EffectAtoms(e: Effect): set<Atomic>
    decreases e
  {
    match e
    case AddLit(a) => {a}
    case DelLit(a) => {a}
    case Both(es) => set i, a | 0 <= i < |es| && a in EffectAtoms(es[i]) :: a
    case Oneof(es) => set i, a | 0 <= i < |es| && a in EffectAtoms(es[i]) :: a
    case When(cond, body) => AtomsOf(cond) + EffectAtoms(body)
    case _ => {}
  }

  /** The atom's predicate is declared with as many parameters as the atom has arguments; `=` takes two. */
  predicate AtomDeclared(d: Domain, a: Atomic) {
    if a.pred == "=" then |a.args| == 2
    else exists k :: 0 <= k < |d.predicates| && d.predicates[k].name == a.pred && |d.predicates[k].params| == |a.args|
  }

  // ---- task calls ----

  /** The parameters of the task of that name, or else of the action. */
  function Callee(d: Domain, name: Name): Option<seq<TypedParam>> {
    var ts := Filter(d.tasks, (t: TaskDef) => t.name == name);
    var acts := Filter(d.actions, (a: ActionDef) => a.name == name);
    if ts != [] then Some(ts[0].params) else if acts != [] then Some(acts[0].params) else None
  }

  /** The declared type of each parameter; a repeated name keeps the last. */
  function Scope(params: seq<TypedParam>): map<Name, Name> {
    if params == [] then map[]
    else Scope(params[..|params| - 1])[params[|params| - 1].v := params[|params| - 1].ty]
  }

  /** The call has the callee's arity, and its variables are in scope with subtypes of the callee's types. */
  ghost predicate CallFits(d: Domain, scope: map<Name, Name>, params: seq<TypedParam>, args: seq<Term>) {
    && |args| == |params|
    && forall i | 0 <= i < |args| && args[i].Var? ::
         args[i].v in scope && IsSubtype(d.parents, scope[args[i].v], params[i].ty)
  }

  ghost predicate SubtaskFits(d: Domain, scope: map<Name, Name>, st: Subtask) {
    Callee(d, st.task.name).Some? && CallFits(d, scope, Callee(d, st.task.name).value, st.task.args)
  }

  // ---- ordering constraints ----

  function SubtaskIds(sts: seq<Subtask>): set<Name> {
    set i | 0 <= i < |sts| :: sts[i].id
  }

  ghost predicate EdgesRanked(order: seq<OrderEdge>, rank: map<Name, nat>) {
    forall k | 0 <= k < |order| ::
      order[k].before in rank && order[k].after in rank && rank[order[k].before] < rank[order[k].after]
  }

  /** Constraints name subtasks of the network and are acyclic. */
  ghost predicate ValidOrder(net: TaskNetwork) {
    && (forall k | 0 <= k < |net.order| ::
          net.order[k].before in SubtaskIds(net.subtasks) && net.order[k].after in SubtaskIds(net.subtasks))
    && exists rank :: EdgesRanked(net.order, rank)
  }

  // ---- variables of a method ----

  ghost predicate ArgsInScope(args: seq<Term>, scope: set<Name>) {
    forall i | 0 <= i < |args| && args[i].Var? :: args[i].v in scope
  }

  function BoundBy(vars: seq<TypedParam>): set<Name> {
    set i | 0 <= i < |vars| :: vars[i].v
  }

  ghost predicate GoalInScope(g: GoalDesc, scope: set<Name>)
    decreases g
  {
    match g
    case Empty => true
    case Atom(a) => ArgsInScope(a.args, scope)
    case Not(inner) => GoalInScope(inner, scope)
    case And(parts) => forall i | 0 <= i < |parts| :: GoalInScope(parts[i], scope)
    case Or(parts) => forall i | 0 <= i < |parts| :: GoalInScope(parts[i], scope)
    case Imply(ante, conseq) => GoalInScope(ante, scope) && GoalInScope(conseq, scope)
    case Forall(vars, body) => GoalInScope(body, scope + BoundBy(vars))
    case Exists(vars, body) => GoalInScope(body, scope + BoundBy(vars))
  }

  ghost predicate EffectInScope(e: Effect, scope: set<Name>)
    decreases e
  {
    match e
    case AddLit(a) => ArgsInScope(a.args, scope)
    case DelLit(a) => ArgsInScope(a.args, scope)
    case Both(es) => forall i | 0 <= i < |es| :: EffectInScope(es[i], scope)
    case Oneof(es) => forall i | 0 <= i < |es| :: EffectInScope(es[i], scope)
    case When(cond, body) => GoalInScope(cond, scope) && EffectInScope(body, scope)
    case _ => true
  }

  ghost predicate MethodFits(d: Domain, m: MethodDef) {
    && (exists k :: 0 <= k < |d.tasks| && d.tasks[k].name == m.task.name
                    && CallFits(d, Scope(m.params), d.tasks[k].params, m.task.args))
    && (forall st | st in m.network.subtasks :: SubtaskFits(d, Scope(m.params), st))
    && ValidOrder(m.network)
    && GoalInScope(m.pre, Scope(m.params).Keys)
    && EffectInScope(m.effect, Scope(m.params).Keys)
  }

  // ---- the whole input ----

  ghost predicate NamesDistinct(d: Domain) {
    && Unrepeated(seq(|d.tasks|, i requires 0 <= i < |d.tasks| => d.tasks[i].name))
    && Unrepeated(seq(|d.actions|, i requires 0 <= i < |d.actions| => d.actions[i].name))
    && Unrepeated(seq(|d.methods|, i requires 0 <= i < |d.methods| => d.methods[i].name))
    && Unrepeated(seq(|d.predicates|, i requires 0 <= i < |d.predicates| => d.predicates[i].name))
    && Unrepeated(NamesOf(d.constants))
  }

  ghost predicate TypesFit(d: Domain) {
    && (forall t :: !OnCycle(d.parents, t))
    && (forall x | x in d.predicates :: ParamsDeclared(d, x.params))
    && (forall x | x in d.tasks :: ParamsDeclared(d, x.params))
    && (forall x | x in d.actions :: ParamsDeclared(d, x.params) && BindersDeclared(d, x.pre))
    && (forall x | x in d.methods :: ParamsDeclared(d, x.params) && BindersDeclared(d, x.pre))
    && (forall o | o in d.constants :: o.ty in DeclaredTypes(d))
  }

  ghost predicate AtomsFit(d: Domain) {
    && (forall x | x in d.actions :: forall a | a in AtomsOf(x.pre) + EffectAtoms(x.effect) :: AtomDeclared(d, a))
    && (forall x | x in d.methods :: forall a | a in AtomsOf(x.pre) + EffectAtoms(x.effect) :: AtomDeclared(d, a))
  }

  ghost predicate DomainAccepted(d: Domain) {
    NamesDistinct(d) && TypesFit(d) && AtomsFit(d) && forall m | m in d.methods :: MethodFits(d, m)
  }

  /** The type of a constant or object, if it is declared; an object overrides a constant. */
  function GroundType(d: Domain, p: Problem, name: Name): Option<Name> {
    var all := Filter(d.constants + p.objects, (o: TypedObject) => o.name == name);
    if all == [] then None else Some(all[|all| - 1].ty)
  }

  ghost predicate ConstantFits(d: Domain, p: Problem, t: Term, expected: Name) {
    t.Const? ==> GroundType(d, p, t.c).Some? && IsSubtype(d.parents, GroundType(d, p, t.c).value, expected)
  }

  /** The declared type of a predicate's argument position; `=` takes any object. */
  function PositionType(d: Domain, pred: Name, i: nat): Name {
    var ps := Filter(d.predicates, (x: PredicateDef) => x.name == pred);
    if ps != [] && i < |ps[0].params| then ps[0].params[i].ty else OBJECT
  }

  ghost predicate ConstantsFit(d: Domain, p: Problem, a: Atomic) {
    forall i | 0 <= i < |a.args| :: ConstantFits(d, p, a.args[i], PositionType(d, a.pred, i))
  }

  ghost predicate RootSubtaskFits(d: Domain, p: Problem, st: Subtask) {
    && SubtaskFits(d, Scope(p.htn.params), st)
    && forall i | 0 <= i < |st.task.args| ::
         ConstantFits(d, p, st.task.args[i], Callee(d, st.task.name).value[i].ty)
  }

  ghost predicate ProblemAccepted(d: Domain, p: Problem) {
    && p.htn.subtasks != []
    && Unrepeated(NamesOf(p.objects))
    && (forall o | o in p.objects :: o.ty in DeclaredTypes(d))
    && BindersDeclared(d, p.goal)
    && (forall a | a in p.init :: AtomDeclared(d, a) && ConstantsFit(d, p, a) && forall t | t in a.args :: t.Const?)
    && (forall a | a in AtomsOf(p.goal) :: AtomDeclared(d, a) && ConstantsFit(d, p, a))
    && (forall st | st in p.htn.subtasks :: RootSubtaskFits(d, p, st))
    && ValidOrder(p.htn)
  }

  /** Validation refuses nothing in this input. */
  ghost predicate Accepted(d: Domain, p: Problem) {
    DomainAccepted(d) && ProblemAccepted(d, p)
  }

  // ---- an accepted problem with an object outside its universe ----

  /** A declared type that only a problem object mentions. */
  function WidgetDomain(): Domain {
    Domain(map[], ["widget"], [], [], [TaskDef("go", [])], [], [])
  }

  function WidgetProblem(): Problem {
    Problem([TypedObject("w1", "widget")], [], Empty, TaskNetwork([], [Subtask("s", TaskCall("go", []))], []))
  }

  lemma WidgetAccepted()
    ensures Accepted(WidgetDomain(), WidgetProblem())
  {
    var d := WidgetDomain();
    WidgetTask();
    assert EdgesRanked([], map[]);
    assert "widget" in d.declared;
    hide Callee, OnCycle, Filter;
    assert DomainAccepted(d) by {
      assert forall t :: !OnCycle(d.parents, t) by {
        NoParentsNoCycle();
      }
    }
    hide DomainAccepted;
  }

  lemma NoParentsNoCycle()
    ensures forall t :: !OnCycle(map[], t)
  {
  }

  lemma WidgetTask()
    ensures Callee(WidgetDomain(), "go") == Some([])
  {
    var d := WidgetDomain();
    var ts := Filter(d.tasks, (t: TaskDef) => t.name == "go");
    assert d.tasks[0] in ts && ts[0] in ts;
  }

  /**
   * Validation accepts an object whose type nothing else mentions; it is an `object`, but the closure
   * does not know its type, so no quantifier over `object` ranges over it.
   */
  lemma UnknownTypeHidesObject(closure: map<Name, set<Name>>)
    requires IsClosure(WidgetDomain(), closure)
    ensures Accepted(WidgetDomain(), WidgetProblem())
    ensures IsInstanceOf(WidgetDomain(), WidgetProblem(), TypedObject("w1", "widget"), OBJECT)
    ensures ObjectsOf(IndexObjects(WidgetDomain(), WidgetProblem(), closure), OBJECT) == []
  {
    var d, p := WidgetDomain(), WidgetProblem();
    WidgetAccepted();
    hide Accepted;
    assert "widget"[0] != OBJECT[0];
    assert KnownTypes(d) == {OBJECT};
    assert d.constants + p.objects == [TypedObject("w1", "widget")];
    assert "widget" in closure[OBJECT] ==> "widget" in KnownTypes(d);
    hide KnownTypes, IsClosure, IndexObjects, ObjectsOf, ListedObjects;
    NoneListed(d, p, SubtypesIn(closure, OBJECT));
    IndexListsNames(d, p, closure, OBJECT);
  }

  // ---- objects listed twice ----

  lemma NamesAt(s: seq<TypedObject>)
    requires Unrepeated(NamesOf(s))
    ensures forall i, j | 0 <= i < j < |s| :: s[i].name != s[j].name
  {
    var names := NamesOf(s);
    forall i, j | 0 <= i < j < |s| ensures s[i].name != s[j].name {
      assert names[i] != names[j];
    }
  }

  /** A constant of the domain and an object of the problem share a name, both with one of these types. */
  ghost predicate ConstantRepeated(d: Domain, p: Problem, types: set<Name>) {
    exists c, o :: c in d.constants && o in p.objects && c.name == o.name && c.ty in types && o.ty in types
  }

  lemma TwiceIsRepeated(d: Domain, p: Problem, types: set<Name>)
    requires forall i, j | 0 <= i < j < |d.constants| :: d.constants[i].name != d.constants[j].name
    requires forall i, j | 0 <= i < j < |p.objects| :: p.objects[i].name != p.objects[j].name
    ensures DeclaredTwice(d.constants + p.objects, types) <==> ConstantRepeated(d, p, types)
  {
    var all, n := d.constants + p.objects, |d.constants|;
    if i, j :| 0 <= i < j < |all| && all[i].name == all[j].name && all[i].ty in types && all[j].ty in types {
      assert i < n <= j;
      assert all[i] in d.constants && all[j] in p.objects;
    }
    if c, o :| c in d.constants && o in p.objects && c.name == o.name && c.ty in types && o.ty in types {
      var i :| 0 <= i < n && d.constants[i] == c;
      var j :| 0 <= j < |p.objects| && p.objects[j] == o;
      assert all[i] == c && all[n + j] == o;
    }
  }

  /** In an accepted input, a type lists a name twice exactly when an object repeats a constant within the type. */
  lemma AcceptedListsTwiceIff(d: Domain, p: Problem, closure: map<Name, set<Name>>, t: Name)
    requires Accepted(d, p) && t in closure
    ensures Unrepeated(IndexObjects(d, p, closure)[t]) <==> !ConstantRepeated(d, p, closure[t])
  {
    hide ConstantsFit, RootSubtaskFits, ValidOrder, AtomDeclared, BindersDeclared, TypesFit, AtomsFit, MethodFits, Unrepeated,
         NamesOf, IndexObjects, ConstantRepeated, DeclaredTwice;
    NamesAt(d.constants);
    NamesAt(p.objects);
    ListsTwiceIff(d, p, closure, t);
    TwiceIsRepeated(d, p, closure[t]);
  }

  /** A domain with one constant. */
  function DepotDomain(): Domain {
    Domain(map[], [], [TypedObject("depot", OBJECT)], [], [TaskDef("go", [])], [], [])
  }

  /** A problem that declares the constant again. */
  function DepotProblem(): Problem {
    Problem([TypedObject("depot", OBJECT)], [], Empty, TaskNetwork([], [Subtask("s", TaskCall("go", []))], []))
  }

  /** Validation accepts an object that repeats a constant, and every parameter of type `object` then takes it twice. */
  lemma RepeatedConstantIsListedTwice(closure: map<Name, set<Name>>)
    requires IsClosure(DepotDomain(), closure)
    ensures Accepted(DepotDomain(), DepotProblem())
    ensures !Unrepeated(IndexObjects(DepotDomain(), DepotProblem(), closure)[OBJECT])
  {
    var d, p := DepotDomain(), DepotProblem();
    DepotAccepted();
    hide Accepted;
    assert IsSubtype(d.parents, OBJECT, OBJECT);
    assert OBJECT in closure[OBJECT];
    hide IsClosure, IndexObjects;
    AcceptedListsTwiceIff(d, p, closure, OBJECT);
    assert d.constants[0] in d.constants && p.objects[0] in p.objects;
  }

  lemma DepotAccepted()
    ensures Accepted(DepotDomain(), DepotProblem())
  {
    var d := DepotDomain();
    var ts := Filter(d.tasks, (t: TaskDef) => t.name == "go");
    assert d.tasks[0] in ts && ts[0] in ts;
    assert Callee(d, "go") == Some([]);
    assert EdgesRanked([], map[]);
    hide Callee, OnCycle, Filter;
    assert DomainAccepted(d) by {
      assert forall t :: !OnCycle(d.parents, t) by {
        NoParentsNoCycle();
      }
    }
    hide DomainAccepted;
  }
}
