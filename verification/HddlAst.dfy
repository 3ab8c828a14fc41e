// The abstract syntax of HDDL that the grounder consumes.
module HddlAst {

  type Name = string

  /** A term: a variable, or an object name. */
  datatype Term = Var(v: Name) | Const(c: Name)

  /** One `?v - ty` entry of a parameter list or of a quantifier's binder list. */
  datatype TypedParam = TypedParam(v: Name, ty: Name)

  datatype TypedObject = TypedObject(name: Name, ty: Name)

  /** A predicate applied to terms. */
  datatype Atomic = Atomic(pred: Name, args: seq<Term>)

  datatype GoalDesc =
    | Empty
    | Atom(atom: Atomic)
    | Not(inner: GoalDesc)
    | And(parts: seq<GoalDesc>)
    | Or(parts: seq<GoalDesc>)
    | Imply(ante: GoalDesc, conseq: GoalDesc)
    | Forall(vars: seq<TypedParam>, body: GoalDesc)
    | Exists(vars: seq<TypedParam>, body: GoalDesc)

  /** Effects. A numeric effect keeps only the fluent it names: grounding refuses it. */
  datatype Effect =
    | NoEffect
    | AddLit(atom: Atomic)
    | DelLit(atom: Atomic)
    | Both(effects: seq<Effect>)
    | When(cond: GoalDesc, body: Effect)
    | Oneof(effects: seq<Effect>)
    | Increase(fluent: Atomic)
    | Decrease(fluent: Atomic)

  datatype ActionDef = ActionDef(name: Name, params: seq<TypedParam>, pre: GoalDesc, effect: Effect)

  datatype TaskCall = TaskCall(name: Name, args: seq<Term>)

  datatype Subtask = Subtask(id: Name, task: TaskCall)

  datatype OrderEdge = OrderEdge(before: Name, after: Name)

  datatype TaskNetwork = TaskNetwork(params: seq<TypedParam>, subtasks: seq<Subtask>, order: seq<OrderEdge>)

  datatype MethodDef = MethodDef(
    name: Name, params: seq<TypedParam>, task: TaskCall, pre: GoalDesc, effect: Effect, network: TaskNetwork)

  datatype PredicateDef = PredicateDef(name: Name, params: seq<TypedParam>)

  datatype TaskDef = TaskDef(name: Name, params: seq<TypedParam>)

  /** `parents` maps a type to the set of its declared parents; `declared` lists every declared type. */
  datatype Domain = Domain(
    parents: map<Name, set<Name>>, declared: seq<Name>, constants: seq<TypedObject>, predicates: seq<PredicateDef>,
    tasks: seq<TaskDef>, actions: seq<ActionDef>, methods: seq<MethodDef>)

  datatype Problem = Problem(objects: seq<TypedObject>, init: seq<Atomic>, goal: GoalDesc, htn: TaskNetwork)

  datatype GroundError =
    | TypeCycle(ty: Name)
    | UnboundVariable(v: Name)
    | UnsupportedPrecondition
    | LimitExceeded
    | UnsupportedNumericFluent(fluent: Name)
    | GoalTooDeep(depth: nat, budget: nat)
}
