// The transition system explored after grounding: facts plus a partially decomposed task network.
module Htn {
  import opened Prelude
  import opened HddlAst
  import opened Goals
  import opened Effects
  import opened Grounders

  /** A position in the decomposition tree: `r.<id>` for a root subtask, `<parent>.<id>` below. */
  type Addr = string

  function ChildAddr(parent: Addr, id: Name): Addr {
    parent + "." + id
  }

  /** The number of decomposition steps from the root. */
  function DepthOf(a: Addr): nat {
    if a == "" then 0 else (if a[0] == '.' then 1 else 0) + DepthOf(a[1..])
  }

  type Edge = (Addr, Addr)

  /** What remains to be done: pending nodes with their ground tasks, and the order still constraining them. */
  datatype Frontier = Frontier(pending: map<Addr, string>, order: set<Edge>)

  datatype Composite = Composite(facts: Facts, frontier: Frontier)

  datatype GroundedIR = GroundedIR(
    actions: seq<GroundAction>, methods: seq<GroundMethod>, roots: seq<RootNetwork>, init: Facts, goal: GoalDesc)

  datatype TranslateError =
    | DepthExceeded(addr: Addr)
    | Evaluation(e: GroundError)

  predicate HasIncoming(order: set<Edge>, a: Addr) {
    exists e | e in order :: e.1 == a
  }

  predicate HasOutgoing(order: set<Edge>, a: Addr) {
    exists e | e in order :: e.0 == a
  }

  /** Nodes that nothing pending must precede. */
  function Enabled(f: Frontier): set<Addr> {
    set a | a in f.pending && !HasIncoming(f.order, a)
  }

  function ChildAddrs(parent: Addr, sts: seq<GroundSubtask>): set<Addr> {
    set i | 0 <= i < |sts| :: ChildAddr(parent, sts[i].id)
  }

  /** The children as pending nodes; a repeated id keeps the last one. */
  function ChildPending(parent: Addr, sts: seq<GroundSubtask>): map<Addr, string> {
    if sts == [] then map[]
    else
      var n := |sts| - 1;
      ChildPending(parent, sts[..n])[ChildAddr(parent, sts[n].id) := sts[n].task]
  }

  function ChildOrder(parent: Addr, edges: seq<(Name, Name)>): set<Edge> {
    set i | 0 <= i < |edges| :: (ChildAddr(parent, edges[i].0), ChildAddr(parent, edges[i].1))
  }

  function Predecessors(order: set<Edge>, a: Addr): set<Addr> {
    set e | e in order && e.1 == a :: e.0
  }

  function Successors(order: set<Edge>, a: Addr): set<Addr> {
    set e | e in order && e.0 == a :: e.1
  }

  function Pairs(xs: set<Addr>, ys: set<Addr>): set<Edge> {
    set x, y | x in xs && y in ys :: (x, y)
  }

  function Detach(order: set<Edge>, a: Addr): set<Edge> {
    set e | e in order && e.0 != a && e.1 != a
  }

  function Firsts(children: set<Addr>, internal: set<Edge>): set<Addr> {
    set c | c in children && !HasIncoming(internal, c)
  }

  function Lasts(children: set<Addr>, internal: set<Edge>): set<Addr> {
    set c | c in children && !HasOutgoing(internal, c)
  }

  /** Replaces a node by a method's subtasks: first children inherit its predecessors, last ones its successors. */
  function Refine(f: Frontier, a: Addr, m: GroundMethod): Frontier {
    var children := ChildAddrs(a, m.subtasks);
    var internal := ChildOrder(a, m.order);
    var firsts, lasts := Firsts(children, internal), Lasts(children, internal);
    var preds, succs := Predecessors(f.order, a), Successors(f.order, a);
    Frontier(
      f.pending - {a} + ChildPending(a, m.subtasks),
      Detach(f.order, a) + internal + Pairs(preds, firsts) + Pairs(lasts, succs)
      + (if children == {} then Pairs(preds, succs) else {}))
  }

  /** Discharges an executed node with its edges. */
  function Advance(f: Frontier, a: Addr): Frontier {
    Frontier(f.pending - {a}, Detach(f.order, a))
  }

  function InitialState(init: Facts, net: RootNetwork): Composite {
    Composite(init, Frontier(ChildPending("r", net.subtasks), ChildOrder("r", net.order)))
  }

  // ---- moves ----

  datatype Label =
    | Decompose(addr: Addr, m: GroundMethod)
    | Execute(addr: Addr, a: GroundAction, outcome: nat)

  function AfterMethod(s: Composite, a: Addr, m: GroundMethod): Composite {
    Composite(Apply(s.facts, m.effect), Refine(s.frontier, a, m))
  }

  /** An outcome of a nondeterministic action that changes no fact leaves the task pending. */
  function AfterOutcome(s: Composite, a: Addr, act: GroundAction, i: nat): Composite
    requires i < |act.outcomes|
  {
    var next := Apply(s.facts, act.outcomes[i]);
    Composite(next, if |act.outcomes| > 1 && next == s.facts then s.frontier else Advance(s.frontier, a))
  }

  function ForTask(t: string): GroundMethod -> bool {
    (m: GroundMethod) => m.task == t
  }

  function Named(t: string): GroundAction -> bool {
    (a: GroundAction) => a.name == t
  }

  function MethodsFor(ir: GroundedIR, t: string): seq<GroundMethod> {
    Filter(ir.methods, ForTask(t))
  }

  function ActionsFor(ir: GroundedIR, t: string): seq<GroundAction> {
    Filter(ir.actions, Named(t))
  }

  type Moves = seq<(Label, Composite)>

  /** The first child too deep, if any. */
  function TooDeep(a: Addr, sts: seq<GroundSubtask>, maxDepth: nat): Option<Addr> {
    if sts == [] then None
    else if DepthOf(ChildAddr(a, sts[0].id)) > maxDepth then Some(ChildAddr(a, sts[0].id))
    else TooDeep(a, sts[1..], maxDepth)
  }

  function MethodMoves(ms: seq<GroundMethod>, s: Composite, a: Addr, maxDepth: nat): Result<Moves, TranslateError> {
    if ms == [] then Ok([])
    else
      var m := ms[0];
      match Eval(m.pre, s.facts)
      case Err(e) => Err(Evaluation(e))
      case Ok(holds) =>
        if !holds then MethodMoves(ms[1..], s, a, maxDepth)
        else match TooDeep(a, m.subtasks, maxDepth)
          case Some(child) => Err(DepthExceeded(child))
          case None =>
            var rest :- MethodMoves(ms[1..], s, a, maxDepth);
            Ok([(Decompose(a, m), AfterMethod(s, a, m))] + rest)
  }

  function OutcomeMoves(s: Composite, a: Addr, act: GroundAction): Moves {
    seq(|act.outcomes|, i requires 0 <= i < |act.outcomes| => (Execute(a, act, i), AfterOutcome(s, a, act, i)))
  }

  function ActionMoves(acts: seq<GroundAction>, s: Composite, a: Addr): Result<Moves, TranslateError> {
    if acts == [] then Ok([])
    else
      match Eval(acts[0].pre, s.facts)
      case Err(e) => Err(Evaluation(e))
      case Ok(holds) =>
        var rest :- ActionMoves(acts[1..], s, a);
        Ok((if holds then OutcomeMoves(s, a, acts[0]) else []) + rest)
  }

  /** All moves at one enabled node, in the order in which transitions are recorded, or the refusal. */
  function MovesAt(ir: GroundedIR, s: Composite, a: Addr, maxDepth: nat): Result<Moves, TranslateError>
    requires a in s.frontier.pending
  {
    var t := s.frontier.pending[a];
    var ds :- MethodMoves(MethodsFor(ir, t), s, a, maxDepth);
    var es :- ActionMoves(ActionsFor(ir, t), s, a);
    Ok(ds + es)
  }

  /** One step, as a relation. */
  ghost predicate Step(ir: GroundedIR, s: Composite, l: Label, s': Composite) {
    && l.addr in Enabled(s.frontier)
    && match l
       case Decompose(a, m) =>
         && m in ir.methods && m.task == s.frontier.pending[a]
         && Eval(m.pre, s.facts) == Ok(true) && s' == AfterMethod(s, a, m)
       case Execute(a, act, i) =>
         && act in ir.actions && act.name == s.frontier.pending[a]
         && Eval(act.pre, s.facts) == Ok(true) && i < |act.outcomes| && s' == AfterOutcome(s, a, act, i)
  }

  lemma {:induction false} InMethodMoves(
    ms: seq<GroundMethod>, s: Composite, a: Addr, maxDepth: nat, l: Label, s': Composite)
    requires MethodMoves(ms, s, a, maxDepth).Ok?
    ensures (l, s') in MethodMoves(ms, s, a, maxDepth).value <==>
              l.Decompose? && l.addr == a && l.m in ms && Eval(l.m.pre, s.facts) == Ok(true) && s' == AfterMethod(s, a, l.m)
  {
    if ms != [] {
      InMethodMoves(ms[1..], s, a, maxDepth, l, s');
    }
  }

  lemma {:induction false} InActionMoves(acts: seq<GroundAction>, s: Composite, a: Addr, l: Label, s': Composite)
    requires ActionMoves(acts, s, a).Ok?
    ensures (l, s') in ActionMoves(acts, s, a).value <==>
              l.Execute? && l.addr == a && l.a in acts && Eval(l.a.pre, s.facts) == Ok(true)
              && l.outcome < |l.a.outcomes| && s' == AfterOutcome(s, a, l.a, l.outcome)
  {
    if acts != [] {
      InActionMoves(acts[1..], s, a, l, s');
      var ms := OutcomeMoves(s, a, acts[0]);
      if l.Execute? && l.addr == a && l.a == acts[0] && l.outcome < |l.a.outcomes| {
        assert ms[l.outcome] == (l, AfterOutcome(s, a, l.a, l.outcome));
      }
      if (l, s') in ms {
        var i :| 0 <= i < |ms| && ms[i] == (l, s');
      }
    }
  }

  /** The recorded moves are exactly the steps. */
  lemma MovesAreSteps(ir: GroundedIR, s: Composite, a: Addr, maxDepth: nat, l: Label, s': Composite)
    requires a in Enabled(s.frontier) && MovesAt(ir, s, a, maxDepth).Ok?
    ensures (l, s') in MovesAt(ir, s, a, maxDepth).value <==> l.addr == a && Step(ir, s, l, s')
  {
    var t := s.frontier.pending[a];
    InMethodMoves(MethodsFor(ir, t), s, a, maxDepth, l, s');
    InActionMoves(ActionsFor(ir, t), s, a, l, s');
  }

  /**
   * An execution applies its outcome. The task stays pending exactly when the action had other outcomes
   * and this one changed nothing, and then the state is the same; otherwise the task leaves with its
   * constraints, and the other tasks and constraints stay.
   */
  lemma ExecutionStep(ir: GroundedIR, s: Composite, a: Addr, act: GroundAction, i: nat, s': Composite)
    requires Step(ir, s, Execute(a, act, i), s')
    ensures i < |act.outcomes| && s'.facts == Apply(s.facts, act.outcomes[i])
    ensures a in s'.frontier.pending <==> |act.outcomes| > 1 && Apply(s.facts, act.outcomes[i]) == s.facts
    ensures a in s'.frontier.pending ==> s' == s
    ensures forall x | x != a ::
              && (x in s'.frontier.pending <==> x in s.frontier.pending)
              && (x in s.frontier.pending ==> s'.frontier.pending[x] == s.frontier.pending[x])
    ensures forall x, y | x != a && y != a :: (x, y) in s'.frontier.order <==> (x, y) in s.frontier.order
    ensures a !in s'.frontier.pending ==> forall e | e in s'.frontier.order :: e.0 != a && e.1 != a
  {
    var next := Apply(s.facts, act.outcomes[i]);
    hide Apply;
    if s'.frontier != s.frontier {
      assert s'.frontier.pending == s.frontier.pending - {a};
    }
  }

  /** No later subtask has the id of this one. */
  ghost predicate IsLastOfId(sts: seq<GroundSubtask>, i: nat)
    requires i < |sts|
  {
    forall j | i < j < |sts| :: sts[j].id != sts[i].id
  }

  lemma {:induction false} ChildTasks(parent: Addr, sts: seq<GroundSubtask>, i: nat)
    requires i < |sts| && IsLastOfId(sts, i)
    ensures var c := ChildAddr(parent, sts[i].id);
            c in ChildPending(parent, sts) && ChildPending(parent, sts)[c] == sts[i].task
  {
    var n := |sts| - 1;
    if i < n {
      assert forall j | 0 <= j < n :: sts[..n][j] == sts[j];
      ChildTasks(parent, sts[..n], i);
      if ChildAddr(parent, sts[n].id) == ChildAddr(parent, sts[i].id) {
        ChildAddrInjective(parent, sts[n].id, sts[i].id);
      }
    }
  }

  /**
   * A decomposition applies the method's effect and puts each subtask below the decomposed node, which
   * leaves; of subtasks with one id the last counts. The other tasks stay, unless a subtask takes their address.
   */
  lemma DecompositionStep(ir: GroundedIR, s: Composite, a: Addr, m: GroundMethod, s': Composite)
    requires Step(ir, s, Decompose(a, m), s')
    ensures s'.facts == Apply(s.facts, m.effect)
    ensures a !in s'.frontier.pending
    ensures forall x :: x in s'.frontier.pending <==>
              (x != a && x in s.frontier.pending) || exists i :: 0 <= i < |m.subtasks| && x == a + "." + m.subtasks[i].id
    ensures forall i | 0 <= i < |m.subtasks| && IsLastOfId(m.subtasks, i) ::
              s'.frontier.pending[a + "." + m.subtasks[i].id] == m.subtasks[i].task
    ensures forall x | x != a && x in s.frontier.pending
                       && (forall i | 0 <= i < |m.subtasks| :: x != a + "." + m.subtasks[i].id) ::
              s'.frontier.pending[x] == s.frontier.pending[x]
  {
    hide Apply, Eval, Detach, Pairs, Firsts, Lasts, ChildOrder, Predecessors, Successors, HasIncoming;
    ChildPendingKeys(a, m.subtasks);
    var below := ChildPending(a, m.subtasks);
    assert s'.frontier.pending == s.frontier.pending - {a} + below;
    hide ChildPending;
    assert forall x :: x in below <==> exists i :: 0 <= i < |m.subtasks| && x == a + "." + m.subtasks[i].id;
    assert a !in below;
    forall i | 0 <= i < |m.subtasks| && IsLastOfId(m.subtasks, i)
      ensures s'.frontier.pending[a + "." + m.subtasks[i].id] == m.subtasks[i].task
    {
      ChildTasks(a, m.subtasks, i);
    }
  }

  /** The method puts some subtask after the one with this id. */
  ghost predicate HasLater(m: GroundMethod, id: Name) {
    exists k :: 0 <= k < |m.order| && m.order[k].0 == id
  }

  lemma LastsAreIds(a: Addr, m: GroundMethod, c: Addr)
    ensures c in Lasts(ChildAddrs(a, m.subtasks), ChildOrder(a, m.order)) <==>
              exists i :: 0 <= i < |m.subtasks| && c == a + "." + m.subtasks[i].id && !HasLater(m, m.subtasks[i].id)
  {
    forall id ensures HasOutgoing(ChildOrder(a, m.order), ChildAddr(a, id)) <==> HasLater(m, id) {
      if k :| 0 <= k < |m.order| && m.order[k].0 == id {
        assert (ChildAddr(a, m.order[k].0), ChildAddr(a, m.order[k].1)) in ChildOrder(a, m.order);
      }
      if e :| e in ChildOrder(a, m.order) && e.0 == ChildAddr(a, id) {
        var k :| 0 <= k < |m.order| && e == (ChildAddr(a, m.order[k].0), ChildAddr(a, m.order[k].1));
        ChildAddrInjective(a, m.order[k].0, id);
      }
    }
  }

  /**
   * The constraints after a decomposition: those not from the node, those of the method between its subtasks,
   * and from each subtask that precedes no other to whatever the node preceded.
   */
  lemma DecompositionOrder(ir: GroundedIR, s: Composite, a: Addr, m: GroundMethod, s': Composite, e: Edge)
    requires Step(ir, s, Decompose(a, m), s')
    ensures e in s'.frontier.order <==>
              || (e in s.frontier.order && e.0 != a)
              || (exists k :: 0 <= k < |m.order| && e == (a + "." + m.order[k].0, a + "." + m.order[k].1))
              || ((a, e.1) in s.frontier.order
                  && exists i :: 0 <= i < |m.subtasks| && e.0 == a + "." + m.subtasks[i].id && !HasLater(m, m.subtasks[i].id))
  {
    hide Apply, Eval, Lasts, Firsts, HasLater;
    assert !HasIncoming(s.frontier.order, a);
    assert Predecessors(s.frontier.order, a) == {};
    assert e.1 in Successors(s.frontier.order, a) <==> (a, e.1) in s.frontier.order;
    LastsAreIds(a, m, e.0);
    assert e in ChildOrder(a, m.order) <==>
           exists k :: 0 <= k < |m.order| && e == (a + "." + m.order[k].0, a + "." + m.order[k].1);
  }

  /** An exploration starts in the initial facts, with the root subtasks pending below `r`. */
  lemma InitialNetwork(init: Facts, net: RootNetwork)
    ensures var s := InitialState(init, net);
            && s.facts == init
            && (forall x :: x in s.frontier.pending <==> exists i :: 0 <= i < |net.subtasks| && x == "r." + net.subtasks[i].id)
            && (forall i | 0 <= i < |net.subtasks| && IsLastOfId(net.subtasks, i) ::
                  s.frontier.pending["r." + net.subtasks[i].id] == net.subtasks[i].task)
            && (forall e :: e in s.frontier.order <==>
                  exists k :: 0 <= k < |net.order| && e == ("r." + net.order[k].0, "r." + net.order[k].1))
  {
    ChildPendingKeys("r", net.subtasks);
    hide ChildPending;
    assert forall id :: ChildAddr("r", id) == "r." + id;
    forall i | 0 <= i < |net.subtasks| && IsLastOfId(net.subtasks, i)
      ensures ChildPending("r", net.subtasks)["r." + net.subtasks[i].id] == net.subtasks[i].task
    {
      ChildTasks("r", net.subtasks, i);
    }
  }

  // ---- runs ----

  /** A run from some root network: consecutive states joined by steps. */
  ghost predicate Run(ir: GroundedIR, states: seq<Composite>, labels: seq<Label>) {
    && |states| == |labels| + 1
    && (exists net :: net in ir.roots && states[0] == InitialState(ir.init, net))
    && forall i | 0 <= i < |labels| :: Step(ir, states[i], labels[i], states[i + 1])
  }

  /** A run that empties the task network. */
  ghost predicate Solution(ir: GroundedIR, states: seq<Composite>, labels: seq<Label>) {
    Run(ir, states, labels) && states[|labels|].frontier.pending == map[]
  }

  /** The goal, its quantifiers expanded, is true of the facts. */
  ghost predicate GoalHolds(g: GoalDesc, facts: Facts) {
    Ground(g, map[], map[]).Ok? && Truth(Ground(g, map[], map[]).value, facts)
  }

  /** A run that empties the task network in a state where the goal holds. */
  ghost predicate GoalSolution(ir: GroundedIR, states: seq<Composite>, labels: seq<Label>) {
    Solution(ir, states, labels) && GoalHolds(ir.goal, states[|labels|].facts)
  }

  lemma {:induction false} SelfLoopRepeats(
    ir: GroundedIR, states: seq<Composite>, labels: seq<Label>, l: Label, times: nat)
    requires Run(ir, states, labels) && Step(ir, states[|labels|], l, states[|labels|])
    ensures Run(ir, states + seq(times, _ => states[|labels|]), labels + seq(times, _ => l))
    decreases times
  {
    var s := states[|labels|];
    if times == 0 {
      assert states + seq(0, _ => s) == states && labels + seq(0, _ => l) == labels;
    } else {
      RunSnoc(ir, states, labels, l, s);
      SelfLoopRepeats(ir, states + [s], labels + [l], l, times - 1);
      assert states + [s] + seq(times - 1, _ => s) == states + seq(times, _ => s);
      assert labels + [l] + seq(times - 1, _ => l) == labels + seq(times, _ => l);
    }
  }

  /** An execution with other outcomes than one that changes nothing can be retried any number of times. */
  lemma RetryAnyNumberOfTimes(
    ir: GroundedIR, states: seq<Composite>, labels: seq<Label>, a: Addr, act: GroundAction, i: nat, s': Composite,
    times: nat)
    requires Run(ir, states, labels) && Step(ir, states[|labels|], Execute(a, act, i), s')
    requires |act.outcomes| > 1 && Apply(states[|labels|].facts, act.outcomes[i]) == states[|labels|].facts
    ensures Run(ir, states + seq(times, _ => states[|labels|]), labels + seq(times, _ => Execute(a, act, i)))
  {
    ExecutionStep(ir, states[|labels|], a, act, i, s');
    SelfLoopRepeats(ir, states, labels, Execute(a, act, i), times);
  }

  lemma RunPrefix(ir: GroundedIR, states: seq<Composite>, labels: seq<Label>, n: nat)
    requires Run(ir, states, labels) && n <= |labels|
    ensures Run(ir, states[..n + 1], labels[..n])
  {
  }

  lemma RunSnoc(ir: GroundedIR, states: seq<Composite>, labels: seq<Label>, l: Label, s: Composite)
    requires Run(ir, states, labels) && Step(ir, states[|labels|], l, s)
    ensures Run(ir, states + [s], labels + [l])
  {
    var states', labels' := states + [s], labels + [l];
    forall i | 0 <= i < |labels'| ensures Step(ir, states'[i], labels'[i], states'[i + 1]) {
      if i < |labels| {
        assert states'[i] == states[i] && states'[i + 1] == states[i + 1];
      }
    }
  }

  // ---- children ----

  lemma {:induction false} ChildPendingKeys(parent: Addr, sts: seq<GroundSubtask>)
    ensures ChildPending(parent, sts).Keys == ChildAddrs(parent, sts)
  {
    if sts != [] {
      var n := |sts| - 1;
      ChildPendingKeys(parent, sts[..n]);
      assert forall i | 0 <= i < n :: sts[..n][i] == sts[i];
      forall c | c in ChildAddrs(parent, sts) ensures c in ChildPending(parent, sts) {
        var i :| 0 <= i < |sts| && c == ChildAddr(parent, sts[i].id);
        if i < n {
          assert c == ChildAddr(parent, sts[..n][i].id);
        }
      }
      forall c | c in ChildPending(parent, sts) ensures c in ChildAddrs(parent, sts) {
        if c in ChildPending(parent, sts[..n]) {
          var i :| 0 <= i < n && c == ChildAddr(parent, sts[..n][i].id);
          assert c == ChildAddr(parent, sts[i].id);
        } else {
          assert c == ChildAddr(parent, sts[n].id);
        }
      }
    }
  }

  lemma ChildAddrInjective(parent: Addr, x: Name, y: Name)
    requires ChildAddr(parent, x) == ChildAddr(parent, y)
    ensures x == y
  {
    assert x == ChildAddr(parent, x)[|parent| + 1..];
    assert y == ChildAddr(parent, y)[|parent| + 1..];
  }

  /** A child is one level deeper than its parent when its id has no dot, and deeper still when it has. */
  lemma {:induction false} ChildDepth(parent: Addr, id: Name)
    ensures DepthOf(ChildAddr(parent, id)) == DepthOf(parent) + 1 + DepthOf(id)
    ensures '.' !in id ==> DepthOf(id) == 0
  {
    if parent == "" {
      assert ChildAddr(parent, id)[1..] == id;
      NoDots(id);
    } else {
      assert ChildAddr(parent, id)[1..] == ChildAddr(parent[1..], id);
      ChildDepth(parent[1..], id);
    }
  }

  lemma {:induction false} NoDots(id: Name)
    ensures '.' !in id ==> DepthOf(id) == 0
  {
    if id != "" {
      NoDots(id[1..]);
    }
  }
}
