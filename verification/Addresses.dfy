// Task-network addresses: when joining subtask ids with dots tells all positions apart.
module Addresses {
  import opened HddlAst
  import opened Effects
  import opened Goals
  import opened Grounders
  import opened Htn

  type Ids = iset<Name>

  ghost predicate Over(path: seq<Name>, ids: Ids) {
    forall i | 0 <= i < |path| :: path[i] in ids
  }

  /** The address reached from the root by a sequence of subtask ids. */
  function AddrOf(path: seq<Name>): Addr {
    if path == [] then "r" else ChildAddr(AddrOf(path[..|path| - 1]), path[|path| - 1])
  }

  /** Different sequences of these ids never join to the same address. */
  ghost predicate Unambiguous(ids: Ids) {
    forall p, q | Over(p, ids) && Over(q, ids) && AddrOf(p) == AddrOf(q) :: p == q
  }

  lemma FewerIdsAreUnambiguous(ids: Ids, fewer: Ids)
    requires Unambiguous(ids) && fewer <= ids
    ensures Unambiguous(fewer)
  {
    forall p, q | Over(p, fewer) && Over(q, fewer) && AddrOf(p) == AddrOf(q) ensures p == q {
      assert Over(p, ids) && Over(q, ids);
    }
  }

  lemma AddrSnoc(p: seq<Name>, x: Name)
    ensures AddrOf(p + [x]) == ChildAddr(AddrOf(p), x)
  {
    assert (p + [x])[..|p|] == p;
  }

  /** A longer path has a longer address. */
  lemma {:induction false} PrefixIsShorter(p: seq<Name>, i: nat)
    requires i < |p|
    ensures |AddrOf(p[..i])| < |AddrOf(p)|
  {
    var n := |p| - 1;
    if i < n {
      PrefixIsShorter(p[..n], i);
      assert p[..n][..i] == p[..i];
    }
  }

  /** Ids without dots are unambiguous. */
  lemma DotFreeIsUnambiguous()
    ensures Unambiguous(iset id: Name | '.' !in id)
  {
    var ids := iset id: Name | '.' !in id;
    forall p, q | Over(p, ids) && Over(q, ids) && AddrOf(p) == AddrOf(q) ensures p == q {
      DotFreeInjective(p, q);
    }
  }

  lemma {:induction false} DotFreeInjective(p: seq<Name>, q: seq<Name>)
    requires (forall i | 0 <= i < |p| :: '.' !in p[i]) && (forall i | 0 <= i < |q| :: '.' !in q[i])
    requires AddrOf(p) == AddrOf(q)
    ensures p == q
  {
    if p == [] {
      if q != [] {
        PrefixIsShorter(q, 0);
      }
    } else if q == [] {
      PrefixIsShorter(p, 0);
    } else {
      var m, n := |p| - 1, |q| - 1;
      LastSegment(AddrOf(p[..m]), p[m], AddrOf(q[..n]), q[n]);
      DotFreeInjective(p[..m], q[..n]);
      assert p == p[..m] + [p[m]] && q == q[..n] + [q[n]];
    }
  }

  lemma LastSegment(a: Addr, x: Name, b: Addr, y: Name)
    requires '.' !in x && '.' !in y && ChildAddr(a, x) == ChildAddr(b, y)
    ensures a == b && x == y
  {
    var c := ChildAddr(a, x);
    assert c[|a|] == '.' && c[|b|] == '.';
    assert forall k | |a| < k < |c| :: c[k] == x[k - |a| - 1];
    assert forall k | |b| < k < |c| :: c[k] == y[k - |b| - 1];
    assert a == c[..|a|] && b == c[..|b|];
    ChildAddrInjective(a, x, y);
  }

  /** `a` then `b` joins like `a.b`. */
  lemma DottedIdsAreAmbiguous()
    ensures !Unambiguous(iset{"a", "b", "a.b"})
  {
    var p, q := ["a", "b"], ["a.b"];
    assert p[..1] == ["a"] && p[..1][..0] == [] && q[..0] == [];
    assert AddrOf(["a"]) == "r.a";
    assert AddrOf(p) == "r.a.b" && AddrOf(q) == "r.a.b";
    assert Over(p, iset{"a", "b", "a.b"}) && Over(q, iset{"a", "b", "a.b"});
  }

  // ---- nodes of the decomposition tree ----

  ghost predicate IsNode(ids: Ids, a: Addr) {
    exists p :: Over(p, ids) && AddrOf(p) == a
  }

  ghost function PathOf(ids: Ids, a: Addr): (p: seq<Name>)
    requires IsNode(ids, a)
    ensures Over(p, ids) && AddrOf(p) == a
  {
    var p :| Over(p, ids) && AddrOf(p) == a;
    p
  }

  lemma ChildPath(ids: Ids, a: Addr, id: Name)
    requires Unambiguous(ids) && IsNode(ids, a) && id in ids
    ensures IsNode(ids, ChildAddr(a, id)) && PathOf(ids, ChildAddr(a, id)) == PathOf(ids, a) + [id]
  {
    var p := PathOf(ids, a) + [id];
    AddrSnoc(PathOf(ids, a), id);
    assert Over(p, ids);
  }

  /** `b` lies below `a` in the decomposition tree. */
  ghost predicate Below(ids: Ids, a: Addr, b: Addr) {
    IsNode(ids, a) && IsNode(ids, b) && PathOf(ids, a) < PathOf(ids, b)
  }

  ghost predicate NoneBelow(ids: Ids, pending: map<Addr, string>) {
    && (forall a | a in pending :: IsNode(ids, a))
    && forall a, b | a in pending && b in pending :: !Below(ids, a, b)
  }

  ghost predicate IdsWithin(sts: seq<GroundSubtask>, ids: Ids) {
    forall i | 0 <= i < |sts| :: sts[i].id in ids
  }

  /** Equal ids carry equal tasks. */
  ghost predicate Consistent(sts: seq<GroundSubtask>) {
    forall i, j | 0 <= i < j < |sts| && sts[i].id == sts[j].id :: sts[i].task == sts[j].task
  }

  ghost predicate DistinctIds(sts: seq<GroundSubtask>) {
    forall i, j | 0 <= i < j < |sts| :: sts[i].id != sts[j].id
  }

  // ---- siblings ----

  lemma {:induction false} LastTaskWins(parent: Addr, sts: seq<GroundSubtask>, i: nat)
    requires Consistent(sts) && i < |sts|
    ensures ChildAddr(parent, sts[i].id) in ChildPending(parent, sts)
    ensures ChildPending(parent, sts)[ChildAddr(parent, sts[i].id)] == sts[i].task
  {
    var n := |sts| - 1;
    if i < n {
      LastTaskWins(parent, sts[..n], i);
      if ChildAddr(parent, sts[i].id) == ChildAddr(parent, sts[n].id) {
        ChildAddrInjective(parent, sts[i].id, sts[n].id);
      }
    }
  }

  /** The last subtask with an id is the one that is pending at its address. */
  lemma {:induction false} PendingIsLast(parent: Addr, sts: seq<GroundSubtask>, j: nat)
    requires j < |sts| && forall k | j < k < |sts| :: sts[k].id != sts[j].id
    ensures ChildAddr(parent, sts[j].id) in ChildPending(parent, sts)
    ensures ChildPending(parent, sts)[ChildAddr(parent, sts[j].id)] == sts[j].task
  {
    var n := |sts| - 1;
    if j < n {
      PendingIsLast(parent, sts[..n], j);
      if ChildAddr(parent, sts[j].id) == ChildAddr(parent, sts[n].id) {
        ChildAddrInjective(parent, sts[j].id, sts[n].id);
      }
    }
  }

  lemma {:induction false} LastOf(sts: seq<GroundSubtask>, i: nat) returns (j: nat)
    requires i < |sts|
    ensures i <= j < |sts| && sts[j].id == sts[i].id && forall k | j < k < |sts| :: sts[k].id != sts[j].id
    decreases |sts| - i
  {
    if k :| i < k < |sts| && sts[k].id == sts[i].id {
      j := LastOf(sts, k);
    } else {
      j := i;
    }
  }

  /** Every subtask is pending with its own task exactly when equal ids carry equal tasks. */
  lemma NoTaskIsLostIff(parent: Addr, sts: seq<GroundSubtask>)
    ensures (forall i | 0 <= i < |sts| ::
               && ChildAddr(parent, sts[i].id) in ChildPending(parent, sts)
               && ChildPending(parent, sts)[ChildAddr(parent, sts[i].id)] == sts[i].task)
       <==> Consistent(sts)
  {
    if Consistent(sts) {
      forall i | 0 <= i < |sts|
        ensures ChildAddr(parent, sts[i].id) in ChildPending(parent, sts)
        ensures ChildPending(parent, sts)[ChildAddr(parent, sts[i].id)] == sts[i].task
      {
        LastTaskWins(parent, sts, i);
      }
    }
  }

  lemma TakenIffRepeated(parent: Addr, sts: seq<GroundSubtask>, id: Name)
    ensures ChildAddr(parent, id) in ChildPending(parent, sts) <==> exists i :: 0 <= i < |sts| && sts[i].id == id
  {
    ChildPendingKeys(parent, sts);
    var c := ChildAddr(parent, id);
    if c in ChildPending(parent, sts).Keys {
      var i :| 0 <= i < |sts| && c == ChildAddr(parent, sts[i].id);
      ChildAddrInjective(parent, sts[i].id, id);
    }
    if i :| 0 <= i < |sts| && sts[i].id == id {
      assert c in ChildAddrs(parent, sts);
    }
  }

  lemma DistinctSnoc(sts: seq<GroundSubtask>)
    requires sts != []
    ensures var n := |sts| - 1;
            DistinctIds(sts) <==> DistinctIds(sts[..n]) && !(exists i :: 0 <= i < n && sts[..n][i].id == sts[n].id)
  {
    var n := |sts| - 1;
    assert forall i | 0 <= i < n :: sts[..n][i] == sts[i];
  }

  /** Every subtask gets a pending node of its own exactly when the ids are distinct. */
  lemma {:induction false} OwnNodesIff(parent: Addr, sts: seq<GroundSubtask>)
    ensures |ChildPending(parent, sts)| <= |sts|
    ensures |ChildPending(parent, sts)| == |sts| <==> DistinctIds(sts)
  {
    hide DistinctIds, ChildAddr;
    if sts == [] {
      NoIdsAreDistinct();
    } else {
      var n := |sts| - 1;
      var before := ChildPending(parent, sts[..n]);
      OwnNodesIff(parent, sts[..n]);
      TakenIffRepeated(parent, sts[..n], sts[n].id);
      DistinctSnoc(sts);
      UpdateSize(before, ChildAddr(parent, sts[n].id), sts[n].task);
    }
  }

  lemma NoIdsAreDistinct()
    ensures DistinctIds([])
  {
  }

  lemma UpdateSize(m: map<Addr, string>, k: Addr, v: string)
    ensures |m[k := v]| == |m| + if k in m then 0 else 1
  {
    assert m[k := v].Keys == m.Keys + {k};
    assert |m[k := v].Keys| == |m[k := v]| && |m.Keys| == |m|;
    if k in m {
      assert m.Keys + {k} == m.Keys;
    }
  }

  // ---- unambiguous ids never collide ----

  lemma ChildrenAreNew(ids: Ids, f: Frontier, a: Addr, sts: seq<GroundSubtask>)
    requires Unambiguous(ids) && NoneBelow(ids, f.pending) && a in f.pending && IdsWithin(sts, ids)
    ensures forall c | c in ChildAddrs(a, sts) :: c !in f.pending && IsNode(ids, c) && Below(ids, a, c)
  {
    forall c | c in ChildAddrs(a, sts) ensures c !in f.pending && IsNode(ids, c) && Below(ids, a, c) {
      var i :| 0 <= i < |sts| && c == ChildAddr(a, sts[i].id);
      ChildPath(ids, a, sts[i].id);
    }
  }

  /** What lies below a child lies below its parent, and what a child lies below is at or above its parent. */
  lemma ChildLies(ids: Ids, a: Addr, sts: seq<GroundSubtask>, c: Addr, b: Addr)
    requires Unambiguous(ids) && IsNode(ids, a) && IdsWithin(sts, ids) && c in ChildAddrs(a, sts)
    ensures Below(ids, c, b) ==> Below(ids, a, b)
    ensures Below(ids, b, c) ==> b == a || Below(ids, b, a)
  {
    var i :| 0 <= i < |sts| && c == ChildAddr(a, sts[i].id);
    ChildPath(ids, a, sts[i].id);
    var p := PathOf(ids, a);
    if Below(ids, b, c) {
      var q := PathOf(ids, b);
      if |q| == |p| {
        assert q == p;
      } else {
        assert q == (p + [sts[i].id])[..|q|] == p[..|q|];
      }
    }
    if Below(ids, c, b) {
      var q := PathOf(ids, b);
      assert q[..|p|] == (p + [sts[i].id])[..|p|] == p;
    }
  }

  /** Decomposing keeps the pending nodes unrelated, adds every child, and touches no other node. */
  lemma RefineKeepsNoneBelow(ids: Ids, f: Frontier, a: Addr, m: GroundMethod)
    requires Unambiguous(ids) && NoneBelow(ids, f.pending) && a in f.pending && IdsWithin(m.subtasks, ids)
    ensures NoneBelow(ids, Refine(f, a, m).pending)
    ensures forall b | b in f.pending && b != a ::
              b in Refine(f, a, m).pending && Refine(f, a, m).pending[b] == f.pending[b]
    ensures forall c | c in ChildAddrs(a, m.subtasks) ::
              && c in Refine(f, a, m).pending && c in ChildPending(a, m.subtasks)
              && Refine(f, a, m).pending[c] == ChildPending(a, m.subtasks)[c]
  {
    ChildPendingKeys(a, m.subtasks);
    ChildrenAreNew(ids, f, a, m.subtasks);
    var children, after := ChildAddrs(a, m.subtasks), Refine(f, a, m).pending;
    assert forall b :: b in after <==> (b in f.pending && b != a) || b in children;
    forall b, c | b in after && c in after ensures !Below(ids, b, c) {
      if b in children {
        ChildLies(ids, a, m.subtasks, b, c);
        if c in children {
          SiblingsAreUnrelated(ids, a, m.subtasks, b, c);
        }
      } else if c in children {
        ChildLies(ids, a, m.subtasks, c, b);
      }
    }
  }

  lemma SiblingsAreUnrelated(ids: Ids, a: Addr, sts: seq<GroundSubtask>, b: Addr, c: Addr)
    requires Unambiguous(ids) && IsNode(ids, a) && IdsWithin(sts, ids)
    requires b in ChildAddrs(a, sts) && c in ChildAddrs(a, sts)
    ensures !Below(ids, b, c)
  {
    var i :| 0 <= i < |sts| && b == ChildAddr(a, sts[i].id);
    var j :| 0 <= j < |sts| && c == ChildAddr(a, sts[j].id);
    ChildPath(ids, a, sts[i].id);
    ChildPath(ids, a, sts[j].id);
  }

  /** All networks of the problem draw their subtask ids from `ids`. */
  ghost predicate DrawsFrom(ir: GroundedIR, ids: Ids) {
    && (forall m | m in ir.methods :: IdsWithin(m.subtasks, ids))
    && (forall net | net in ir.roots :: IdsWithin(net.subtasks, ids))
  }

  /** One step keeps the pending nodes unrelated and leaves every other pending node as it was. */
  lemma StepKeepsNoneBelow(ids: Ids, ir: GroundedIR, s: Composite, l: Label, s': Composite)
    requires Unambiguous(ids) && DrawsFrom(ir, ids) && Step(ir, s, l, s') && NoneBelow(ids, s.frontier.pending)
    ensures NoneBelow(ids, s'.frontier.pending)
    ensures forall b | b in s.frontier.pending && b != l.addr ::
              b in s'.frontier.pending && s'.frontier.pending[b] == s.frontier.pending[b]
  {
    match l
    case Decompose(a, m) => RefineKeepsNoneBelow(ids, s.frontier, a, m);
    case Execute(_, _, _) =>
  }

  lemma InitialNoneBelow(ids: Ids, init: Facts, net: RootNetwork)
    requires Unambiguous(ids) && IdsWithin(net.subtasks, ids)
    ensures NoneBelow(ids, InitialState(init, net).frontier.pending)
  {
    var pending := ChildPending("r", net.subtasks);
    ChildPendingKeys("r", net.subtasks);
    assert Over([], ids) && AddrOf([]) == "r";
    forall b | b in pending ensures IsNode(ids, b) {
      var i :| 0 <= i < |net.subtasks| && b == ChildAddr("r", net.subtasks[i].id);
      ChildPath(ids, "r", net.subtasks[i].id);
    }
    forall b, c | b in pending && c in pending ensures !Below(ids, b, c) {
      SiblingsAreUnrelated(ids, "r", net.subtasks, b, c);
    }
  }

  lemma {:induction false} RunKeepsNoneBelow(ids: Ids, ir: GroundedIR, states: seq<Composite>, labels: seq<Label>, i: nat)
    requires Unambiguous(ids) && DrawsFrom(ir, ids) && Run(ir, states, labels) && i <= |labels|
    ensures NoneBelow(ids, states[i].frontier.pending)
  {
    if i == 0 {
      var net :| net in ir.roots && states[0] == InitialState(ir.init, net);
      InitialNoneBelow(ids, ir.init, net);
    } else {
      RunKeepsNoneBelow(ids, ir, states, labels, i - 1);
      StepKeepsNoneBelow(ids, ir, states[i - 1], labels[i - 1], states[i]);
    }
  }

  // ---- ambiguous ids do collide ----

  /** The step gives a child the address of another pending node. */
  ghost predicate Collides(s: Composite, l: Label) {
    l.Decompose? && exists c :: c in ChildAddrs(l.addr, l.m.subtasks) && c in s.frontier.pending
  }

  ghost predicate DistinctIR(ir: GroundedIR) {
    && (forall m | m in ir.methods :: DistinctIds(m.subtasks))
    && (forall net | net in ir.roots :: DistinctIds(net.subtasks))
  }

  /** Along every run of every problem with these ids, distinct within each network, no child takes an occupied address. */
  ghost predicate NeverCollides(ids: Ids) {
    forall ir: GroundedIR, states: seq<Composite>, labels: seq<Label>, i: int |
      DrawsFrom(ir, ids) && DistinctIR(ir) && Run(ir, states, labels) && 0 <= i < |labels| ::
      !Collides(states[i], labels[i])
  }

  /** Two paths that part at once and first meet again at their ends. */
  ghost predicate Clash(p: seq<Name>, q: seq<Name>) {
    && p != [] && q != [] && p[0] != q[0] && AddrOf(p) == AddrOf(q)
    && forall i, j | 1 <= i <= |p| && 1 <= j <= |q| && (i < |p| || j < |q|) :: AddrOf(p[..i]) != AddrOf(q[..j])
  }

  function Tail(a: Addr): string
    requires a != ""
  {
    a[1..]
  }

  lemma {:induction false} AddrCons(x: Name, p: seq<Name>)
    ensures AddrOf(p) != "" && AddrOf([x] + p) == "r." + x + Tail(AddrOf(p))
  {
    if p == [] {
      assert [x] + p == [] + [x];
      AddrSnoc([], x);
    } else {
      var n := |p| - 1;
      AddrCons(x, p[..n]);
      assert [x] + p == ([x] + p[..n]) + [p[n]];
      AddrSnoc([x] + p[..n], p[n]);
      assert AddrOf(p) == AddrOf(p[..n]) + "." + p[n];
    }
  }

  lemma SameHead(p: seq<Name>, q: seq<Name>)
    requires p != [] && q != [] && p[0] == q[0] && AddrOf(p) == AddrOf(q)
    ensures AddrOf(p[1..]) == AddrOf(q[1..])
  {
    AddrCons(p[0], p[1..]);
    AddrCons(q[0], q[1..]);
    assert [p[0]] + p[1..] == p && [q[0]] + q[1..] == q;
    var h := "r." + p[0];
    assert Tail(AddrOf(p[1..])) == AddrOf(p)[|h|..] == Tail(AddrOf(q[1..]));
    StartsAtRoot(p[1..]);
    StartsAtRoot(q[1..]);
  }

  lemma {:induction false} StartsAtRoot(p: seq<Name>)
    ensures AddrOf(p) != "" && AddrOf(p) == "r" + Tail(AddrOf(p))
  {
    if p != [] {
      StartsAtRoot(p[..|p| - 1]);
    }
  }

  /** Two paths to one address contain a clash. */
  lemma {:induction false} FindClash(ids: Ids, p: seq<Name>, q: seq<Name>) returns (p': seq<Name>, q': seq<Name>)
    requires Over(p, ids) && Over(q, ids) && p != q && AddrOf(p) == AddrOf(q)
    ensures Over(p', ids) && Over(q', ids) && Clash(p', q')
    decreases |p| + |q|
  {
    if p == [] {
      PrefixIsShorter(q, 0);
    } else if q == [] {
      PrefixIsShorter(p, 0);
    }
    if p[0] == q[0] {
      SameHead(p, q);
      assert p == [p[0]] + p[1..] && q == [q[0]] + q[1..];
      p', q' := FindClash(ids, p[1..], q[1..]);
    } else if i, j :| 1 <= i <= |p| && 1 <= j <= |q| && (i < |p| || j < |q|) && AddrOf(p[..i]) == AddrOf(q[..j]) {
      assert p[..i][0] != q[..j][0];
      p', q' := FindClash(ids, p[..i], q[..j]);
    } else {
      p', q' := p, q;
    }
  }

  /** One of two clashing paths has two steps or more. */
  lemma ClashIsLong(p: seq<Name>, q: seq<Name>)
    requires Clash(p, q)
    ensures |p| > 1 || |q| > 1
    ensures Clash(q, p)
  {
    if |p| == 1 && |q| == 1 {
      assert p == [] + [p[0]] && q == [] + [q[0]];
      AddrSnoc([], p[0]);
      AddrSnoc([], q[0]);
      ChildAddrInjective("r", p[0], q[0]);
    }
  }

  // ---- walking down one path ----

  /** A method that replaces a task by the same task under one id and changes no fact. */
  predicate IsGo(m: GroundMethod, task: string, id: Name) {
    m.task == task && m.pre == GEmpty && m.effect == EMPTY_BRANCH && m.subtasks == [GroundSubtask(id, task)] && m.order == []
  }

  ghost predicate CanGo(ir: GroundedIR, task: string, id: Name) {
    exists m :: m in ir.methods && IsGo(m, task, id)
  }

  ghost predicate HasGoes(ir: GroundedIR, task: string, path: seq<Name>) {
    forall i | 0 <= i < |path| :: CanGo(ir, task, path[i])
  }

  /** Moving one node down by one id, in place of whatever was at the new address. */
  function MoveDown(pending: map<Addr, string>, from: Addr, to: Addr, task: string): map<Addr, string> {
    (pending - {from})[to := task]
  }

  lemma GoStep(ir: GroundedIR, s: Composite, a: Addr, task: string, id: Name) returns (l: Label, s': Composite)
    requires CanGo(ir, task, id)
    requires a in s.frontier.pending && s.frontier.pending[a] == task && s.frontier.order == {}
    ensures Step(ir, s, l, s') && l.Decompose? && l.addr == a && ChildAddr(a, id) in ChildAddrs(a, l.m.subtasks)
    ensures s' == Composite(s.facts, Frontier(MoveDown(s.frontier.pending, a, ChildAddr(a, id), task), {}))
  {
    var m :| m in ir.methods && IsGo(m, task, id);
    var c := ChildAddr(a, id);
    l, s' := Decompose(a, m), AfterMethod(s, a, m);
    assert m.subtasks[..0] == [];
    assert ChildPending(a, m.subtasks) == map[c := task];
    assert ChildAddrs(a, m.subtasks) == {c} by {
      assert m.subtasks[0].id == id;
    }
    assert ChildOrder(a, m.order) == {};
    assert Predecessors({}, a) == {} && Successors({}, a) == {};
    assert s.frontier.pending - {a} + map[c := task] == (s.frontier.pending - {a})[c := task];
    assert s.facts - {} + {} == s.facts;
  }

  lemma MoveTwice(pending: map<Addr, string>, from: Addr, mid: Addr, to: Addr, task: string)
    requires mid !in pending
    ensures MoveDown(MoveDown(pending, from, mid, task), mid, to, task) == MoveDown(pending, from, to, task)
  {
  }

  lemma MoveNowhere(pending: map<Addr, string>, at: Addr, task: string)
    requires at in pending && pending[at] == task
    ensures MoveDown(pending, at, at, task) == pending
  {
  }

  lemma ProperPrefixDiffers(path: seq<Name>, i: nat, j: nat)
    requires i < j <= |path|
    ensures AddrOf(path[..i]) != AddrOf(path[..j])
  {
    PrefixIsShorter(path[..j], i);
    assert path[..j][..i] == path[..i];
  }

  /** From the `i`-th node of a path to the next one. */
  lemma WalkOne(ir: GroundedIR, states: seq<Composite>, labels: seq<Label>, path: seq<Name>, i: nat, task: string)
    returns (l: Label, s1: Composite)
    requires Run(ir, states, labels) && 1 <= i < |path| && CanGo(ir, task, path[i])
    requires states[|labels|].frontier.order == {}
    requires AddrOf(path[..i]) in states[|labels|].frontier.pending
    requires states[|labels|].frontier.pending[AddrOf(path[..i])] == task
    ensures Run(ir, states + [s1], labels + [l])
    ensures s1 == Composite(
              states[|labels|].facts,
              Frontier(MoveDown(states[|labels|].frontier.pending, AddrOf(path[..i]), AddrOf(path[..i + 1]), task), {}))
  {
    assert |states| == |labels| + 1;
    hide Run, Step, AddrOf, CanGo;
    l, s1 := GoStep(ir, states[|labels|], AddrOf(path[..i]), task, path[i]);
    assert path[..i + 1] == path[..i] + [path[i]];
    AddrSnoc(path[..i], path[i]);
    RunSnoc(ir, states, labels, l, s1);
  }

  /** None of the later nodes of the path is pending, except perhaps its end. */
  ghost predicate ClearAhead(pending: map<Addr, string>, path: seq<Name>, i: nat) {
    forall j | i < j < |path| :: AddrOf(path[..j]) !in pending
  }

  lemma StaysClear(pending: map<Addr, string>, path: seq<Name>, i: nat, from: Addr, task: string)
    requires ClearAhead(pending, path, i) && i < |path|
    ensures ClearAhead(MoveDown(pending, from, AddrOf(path[..i + 1]), task), path, i + 1)
  {
    forall j | i + 1 < j < |path| ensures AddrOf(path[..j]) != AddrOf(path[..i + 1]) {
      ProperPrefixDiffers(path, i + 1, j);
    }
  }

  lemma MovesAdd(pending: map<Addr, string>, path: seq<Name>, i: nat, task: string)
    requires ClearAhead(pending, path, i) && i < |path|
    ensures var a, c := AddrOf(path[..i]), AddrOf(path[..i + 1]);
            MoveDown(MoveDown(pending, a, c, task), c, AddrOf(path), task) == MoveDown(pending, a, AddrOf(path), task)
  {
    var a, c := AddrOf(path[..i]), AddrOf(path[..i + 1]);
    if i + 1 < |path| {
      MoveTwice(pending, a, c, AddrOf(path), task);
    } else {
      assert path[..i + 1] == path;
      MoveNowhere(MoveDown(pending, a, c, task), c, task);
    }
  }

  /** From the `i`-th node of a path to its end. */
  lemma {:induction false} WalkDown(
    ir: GroundedIR, states: seq<Composite>, labels: seq<Label>, path: seq<Name>, i: nat, task: string)
    returns (states': seq<Composite>, labels': seq<Label>)
    requires Run(ir, states, labels) && 1 <= i <= |path| && HasGoes(ir, task, path)
    requires states[|labels|].frontier.order == {}
    requires AddrOf(path[..i]) in states[|labels|].frontier.pending
    requires states[|labels|].frontier.pending[AddrOf(path[..i])] == task
    requires ClearAhead(states[|labels|].frontier.pending, path, i)
    ensures Run(ir, states', labels') && |states'| == |labels'| + 1
    ensures states'[|labels'|] == Composite(
              states[|labels|].facts,
              Frontier(MoveDown(states[|labels|].frontier.pending, AddrOf(path[..i]), AddrOf(path), task), {}))
    decreases |path| - i
  {
    assert |states| == |labels| + 1;
    hide Run, Step, AddrOf, CanGo, ClearAhead;
    var pending := states[|labels|].frontier.pending;
    if i == |path| {
      assert path[..i] == path;
      MoveNowhere(pending, AddrOf(path), task);
      states', labels' := states, labels;
    } else {
      var l, s1 := WalkOne(ir, states, labels, path, i, task);
      StaysClear(pending, path, i, AddrOf(path[..i]), task);
      states', labels' := WalkDown(ir, states + [s1], labels + [l], path, i + 1, task);
      MovesAdd(pending, path, i, task);
    }
  }

  // ---- a problem in which clashing ids collide ----

  function GoMethod(id: Name): GroundMethod {
    GroundMethod("go", "t", GEmpty, EMPTY_BRANCH, [GroundSubtask(id, "t")], [])
  }

  function ClashRoots(p: seq<Name>, q: seq<Name>): seq<GroundSubtask>
    requires p != [] && q != []
  {
    [GroundSubtask(p[0], "t"), GroundSubtask(q[0], "t")]
  }

  /** Two root subtasks, and a method that goes down by each id. */
  function ClashIR(p: seq<Name>, q: seq<Name>): GroundedIR
    requires p != [] && q != []
  {
    GroundedIR([], seq(|p + q|, i requires 0 <= i < |p + q| => GoMethod((p + q)[i])),
               [RootNetwork(ClashRoots(p, q), [])], {}, Empty)
  }

  lemma ClashHasGoes(p: seq<Name>, q: seq<Name>)
    requires p != [] && q != []
    ensures HasGoes(ClashIR(p, q), "t", p) && HasGoes(ClashIR(p, q), "t", q)
  {
    var ms := ClashIR(p, q).methods;
    forall i | 0 <= i < |p| ensures CanGo(ClashIR(p, q), "t", p[i]) {
      assert (p + q)[i] == p[i];
      assert ms[i] in ms && IsGo(ms[i], "t", p[i]);
    }
    forall i | 0 <= i < |q| ensures CanGo(ClashIR(p, q), "t", q[i]) {
      assert (p + q)[|p| + i] == q[i];
      assert ms[|p| + i] in ms && IsGo(ms[|p| + i], "t", q[i]);
    }
  }

  lemma ClashStarts(p: seq<Name>, q: seq<Name>)
    requires p != [] && q != [] && p[0] != q[0]
    ensures var s := InitialState({}, RootNetwork(ClashRoots(p, q), []));
            && AddrOf(p[..1]) != AddrOf(q[..1])
            && s.frontier == Frontier(map[AddrOf(p[..1]) := "t", AddrOf(q[..1]) := "t"], {})
            && Run(ClashIR(p, q), [s], [])
  {
    var sts := ClashRoots(p, q);
    assert sts[..1][..0] == [] && p[..1] == [] + [p[0]] && q[..1] == [] + [q[0]];
    AddrSnoc([], p[0]);
    AddrSnoc([], q[0]);
    if AddrOf(p[..1]) == AddrOf(q[..1]) {
      ChildAddrInjective("r", p[0], q[0]);
    }
    assert ChildPending("r", sts[..1]) == map[AddrOf(p[..1]) := "t"];
    assert ChildPending("r", sts) == map[AddrOf(p[..1]) := "t", AddrOf(q[..1]) := "t"];
    assert ChildOrder("r", []) == {};
    assert ClashIR(p, q).roots[0] in ClashIR(p, q).roots;
  }

  /** Two clashing paths, and the second root still at the start of its path. */
  lemma ClashApart(p: seq<Name>, q: seq<Name>, j: nat)
    requires Clash(p, q) && 1 <= j < |q|
    ensures AddrOf(q[..j]) != AddrOf(p)
    ensures j > 1 ==> AddrOf(q[..j]) != AddrOf(q[..1])
  {
    assert p[..|p|] == p;
    assert AddrOf(p[..|p|]) != AddrOf(q[..j]);
    if j > 1 {
      ProperPrefixDiffers(q, 1, j);
    }
  }

  /** The first root reaches the end of its path, the second one the node before it. */
  lemma ClashWalks(p: seq<Name>, q: seq<Name>) returns (states: seq<Composite>, labels: seq<Label>)
    requires Clash(p, q) && |q| > 1
    ensures Run(ClashIR(p, q), states, labels) && |states| == |labels| + 1
    ensures states[|labels|].frontier == Frontier(map[AddrOf(p) := "t", AddrOf(q[..|q| - 1]) := "t"], {})
  {
    hide Run, AddrOf, ClashIR, CanGo;
    var ir, short := ClashIR(p, q), q[..|q| - 1];
    ClashHasGoes(p, q);
    ClashStarts(p, q);
    forall j | 1 < j < |p| ensures AddrOf(p[..j]) != AddrOf(p[..1]) && AddrOf(p[..j]) != AddrOf(q[..1]) {
      ProperPrefixDiffers(p, 1, j);
    }
    var states1, labels1 := WalkDown(ir, [InitialState({}, RootNetwork(ClashRoots(p, q), []))], [], p, 1, "t");
    ClashApart(p, q, 1);
    assert states1[|labels1|].frontier.pending == map[AddrOf(p) := "t", AddrOf(q[..1]) := "t"];
    forall j | 1 <= j <= |short| ensures short[..j] == q[..j] {
    }
    forall j | 1 < j < |short| ensures AddrOf(short[..j]) !in states1[|labels1|].frontier.pending {
      ClashApart(p, q, j);
    }
    states, labels := WalkDown(ir, states1, labels1, short, 1, "t");
  }

  /** Walking both roots down their paths, the second one takes the address the first has reached. */
  lemma ClashCollides(p: seq<Name>, q: seq<Name>) returns (states: seq<Composite>, labels: seq<Label>)
    requires Clash(p, q) && |q| > 1
    ensures Run(ClashIR(p, q), states, labels) && labels != []
    ensures Collides(states[|labels| - 1], labels[|labels| - 1])
  {
    hide Run, Step, AddrOf, ClashIR, CanGo;
    var ir, n := ClashIR(p, q), |q| - 1;
    var states1, labels1 := ClashWalks(p, q);
    var s1 := states1[|labels1|];
    ClashApart(p, q, n);
    ClashHasGoes(p, q);
    var l, s2 := GoStep(ir, s1, AddrOf(q[..n]), "t", q[n]);
    assert q == q[..n] + [q[n]];
    AddrSnoc(q[..n], q[n]);
    RunSnoc(ir, states1, labels1, l, s2);
    states, labels := states1 + [s2], labels1 + [l];
  }

  lemma ClashDraws(ids: Ids, p: seq<Name>, q: seq<Name>)
    requires Over(p, ids) && Over(q, ids) && p != [] && q != [] && p[0] != q[0]
    ensures DrawsFrom(ClashIR(p, q), ids) && DistinctIR(ClashIR(p, q))
  {
    forall i | 0 <= i < |p + q| ensures (p + q)[i] in ids {
    }
  }

  /**
   * Addresses never collide for a vocabulary of subtask ids exactly when no two sequences of these
   * ids join alike. Distinct ids within a network are not needed for the one direction.
   */
  lemma AddressesNeverCollideIff(ids: Ids)
    ensures NeverCollides(ids) <==> Unambiguous(ids)
    ensures Unambiguous(ids) ==>
              forall ir: GroundedIR, states: seq<Composite>, labels: seq<Label>, i: int |
                DrawsFrom(ir, ids) && Run(ir, states, labels) && 0 <= i < |labels| ::
                !Collides(states[i], labels[i])
  {
    if Unambiguous(ids) {
      forall ir: GroundedIR, states: seq<Composite>, labels: seq<Label>, i: int |
        DrawsFrom(ir, ids) && Run(ir, states, labels) && 0 <= i < |labels|
        ensures !Collides(states[i], labels[i])
      {
        RunKeepsNoneBelow(ids, ir, states, labels, i);
        assert Step(ir, states[i], labels[i], states[i + 1]);
        if labels[i].Decompose? {
          ChildrenAreNew(ids, states[i].frontier, labels[i].addr, labels[i].m.subtasks);
        }
      }
    } else {
      var p0, q0 :| Over(p0, ids) && Over(q0, ids) && AddrOf(p0) == AddrOf(q0) && p0 != q0;
      var p, q := FindClash(ids, p0, q0);
      ClashIsLong(p, q);
      if |q| == 1 {
        p, q := q, p;
      }
      var states, labels := ClashCollides(p, q);
      ClashDraws(ids, p, q);
    }
  }
}
