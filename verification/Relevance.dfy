// Task relevance: the ground tasks that lie on some decomposition path from a root network.
module Relevance {
  import opened Prelude
  import opened HddlAst
  import opened Names
  import opened Bindings
  import opened Goals
  import opened Grounders

  // ---- what relevance is ----

  function TasksOf(sts: seq<GroundSubtask>): set<string> {
    set i | 0 <= i < |sts| :: sts[i].task
  }

  /** The ground subtasks of a method instance; none if they cannot be rendered. */
  function SubtaskNames(m: MethodDef, b: Binding): set<string> {
    var sts := GroundSubtasks(m.network.subtasks, b);
    if sts.Ok? then TasksOf(sts.value) else {}
  }

  function RootTasks(nets: seq<RootNetwork>): set<string> {
    set i, t | 0 <= i < |nets| && t in TasksOf(nets[i].subtasks) :: t
  }

  ghost predicate IsInstance(d: Domain, objs: ObjectIndex, m: MethodDef, b: Binding) {
    m in d.methods && b in BindingsOf(m.params, objs)
  }

  /** The subtasks of the instances of `m` that decompose `t`. */
  function DemandedBy(m: MethodDef, objs: ObjectIndex, t: string): set<string> {
    set b, u | b in BindingsOf(m.params, objs) && CallName(m.task, b) == Ok(t) && u in SubtaskNames(m, b) :: u
  }

  /** The subtasks of every method instance that decomposes `t`. */
  function Demanded(d: Domain, objs: ObjectIndex, t: string): set<string> {
    set m, u | m in d.methods && u in DemandedBy(m, objs, t) :: u
  }

  ghost predicate ClosedUnderDemand(d: Domain, objs: ObjectIndex, s: set<string>) {
    forall t | t in s :: Demanded(d, objs, t) <= s
  }

  /** The least set that contains the root tasks and is closed under demand. */
  ghost predicate IsRelevance(d: Domain, objs: ObjectIndex, roots: set<string>, s: set<string>) {
    && roots <= s
    && ClosedUnderDemand(d, objs, s)
    && InEveryClosedSet(d, objs, roots, s)
  }

  ghost predicate InEveryClosedSet(d: Domain, objs: ObjectIndex, roots: set<string>, s: set<string>) {
    forall c: set<string> | roots <= c && ClosedUnderDemand(d, objs, c) :: s <= c
  }

  /** Task symbols can be read back from ground task names. */
  predicate CleanTaskNames(d: Domain, p: Problem) {
    && (forall st | st in p.htn.subtasks :: '(' !in st.task.name)
    && (forall m | m in d.methods ::
          '(' !in m.task.name && forall st | st in m.network.subtasks :: '(' !in st.task.name)
  }

  lemma RelevanceIsUnique(d: Domain, objs: ObjectIndex, roots: set<string>, s: set<string>, t: set<string>)
    requires IsRelevance(d, objs, roots, s) && IsRelevance(d, objs, roots, t)
    ensures s == t
  {
  }

  /** Some instance of a method decomposes `t` with `u` among its subtasks. */
  ghost predicate Decomposes(d: Domain, objs: ObjectIndex, t: string, u: string) {
    exists m, b :: IsInstance(d, objs, m, b) && CallName(m.task, b) == Ok(t) && Yields(m, b, u)
  }

  ghost predicate Yields(m: MethodDef, b: Binding, u: string) {
    var sts := GroundSubtasks(m.network.subtasks, b);
    sts.Ok? && exists i :: 0 <= i < |sts.value| && sts.value[i].task == u
  }

  /** A root task, and from each task on to a subtask of one of its decompositions. */
  ghost predicate IsChain(d: Domain, objs: ObjectIndex, roots: set<string>, chain: seq<string>) {
    && chain != [] && chain[0] in roots
    && forall i | 0 < i < |chain| :: Decomposes(d, objs, chain[i - 1], chain[i])
  }

  ghost predicate EndsChain(d: Domain, objs: ObjectIndex, roots: set<string>, t: string) {
    exists chain :: IsChain(d, objs, roots, chain) && chain[|chain| - 1] == t
  }

  lemma DemandedIff(d: Domain, objs: ObjectIndex, t: string, u: string)
    ensures u in Demanded(d, objs, t) <==> Decomposes(d, objs, t, u)
  {
    hide BindingsOf, CallName, GroundSubtasks;
    forall m, b ensures u in SubtaskNames(m, b) <==> Yields(m, b, u) {
    }
    if u in Demanded(d, objs, t) {
      var m :| m in d.methods && u in DemandedBy(m, objs, t);
      var b :| b in BindingsOf(m.params, objs) && CallName(m.task, b) == Ok(t) && u in SubtaskNames(m, b);
      assert IsInstance(d, objs, m, b) && Yields(m, b, u);
    }
    if Decomposes(d, objs, t, u) {
      var m, b :| IsInstance(d, objs, m, b) && CallName(m.task, b) == Ok(t) && Yields(m, b, u);
      assert u in DemandedBy(m, objs, t);
    }
  }

  lemma {:induction false} ChainStays(d: Domain, objs: ObjectIndex, roots: set<string>, s: set<string>, chain: seq<string>)
    requires roots <= s && ClosedUnderDemand(d, objs, s) && IsChain(d, objs, roots, chain)
    ensures chain[|chain| - 1] in s
    decreases |chain|
  {
    if |chain| > 1 {
      var n := |chain| - 1;
      hide Demanded, Decomposes;
      assert IsChain(d, objs, roots, chain[..n]);
      ChainStays(d, objs, roots, s, chain[..n]);
      assert Decomposes(d, objs, chain[n - 1], chain[n]);
      DemandedIff(d, objs, chain[n - 1], chain[n]);
    }
  }

  lemma ChainExtends(d: Domain, objs: ObjectIndex, roots: set<string>, t: string, u: string)
    requires EndsChain(d, objs, roots, t) && Decomposes(d, objs, t, u)
    ensures EndsChain(d, objs, roots, u)
  {
    hide Decomposes;
    var chain :| IsChain(d, objs, roots, chain) && chain[|chain| - 1] == t;
    var longer := chain + [u];
    forall i | 0 < i < |longer| ensures Decomposes(d, objs, longer[i - 1], longer[i]) {
      if i < |chain| {
        assert longer[i - 1] == chain[i - 1] && longer[i] == chain[i];
      }
    }
    assert IsChain(d, objs, roots, longer) && longer[|longer| - 1] == u;
  }

  /** The relevant tasks are exactly those at the end of a chain of decompositions from a root task. */
  lemma RelevantIff(d: Domain, objs: ObjectIndex, roots: set<string>, s: set<string>, t: string)
    requires IsRelevance(d, objs, roots, s)
    ensures t in s <==> EndsChain(d, objs, roots, t)
  {
    hide Demanded, Decomposes;
    if chain :| IsChain(d, objs, roots, chain) && chain[|chain| - 1] == t {
      ChainStays(d, objs, roots, s, chain);
    }
    forall r | r in roots ensures EndsChain(d, objs, roots, r) {
      assert IsChain(d, objs, roots, [r]) && [r][|[r]| - 1] == r;
    }
    hide EndsChain, IsChain;
    var ends := set u | u in s && EndsChain(d, objs, roots, u);
    forall u, v | u in ends && v in Demanded(d, objs, u) ensures v in ends {
      DemandedIff(d, objs, u, v);
      ChainExtends(d, objs, roots, u, v);
    }
    assert roots <= ends && ClosedUnderDemand(d, objs, ends);
  }

  // ---- a worklist closure ----

  /** The growing closure: `todo` holds the members still to be expanded. */
  datatype Closure = Closure(relevant: set<string>, todo: seq<string>)

  /** `after` extends `before`; whatever is new is queued, and nothing new means the same queue. */
  ghost predicate Grows(before: Closure, after: Closure) {
    && before.relevant <= after.relevant
    && (after.relevant == before.relevant ==> after.todo == before.todo)
    && (forall t | t in before.todo || (t in after.relevant && t !in before.relevant) :: t in after.todo)
    && (forall t | t in after.todo :: t in before.todo || t in after.relevant)
  }

  method Enqueue(c: Closure, name: string) returns (c': Closure)
    ensures Grows(c, c') && c'.relevant == c.relevant + {name}
  {
    if name in c.relevant {
      assert c.relevant + {name} == c.relevant;
      c' := c;
    } else {
      c' := Closure(c.relevant + {name}, c.todo + [name]);
    }
  }

  lemma GrowsNot(c: Closure)
    ensures Grows(c, c)
  {
  }

  lemma GrowsTwice(x: Closure, y: Closure, z: Closure)
    requires Grows(x, y) && Grows(y, z)
    ensures Grows(x, z)
  {
    if z.relevant == x.relevant {
      assert y.relevant == x.relevant;
    }
  }

  // ---- stage one: symbols ----

  ghost function NamesCalled(sts: seq<Subtask>): set<Name> {
    set st | st in sts :: st.task.name
  }

  /** The symbols that the methods for `sym`, up to the `n`-th, call. */
  ghost function CalledBy(methods: seq<MethodDef>, n: nat, sym: Name): set<Name>
    requires n <= |methods|
  {
    if n == 0 then {}
    else CalledBy(methods, n - 1, sym)
         + if methods[n - 1].task.name == sym then NamesCalled(methods[n - 1].network.subtasks) else {}
  }

  lemma {:induction false} InCalledBy(methods: seq<MethodDef>, n: nat, sym: Name, x: Name)
    requires n <= |methods|
    ensures x in CalledBy(methods, n, sym) <==>
              exists k :: 0 <= k < n && methods[k].task.name == sym && x in NamesCalled(methods[k].network.subtasks)
  {
    if n > 0 {
      hide NamesCalled;
      InCalledBy(methods, n - 1, sym, x);
    }
  }

  ghost predicate SymbolExpanded(d: Domain, symbols: set<Name>, sym: Name) {
    forall m, st | m in d.methods && m.task.name == sym && st in m.network.subtasks :: st.task.name in symbols
  }

  lemma ExpandedIff(d: Domain, symbols: set<Name>, sym: Name)
    ensures SymbolExpanded(d, symbols, sym) <==> CalledBy(d.methods, |d.methods|, sym) <= symbols
  {
    if SymbolExpanded(d, symbols, sym) {
      forall x | x in CalledBy(d.methods, |d.methods|, sym) ensures x in symbols {
        InCalledBy(d.methods, |d.methods|, sym, x);
      }
    }
    if CalledBy(d.methods, |d.methods|, sym) <= symbols {
      forall m, st | m in d.methods && m.task.name == sym && st in m.network.subtasks ensures st.task.name in symbols {
        var k :| 0 <= k < |d.methods| && d.methods[k] == m;
        assert st.task.name in NamesCalled(d.methods[k].network.subtasks);
        InCalledBy(d.methods, |d.methods|, sym, st.task.name);
      }
    }
  }

  ghost predicate ClosedSymbols(d: Domain, symbols: set<Name>) {
    forall sym | sym in symbols :: SymbolExpanded(d, symbols, sym)
  }

  /** The least set with these symbols that has, with a method's head, the symbols of its subtasks. */
  ghost predicate IsSymbolClosure(d: Domain, roots: set<Name>, symbols: set<Name>) {
    && roots <= symbols && ClosedSymbols(d, symbols)
    && forall s: set<Name> | roots <= s && ClosedSymbols(d, s) :: symbols <= s
  }

  method EnqueueCalls(sts: seq<Subtask>, c0: Closure) returns (c: Closure)
    ensures Grows(c0, c) && c.relevant == c0.relevant + NamesCalled(sts)
  {
    hide Grows;
    c := c0;
    GrowsNot(c0);
    for j := 0 to |sts|
      invariant Grows(c0, c) && c.relevant == c0.relevant + NamesCalled(sts[..j])
    {
      ghost var before := c;
      c := Enqueue(c, sts[j].task.name);
      GrowsTwice(c0, before, c);
      assert sts[..j + 1] == sts[..j] + [sts[j]];
    }
    assert sts[..|sts|] == sts;
  }

  method ExpandSymbol(d: Domain, sym: Name, c0: Closure) returns (c: Closure)
    ensures Grows(c0, c) && c.relevant == c0.relevant + CalledBy(d.methods, |d.methods|, sym)
  {
    hide Grows, NamesCalled;
    c := c0;
    GrowsNot(c0);
    for i := 0 to |d.methods|
      invariant Grows(c0, c) && c.relevant == c0.relevant + CalledBy(d.methods, i, sym)
    {
      if d.methods[i].task.name == sym {
        ghost var before := c;
        c := EnqueueCalls(d.methods[i].network.subtasks, c);
        GrowsTwice(c0, before, c);
      }
    }
  }

  ghost function AllSymbols(d: Domain, roots: set<Name>): set<Name> {
    roots + (set m, st | m in d.methods && st in m.network.subtasks :: st.task.name)
  }

  /** Between two symbols: queued ones are still to be expanded, and no closed set lacks a symbol found so far. */
  ghost predicate SymbolDraining(d: Domain, roots: set<Name>, c: Closure) {
    && roots <= c.relevant <= AllSymbols(d, roots) && Elems(c.todo) <= c.relevant
    && (forall sym | sym in c.relevant :: sym in c.todo || SymbolExpanded(d, c.relevant, sym))
    && forall s: set<Name> | roots <= s && ClosedSymbols(d, s) :: c.relevant <= s
  }

  lemma SymbolDrainStep(d: Domain, roots: set<Name>, c: Closure, after: Closure)
    requires SymbolDraining(d, roots, c) && c.todo != []
    requires var last := |c.todo| - 1;
             && Grows(Closure(c.relevant, c.todo[..last]), after)
             && after.relevant == c.relevant + CalledBy(d.methods, |d.methods|, c.todo[last])
    ensures SymbolDraining(d, roots, after)
    ensures after.relevant == c.relevant ==> after.todo == c.todo[..|c.todo| - 1]
  {
    var last := |c.todo| - 1;
    var sym := c.todo[last];
    ExpandedIff(d, after.relevant, sym);
    hide CalledBy;
    assert c.todo == c.todo[..last] + [sym];
    forall x | x in CalledBy(d.methods, |d.methods|, sym) ensures x in AllSymbols(d, roots) {
      InCalledBy(d.methods, |d.methods|, sym, x);
    }
    forall x | x in c.relevant && SymbolExpanded(d, c.relevant, x) ensures SymbolExpanded(d, after.relevant, x) {
    }
    forall s: set<Name> | roots <= s && ClosedSymbols(d, s) ensures after.relevant <= s {
      assert sym in c.relevant;
      ExpandedIff(d, s, sym);
    }
  }

  /** The symbols named by the root network, closed under "a method head is relevant, so are its subtasks". */
  method RelevantSymbols(d: Domain, p: Problem) returns (symbols: set<Name>)
    ensures IsSymbolClosure(d, NamesCalled(p.htn.subtasks), symbols)
  {
    ghost var roots := NamesCalled(p.htn.subtasks);
    var c := EnqueueCalls(p.htn.subtasks, Closure({}, []));
    assert SymbolDraining(d, roots, c);
    hide SymbolDraining, Grows, CalledBy, NamesCalled;
    while c.todo != []
      invariant SymbolDraining(d, roots, c)
      decreases AllSymbols(d, roots) - c.relevant, |c.todo|
    {
      var last := |c.todo| - 1;
      var e := ExpandSymbol(d, c.todo[last], Closure(c.relevant, c.todo[..last]));
      SymbolDrainStep(d, roots, c, e);
      SymbolsShrink(d, roots, c, e);
      c := e;
    }
    SymbolsDrained(d, roots, c);
    symbols := c.relevant;
  }

  lemma SymbolsShrink(d: Domain, roots: set<Name>, c: Closure, after: Closure)
    requires SymbolDraining(d, roots, after) && c.relevant <= after.relevant
    ensures AllSymbols(d, roots) - after.relevant <= AllSymbols(d, roots) - c.relevant
    ensures after.relevant != c.relevant ==> AllSymbols(d, roots) - after.relevant < AllSymbols(d, roots) - c.relevant
  {
    if after.relevant != c.relevant {
      var x :| x in after.relevant && x !in c.relevant;
      assert x in AllSymbols(d, roots) - c.relevant;
    }
  }

  lemma SymbolsDrained(d: Domain, roots: set<Name>, c: Closure)
    requires SymbolDraining(d, roots, c) && c.todo == []
    ensures IsSymbolClosure(d, roots, c.relevant)
  {
  }

  // ---- stage two: the index of method instances by ground head ----

  datatype SchemaIndex = SchemaIndex(m: MethodDef, bindings: seq<Binding>, byTask: map<string, seq<nat>>)

  ghost predicate ValidSchema(x: SchemaIndex, objs: ObjectIndex) {
    && x.bindings == BindingsOf(x.m.params, objs)
    && AllHeaded(x.m, x.bindings)
    && x.byTask == BucketsOf(x.m, x.bindings)
  }

  ghost predicate AllHeaded(m: MethodDef, bs: seq<Binding>) {
    forall b | b in bs :: CallName(m.task, b).Ok?
  }

  function Bucket(byTask: map<string, seq<nat>>, name: string): seq<nat> {
    if name in byTask then byTask[name] else []
  }

  /** The positions of the bindings, filed under their ground heads. */
  ghost function BucketsOf(m: MethodDef, bs: seq<Binding>): map<string, seq<nat>>
    requires AllHeaded(m, bs)
  {
    if bs == [] then map[]
    else
      var n := |bs| - 1;
      var before := BucketsOf(m, bs[..n]);
      var name := CallName(m.task, bs[n]).value;
      before[name := Bucket(before, name) + [n]]
  }

  lemma NoBuckets(m: MethodDef)
    ensures AllHeaded(m, []) && BucketsOf(m, []) == map[]
  {
  }

  lemma BucketsSnoc(m: MethodDef, bs: seq<Binding>, b: Binding)
    requires AllHeaded(m, bs) && CallName(m.task, b).Ok?
    ensures AllHeaded(m, bs + [b])
    ensures var before, name := BucketsOf(m, bs), CallName(m.task, b).value;
            BucketsOf(m, bs + [b]) == before[name := Bucket(before, name) + [|bs|]]
  {
    hide CallName, Bucket;
    assert (bs + [b])[..|bs|] == bs;
  }

  lemma {:induction false} BucketsFileHeads(m: MethodDef, bs: seq<Binding>, k: nat)
    requires AllHeaded(m, bs) && k < |bs|
    ensures var t := CallName(m.task, bs[k]).value;
            t in BucketsOf(m, bs) && k in BucketsOf(m, bs)[t]
  {
    var n := |bs| - 1;
    if k < n {
      BucketsFileHeads(m, bs[..n], k);
    }
  }

  lemma {:induction false} BucketsHoldOnlyHeads(m: MethodDef, bs: seq<Binding>, t: string, j: nat)
    requires AllHeaded(m, bs) && t in BucketsOf(m, bs) && j < |BucketsOf(m, bs)[t]|
    ensures BucketsOf(m, bs)[t][j] < |bs| && CallName(m.task, bs[BucketsOf(m, bs)[t][j]]) == Ok(t)
  {
    var n := |bs| - 1;
    var before := BucketsOf(m, bs[..n]);
    if t in before && j < |before[t]| {
      BucketsHoldOnlyHeads(m, bs[..n], t, j);
    }
  }

  lemma {:induction false} SameKeysSameOutcome(ts: seq<Term>, b: Binding, c: Binding)
    requires b.Keys == c.Keys
    ensures SubstTerms(ts, b).Ok? <==> SubstTerms(ts, c).Ok?
  {
    if ts != [] {
      SameKeysSameOutcome(ts[1..], b, c);
    }
  }

  /** If one instance's head cannot be rendered, none of that schema's can. */
  lemma HeadlessSchema(m: MethodDef, objs: ObjectIndex, b: Binding)
    requires b in BindingsOf(m.params, objs) && CallName(m.task, b).Err?
    ensures Headless(m, objs)
  {
    ProductKeys(VarsOf(m.params), ChoicesOf(m.params, objs), b);
    forall c | c in BindingsOf(m.params, objs) ensures CallName(m.task, c).Err? {
      ProductKeys(VarsOf(m.params), ChoicesOf(m.params, objs), c);
      SameKeysSameOutcome(m.task.args, b, c);
    }
  }

  /** Buckets a schema's bindings by ground head; nothing if a head variable is unbound. */
  method IndexSchema(m: MethodDef, objs: ObjectIndex) returns (x: Option<SchemaIndex>)
    ensures x.Some? ==> x.value.m == m && ValidSchema(x.value, objs)
    ensures x.None? ==> Headless(m, objs)
  {
    hide *;
    NoBuckets(m);
    var bindings: seq<Binding> := [];
    var byTask: map<string, seq<nat>> := map[];
    var it := new BindingIter(m.params, objs);
    var done := false;
    while !done
      invariant it.Valid() && fresh(it) && fresh(it.idx)
      invariant bindings + it.Remaining() == BindingsOf(m.params, objs)
      invariant AllHeaded(m, bindings) && byTask == BucketsOf(m, bindings)
      invariant done ==> it.Remaining() == []
      decreases |it.Remaining()|, !done
    {
      var next := it.Next();
      if next.None? {
        done := true;
        continue;
      }
      var name := CallName(m.task, next.value);
      if name.Err? {
        HeadlessSchema(m, objs, next.value);
        return None;
      }
      BucketsSnoc(m, bindings, next.value);
      byTask := byTask[name.value := Bucket(byTask, name.value) + [|bindings|]];
      bindings := bindings + [next.value];
    }
    assert bindings == BindingsOf(m.params, objs);
    SchemaIsValid(m, objs, bindings, byTask);
    x := Some(SchemaIndex(m, bindings, byTask));
  }

  lemma SchemaIsValid(m: MethodDef, objs: ObjectIndex, bindings: seq<Binding>, byTask: map<string, seq<nat>>)
    requires bindings == BindingsOf(m.params, objs) && AllHeaded(m, bindings) && byTask == BucketsOf(m, bindings)
    ensures ValidSchema(SchemaIndex(m, bindings, byTask), objs)
  {
  }

  ghost predicate ValidIndex(
    d: Domain, objs: ObjectIndex, symbols: set<Name>, schemas: seq<SchemaIndex>, upTo: nat)
    requires upTo <= |d.methods|
  {
    && (forall i | 0 <= i < |schemas| ::
          schemas[i].m in d.methods && schemas[i].m.task.name in symbols && ValidSchema(schemas[i], objs))
    && (forall k | 0 <= k < upTo && d.methods[k].task.name in symbols ::
          Indexed(schemas, d.methods[k]) || Headless(d.methods[k], objs))
  }

  ghost predicate Indexed(schemas: seq<SchemaIndex>, m: MethodDef) {
    exists i :: 0 <= i < |schemas| && schemas[i].m == m
  }

  ghost predicate Headless(m: MethodDef, objs: ObjectIndex) {
    forall b | b in BindingsOf(m.params, objs) :: CallName(m.task, b).Err?
  }

  lemma IndexNext(
    d: Domain, objs: ObjectIndex, symbols: set<Name>, schemas: seq<SchemaIndex>, i: nat, x: Option<SchemaIndex>)
    requires i < |d.methods| && ValidIndex(d, objs, symbols, schemas, i) && d.methods[i].task.name in symbols
    requires x.Some? ==> x.value.m == d.methods[i] && ValidSchema(x.value, objs)
    requires x.None? ==> Headless(d.methods[i], objs)
    ensures ValidIndex(d, objs, symbols, if x.Some? then schemas + [x.value] else schemas, i + 1)
  {
    hide ValidSchema, Headless;
    if x.Some? {
      var after := schemas + [x.value];
      assert after[|schemas|].m == d.methods[i];
      forall k | 0 <= k < i && Indexed(schemas, d.methods[k]) ensures Indexed(after, d.methods[k]) {
        var j :| 0 <= j < |schemas| && schemas[j].m == d.methods[k];
        assert after[j].m == d.methods[k];
      }
    }
  }

  lemma SkipNext(d: Domain, objs: ObjectIndex, symbols: set<Name>, schemas: seq<SchemaIndex>, i: nat)
    requires i < |d.methods| && ValidIndex(d, objs, symbols, schemas, i) && d.methods[i].task.name !in symbols
    ensures ValidIndex(d, objs, symbols, schemas, i + 1)
  {
  }

  method IndexMethods(d: Domain, objs: ObjectIndex, symbols: set<Name>) returns (schemas: seq<SchemaIndex>)
    ensures ValidIndex(d, objs, symbols, schemas, |d.methods|)
  {
    schemas := [];
    assert ValidIndex(d, objs, symbols, [], 0);
    hide *;
    for i := 0 to |d.methods|
      invariant ValidIndex(d, objs, symbols, schemas, i)
    {
      var m := d.methods[i];
      if m.task.name in symbols {
        var x := IndexSchema(m, objs);
        IndexNext(d, objs, symbols, schemas, i, x);
        if x.Some? {
          schemas := schemas + [x.value];
        }
      } else {
        SkipNext(d, objs, symbols, schemas, i);
      }
    }
  }

  function BaseBucket(byBase: map<Name, seq<nat>>, n: Name): seq<nat> {
    if n in byBase then byBase[n] else []
  }

  /** In increasing order, exactly the positions below `upTo` of the schemas with this head. */
  ghost predicate IsBucket(schemas: seq<SchemaIndex>, bucket: seq<nat>, n: Name, upTo: nat)
    requires upTo <= |schemas|
  {
    && (forall j | 0 <= j < |bucket| :: bucket[j] < upTo && schemas[bucket[j]].m.task.name == n)
    && (forall j, k | 0 <= j < k < |bucket| :: bucket[j] < bucket[k])
    && forall i | 0 <= i < upTo && schemas[i].m.task.name == n :: i in bucket
  }

  ghost predicate ValidBases(schemas: seq<SchemaIndex>, byBase: map<Name, seq<nat>>, upTo: nat)
    requires upTo <= |schemas|
  {
    forall n :: IsBucket(schemas, BaseBucket(byBase, n), n, upTo)
  }

  method IndexBases(schemas: seq<SchemaIndex>) returns (byBase: map<Name, seq<nat>>)
    ensures ValidBases(schemas, byBase, |schemas|)
  {
    byBase := map[];
    assert ValidBases(schemas, byBase, 0);
    hide ValidBases;
    for i := 0 to |schemas|
      invariant ValidBases(schemas, byBase, i)
    {
      var n := schemas[i].m.task.name;
      BasesNext(schemas, byBase, i);
      byBase := byBase[n := BaseBucket(byBase, n) + [i]];
    }
  }

  lemma BasesNext(schemas: seq<SchemaIndex>, byBase: map<Name, seq<nat>>, i: nat)
    requires i < |schemas| && ValidBases(schemas, byBase, i)
    ensures var n := schemas[i].m.task.name; ValidBases(schemas, byBase[n := BaseBucket(byBase, n) + [i]], i + 1)
  {
    var n := schemas[i].m.task.name;
    var after := byBase[n := BaseBucket(byBase, n) + [i]];
    forall x ensures IsBucket(schemas, BaseBucket(after, x), x, i + 1) {
      assert IsBucket(schemas, BaseBucket(byBase, x), x, i);
      BucketNext(schemas, BaseBucket(byBase, x), x, i);
    }
  }

  lemma BucketNext(schemas: seq<SchemaIndex>, bucket: seq<nat>, n: Name, i: nat)
    requires i < |schemas| && IsBucket(schemas, bucket, n, i)
    ensures IsBucket(schemas, if schemas[i].m.task.name == n then bucket + [i] else bucket, n, i + 1)
  {
    if schemas[i].m.task.name == n {
      var after := bucket + [i];
      forall j, k | 0 <= j < k < |after| ensures after[j] < after[k] {
        assert after[j] == bucket[j];
        if k < |bucket| {
          assert bucket[j] < bucket[k];
        }
      }
      forall j | 0 <= j < |after| ensures after[j] < i + 1 && schemas[after[j]].m.task.name == n {
        assert j < |bucket| ==> bucket[j] < i;
      }
      forall k | 0 <= k < i + 1 && schemas[k].m.task.name == n ensures k in after {
        assert after[|bucket|] == i;
        assert k < i ==> k in bucket;
      }
    } else {
      forall k | 0 <= k < i + 1 && schemas[k].m.task.name == n ensures k in bucket {
        assert k < i;
      }
    }
  }

  // ---- stage two: the worklist ----

  /** Subtasks ground one by one, keeping ids and positions. */
  lemma {:induction false} SubtasksPointwise(sts: seq<Subtask>, b: Binding)
    ensures GroundSubtasks(sts, b).Ok? <==> forall k | 0 <= k < |sts| :: CallName(sts[k].task, b).Ok?
    ensures GroundSubtasks(sts, b).Ok? ==>
              var gs := GroundSubtasks(sts, b).value;
              |gs| == |sts|
              && forall k | 0 <= k < |sts| :: gs[k] == GroundSubtask(sts[k].id, CallName(sts[k].task, b).value)
  {
    if sts != [] {
      SubtasksPointwise(sts[1..], b);
      assert forall k | 1 <= k < |sts| :: sts[k] == sts[1..][k - 1];
      assert forall k | 0 <= k < |sts[1..]| :: sts[1..][k] == sts[k + 1];
    }
  }

  ghost predicate NamedBefore(sts: seq<Subtask>, b: Binding, n: nat, u: string) {
    exists k :: 0 <= k < n && k < |sts| && CallName(sts[k].task, b) == Ok(u)
  }

  lemma NamedNone(sts: seq<Subtask>, b: Binding)
    ensures forall u :: !NamedBefore(sts, b, 0, u)
  {
  }

  lemma NamedNext(sts: seq<Subtask>, b: Binding, j: nat)
    requires j < |sts| && CallName(sts[j].task, b).Ok?
    ensures forall u ::
              NamedBefore(sts, b, j + 1, u) <==> NamedBefore(sts, b, j, u) || u == CallName(sts[j].task, b).value
  {
    hide CallName;
    var name := CallName(sts[j].task, b).value;
    assert CallName(sts[j].task, b) == Ok(name);
    assert NamedBefore(sts, b, j + 1, name);
    forall u | NamedBefore(sts, b, j, u) ensures NamedBefore(sts, b, j + 1, u) {
      var k :| 0 <= k < j && k < |sts| && CallName(sts[k].task, b) == Ok(u);
    }
  }

  /** Makes every ground subtask of one method instance relevant. */
  method ExpandInstance(m: MethodDef, b: Binding, c0: Closure) returns (r: Result<Closure, GroundError>)
    ensures r.Ok? <==> GroundSubtasks(m.network.subtasks, b).Ok?
    ensures r.Ok? ==> Grows(c0, r.value)
    ensures r.Ok? ==> r.value.relevant == c0.relevant + SubtaskNames(m, b)
  {
    hide Grows, NamedBefore, CallName, SubtaskNames, GroundSubtasks;
    var c := c0;
    var sts := m.network.subtasks;
    SubtasksPointwise(sts, b);
    GrowsNot(c0);
    NamedNone(sts, b);
    for j := 0 to |sts|
      invariant Grows(c0, c)
      invariant forall k | 0 <= k < j :: CallName(sts[k].task, b).Ok?
      invariant forall u :: u in c.relevant <==> u in c0.relevant || NamedBefore(sts, b, j, u)
    {
      var name := CallName(sts[j].task, b);
      if name.Err? {
        return Err(name.error);
      }
      ghost var before := c;
      c := Enqueue(c, name.value);
      GrowsTwice(c0, before, c);
      NamedNext(sts, b, j);
    }
    InstanceNames(m, b);
    r := Ok(c);
  }

  lemma InstanceNames(m: MethodDef, b: Binding)
    requires GroundSubtasks(m.network.subtasks, b).Ok?
    ensures forall u :: u in SubtaskNames(m, b) <==> NamedBefore(m.network.subtasks, b, |m.network.subtasks|, u)
  {
    var sts := m.network.subtasks;
    SubtasksPointwise(sts, b);
    var gs := GroundSubtasks(sts, b).value;
    forall u | u in SubtaskNames(m, b) ensures NamedBefore(sts, b, |sts|, u) {
      var i :| 0 <= i < |gs| && gs[i].task == u;
      assert CallName(sts[i].task, b) == Ok(u);
    }
    forall u | NamedBefore(sts, b, |sts|, u) ensures u in SubtaskNames(m, b) {
      var k :| 0 <= k < |sts| && CallName(sts[k].task, b) == Ok(u);
      assert gs[k].task == u;
    }
  }

  lemma TasksOfSnoc(sts: seq<GroundSubtask>, st: GroundSubtask)
    ensures TasksOf(sts + [st]) == TasksOf(sts) + {st.task}
  {
    var all := sts + [st];
    assert all[|sts|] == st;
    assert forall i | 0 <= i < |sts| :: all[i] == sts[i];
    forall t | t in TasksOf(sts) ensures t in TasksOf(all) {
      var i :| 0 <= i < |sts| && sts[i].task == t;
      assert all[i].task == t;
    }
  }

  /** Expands every instance of one schema whose head is `t`. */
  method ExpandSchema(x: SchemaIndex, objs: ObjectIndex, t: string, c0: Closure)
    returns (r: Result<Closure, GroundError>)
    requires ValidSchema(x, objs)
    ensures r.Ok? ==> Grows(c0, r.value) && r.value.relevant == c0.relevant + DemandedBy(x.m, objs, t)
    ensures r.Err? ==> exists b :: b in BindingsOf(x.m.params, objs) && GroundSubtasks(x.m.network.subtasks, b).Err?
  {
    BucketMeans(x, objs, t);
    assert x.bindings == BindingsOf(x.m.params, objs);
    hide *;
    GrowsNot(c0);
    if t !in x.byTask {
      assert c0.relevant + {} == c0.relevant;
      return Ok(c0);
    }
    var idxs := x.byTask[t];
    var c := c0;
    NoNames(x, idxs);
    for k := 0 to |idxs|
      invariant Grows(c0, c)
      invariant c.relevant == c0.relevant + GatheredNames(x, idxs, k)
    {
      MoreNames(x, idxs, k);
      var e := ExpandInstance(x.m, x.bindings[idxs[k]], c);
      if e.Err? {
        return e;
      }
      assert e.value.relevant == c0.relevant + GatheredNames(x, idxs, k + 1);
      GrowsTwice(c0, c, e.value);
      c := e.value;
    }
    r := Ok(c);
  }

  ghost predicate Positions(x: SchemaIndex, idxs: seq<nat>) {
    forall j | 0 <= j < |idxs| :: idxs[j] < |x.bindings|
  }

  ghost function GatheredNames(x: SchemaIndex, idxs: seq<nat>, k: nat): set<string>
    requires k <= |idxs| && Positions(x, idxs)
  {
    if k == 0 then {} else GatheredNames(x, idxs, k - 1) + SubtaskNames(x.m, x.bindings[idxs[k - 1]])
  }

  lemma NoNames(x: SchemaIndex, idxs: seq<nat>)
    requires Positions(x, idxs)
    ensures GatheredNames(x, idxs, 0) == {}
  {
  }

  lemma MoreNames(x: SchemaIndex, idxs: seq<nat>, k: nat)
    requires k < |idxs| && Positions(x, idxs)
    ensures idxs[k] < |x.bindings|
    ensures GatheredNames(x, idxs, k + 1) == GatheredNames(x, idxs, k) + SubtaskNames(x.m, x.bindings[idxs[k]])
  {
  }

  lemma {:induction false} InGatheredNames(x: SchemaIndex, idxs: seq<nat>, k: nat, u: string)
    requires k <= |idxs| && Positions(x, idxs)
    ensures u in GatheredNames(x, idxs, k) <==> exists j :: 0 <= j < k && u in SubtaskNames(x.m, x.bindings[idxs[j]])
  {
    hide SubtaskNames;
    if k > 0 {
      InGatheredNames(x, idxs, k - 1, u);
      if u in SubtaskNames(x.m, x.bindings[idxs[k - 1]]) {
        assert 0 <= k - 1 < k;
      }
    }
  }

  /** The bucket of `t` holds exactly the instances that decompose `t`. */
  lemma BucketMeans(x: SchemaIndex, objs: ObjectIndex, t: string)
    requires ValidSchema(x, objs)
    ensures t !in x.byTask ==> DemandedBy(x.m, objs, t) == {}
    ensures t in x.byTask ==>
              && Positions(x, x.byTask[t])
              && GatheredNames(x, x.byTask[t], |x.byTask[t]|) == DemandedBy(x.m, objs, t)
  {
    forall u | u in DemandedBy(x.m, objs, t)
      ensures t in x.byTask
      ensures exists j :: 0 <= j < |x.byTask[t]| && x.byTask[t][j] < |x.bindings|
                          && u in SubtaskNames(x.m, x.bindings[x.byTask[t][j]])
    {
      var b :| b in BindingsOf(x.m.params, objs) && CallName(x.m.task, b) == Ok(t) && u in SubtaskNames(x.m, b);
      var k :| 0 <= k < |x.bindings| && x.bindings[k] == b;
      BucketsFileHeads(x.m, x.bindings, k);
      var j :| 0 <= j < |x.byTask[t]| && x.byTask[t][j] == k;
    }
    if t in x.byTask {
      var idxs := x.byTask[t];
      forall j | 0 <= j < |idxs| ensures idxs[j] < |x.bindings| && CallName(x.m.task, x.bindings[idxs[j]]) == Ok(t) {
        BucketsHoldOnlyHeads(x.m, x.bindings, t, j);
      }
      forall u ensures u in GatheredNames(x, idxs, |idxs|) <==> u in DemandedBy(x.m, objs, t) {
        InGatheredNames(x, idxs, |idxs|, u);
      }
    }
  }

  /** Some method instance has a subtask that cannot be rendered. */
  ghost predicate SomeSubtaskUnbound(d: Domain, objs: ObjectIndex) {
    exists m, b :: IsInstance(d, objs, m, b) && GroundSubtasks(m.network.subtasks, b).Err?
  }

  /** Expands `t` through every schema that can decompose it. */
  method ExpandTask(
    d: Domain, objs: ObjectIndex, ghost symbols: set<Name>, schemas: seq<SchemaIndex>, byBase: map<Name, seq<nat>>,
    t: string, c0: Closure) returns (r: Result<Closure, GroundError>)
    requires ValidIndex(d, objs, symbols, schemas, |d.methods|) && ValidBases(schemas, byBase, |schemas|)
    requires TaskBaseName(t) in symbols
    requires forall m | m in d.methods :: '(' !in m.task.name
    ensures r.Ok? ==> Grows(c0, r.value) && r.value.relevant == c0.relevant + Demanded(d, objs, t)
    ensures r.Err? ==> SomeSubtaskUnbound(d, objs)
  {
    hide Demanded, DemandedBy, TaskBaseName, ValidSchema, ValidIndex, ValidBases, SomeSubtaskUnbound;
    var base := TaskBaseName(t);
    BaseBucketMeans(d, objs, symbols, schemas, byBase, t);
    if base !in byBase {
      assert c0.relevant + {} == c0.relevant;
      return Ok(c0);
    }
    var idxs := byBase[base];
    var c := c0;
    for k := 0 to |idxs|
      invariant Grows(c0, c)
      invariant c.relevant == c0.relevant + GatheredDemand(schemas, objs, idxs, k, t)
    {
      var x := schemas[idxs[k]];
      var e := ExpandSchema(x, objs, t, c);
      if e.Err? {
        UnboundSubtask(d, objs, x.m);
        return e;
      }
      GrowsTwice(c0, c, e.value);
      c := e.value;
    }
    r := Ok(c);
  }

  lemma UnboundSubtask(d: Domain, objs: ObjectIndex, m: MethodDef)
    requires m in d.methods
    requires exists b :: b in BindingsOf(m.params, objs) && GroundSubtasks(m.network.subtasks, b).Err?
    ensures SomeSubtaskUnbound(d, objs)
  {
    var b :| b in BindingsOf(m.params, objs) && GroundSubtasks(m.network.subtasks, b).Err?;
    assert IsInstance(d, objs, m, b);
  }

  ghost function GatheredDemand(
    schemas: seq<SchemaIndex>, objs: ObjectIndex, idxs: seq<nat>, k: nat, t: string): set<string>
    requires k <= |idxs| && forall j | 0 <= j < |idxs| :: idxs[j] < |schemas|
  {
    if k == 0 then {} else GatheredDemand(schemas, objs, idxs, k - 1, t) + DemandedBy(schemas[idxs[k - 1]].m, objs, t)
  }

  lemma {:induction false} InGatheredDemand(
    schemas: seq<SchemaIndex>, objs: ObjectIndex, idxs: seq<nat>, k: nat, t: string, u: string)
    requires k <= |idxs| && forall j | 0 <= j < |idxs| :: idxs[j] < |schemas|
    ensures u in GatheredDemand(schemas, objs, idxs, k, t) <==>
              exists j :: 0 <= j < k && u in DemandedBy(schemas[idxs[j]].m, objs, t)
  {
    hide DemandedBy;
    if k > 0 {
      InGatheredDemand(schemas, objs, idxs, k - 1, t, u);
      if u in DemandedBy(schemas[idxs[k - 1]].m, objs, t) {
        assert 0 <= k - 1 < k;
      }
    }
  }

  /** A demanded task's method is filed under the base name of the task it decomposes. */
  lemma FiledUnderBase(
    d: Domain, objs: ObjectIndex, symbols: set<Name>, schemas: seq<SchemaIndex>, byBase: map<Name, seq<nat>>,
    t: string, m: MethodDef, u: string) returns (j: nat)
    requires ValidIndex(d, objs, symbols, schemas, |d.methods|) && ValidBases(schemas, byBase, |schemas|)
    requires TaskBaseName(t) in symbols
    requires m in d.methods && '(' !in m.task.name && u in DemandedBy(m, objs, t)
    ensures TaskBaseName(t) in byBase && j < |byBase[TaskBaseName(t)]|
    ensures byBase[TaskBaseName(t)][j] < |schemas| && schemas[byBase[TaskBaseName(t)][j]].m == m
  {
    var b :| b in BindingsOf(m.params, objs) && CallName(m.task, b) == Ok(t) && u in SubtaskNames(m, b);
    BaseNameInvertsKey(m.task.name, SubstTerms(m.task.args, b).value);
    var k :| 0 <= k < |d.methods| && d.methods[k] == m;
    assert Indexed(schemas, m);
    var i :| 0 <= i < |schemas| && schemas[i].m == m;
    var base := TaskBaseName(t);
    assert IsBucket(schemas, BaseBucket(byBase, base), base, |schemas|);
    j :| 0 <= j < |byBase[base]| && byBase[base][j] == i;
  }

  /** The schemas filed under the base name of `t` demand everything that `t` demands. */
  lemma BaseBucketMeans(
    d: Domain, objs: ObjectIndex, symbols: set<Name>, schemas: seq<SchemaIndex>, byBase: map<Name, seq<nat>>, t: string)
    requires ValidIndex(d, objs, symbols, schemas, |d.methods|) && ValidBases(schemas, byBase, |schemas|)
    requires TaskBaseName(t) in symbols
    requires forall m | m in d.methods :: '(' !in m.task.name
    ensures var base := TaskBaseName(t);
            if base in byBase then
              && (forall j | 0 <= j < |byBase[base]| ::
                    && byBase[base][j] < |schemas|
                    && ValidSchema(schemas[byBase[base][j]], objs) && schemas[byBase[base][j]].m in d.methods)
              && GatheredDemand(schemas, objs, byBase[base], |byBase[base]|, t) == Demanded(d, objs, t)
            else Demanded(d, objs, t) == {}
  {
    var base := TaskBaseName(t);
    assert IsBucket(schemas, BaseBucket(byBase, base), base, |schemas|);
    forall u | u in Demanded(d, objs, t)
      ensures base in byBase
      ensures u in GatheredDemand(schemas, objs, byBase[base], |byBase[base]|, t)
    {
      var m :| m in d.methods && u in DemandedBy(m, objs, t);
      var j := FiledUnderBase(d, objs, symbols, schemas, byBase, t, m, u);
      InGatheredDemand(schemas, objs, byBase[base], |byBase[base]|, t, u);
    }
    if base in byBase {
      forall u | u in GatheredDemand(schemas, objs, byBase[base], |byBase[base]|, t)
        ensures u in Demanded(d, objs, t)
      {
        InGatheredDemand(schemas, objs, byBase[base], |byBase[base]|, t, u);
      }
    }
  }

  /** Every ground task name that can ever become relevant. */
  ghost function NameUniverse(d: Domain, objs: ObjectIndex, roots: set<string>): set<string> {
    roots + (set m, b, u | m in d.methods && b in BindingsOf(m.params, objs) && u in SubtaskNames(m, b) :: u)
  }

  ghost predicate SymbolsCover(symbols: set<Name>, names: set<string>) {
    forall t | t in names :: TaskBaseName(t) in symbols
  }

  /** A demanded task's symbol is a relevant symbol: the lifted stage excludes nothing. */
  lemma DemandStaysInSymbols(d: Domain, p: Problem, objs: ObjectIndex, symbols: set<Name>, t: string, u: string)
    requires CleanTaskNames(d, p) && ClosedSymbols(d, symbols)
    requires TaskBaseName(t) in symbols && u in Demanded(d, objs, t)
    ensures TaskBaseName(u) in symbols
  {
    var m :| m in d.methods && u in DemandedBy(m, objs, t);
    var b :| b in BindingsOf(m.params, objs) && CallName(m.task, b) == Ok(t) && u in SubtaskNames(m, b);
    BaseNameInvertsKey(m.task.name, SubstTerms(m.task.args, b).value);
    var st := SubtaskWithName(m.network.subtasks, b, u);
    BaseNameInvertsKey(st.task.name, SubstTerms(st.task.args, b).value);
    assert SymbolExpanded(d, symbols, m.task.name);
  }

  lemma {:induction false} SubtaskWithName(sts: seq<Subtask>, b: Binding, u: string) returns (st: Subtask)
    requires GroundSubtasks(sts, b).Ok? && u in TasksOf(GroundSubtasks(sts, b).value)
    ensures st in sts && CallName(st.task, b) == Ok(u)
  {
    var gs := GroundSubtasks(sts, b).value;
    var i :| 0 <= i < |gs| && gs[i].task == u;
    if i == 0 {
      st := sts[0];
    } else {
      var rest := GroundSubtasks(sts[1..], b).value;
      assert gs == [gs[0]] + rest && rest[i - 1].task == u;
      st := SubtaskWithName(sts[1..], b, u);
    }
  }

  lemma {:induction false} RootTaskFromHtn(net: TaskNetwork, bs: seq<Binding>, t: string)
    returns (st: Subtask, b: Binding)
    requires RootNetworksUnder(net, bs).Ok? && t in RootTasks(RootNetworksUnder(net, bs).value)
    ensures st in net.subtasks && CallName(st.task, b) == Ok(t)
  {
    var nets := RootNetworksUnder(net, bs).value;
    var i :| 0 <= i < |nets| && t in TasksOf(nets[i].subtasks);
    if i == 0 {
      b := bs[0];
      st := SubtaskWithName(net.subtasks, b, t);
    } else {
      var rest := RootNetworksUnder(net, bs[1..]).value;
      assert nets == [nets[0]] + rest && rest[i - 1] == nets[i];
      st, b := RootTaskFromHtn(net, bs[1..], t);
    }
  }

  /** Queues the subtasks of every root network. */
  method SeedRoots(nets: seq<RootNetwork>) returns (c: Closure)
    ensures c.relevant == RootTasks(nets) == Elems(c.todo)
  {
    c := Closure({}, []);
    for i := 0 to |nets|
      invariant c.relevant == RootTasks(nets[..i]) == Elems(c.todo)
    {
      ghost var before := c.relevant;
      var sts := nets[i].subtasks;
      for j := 0 to |sts|
        invariant c.relevant == before + TasksOf(sts[..j]) == Elems(c.todo)
      {
        assert sts[..j + 1] == sts[..j] + [sts[j]];
        TasksOfSnoc(sts[..j], sts[j]);
        c := Enqueue(c, sts[j].task);
      }
      assert sts[..|sts|] == sts;
      RootTasksSnoc(nets[..i], nets[i]);
      assert nets[..i + 1] == nets[..i] + [nets[i]];
    }
    assert nets[..|nets|] == nets;
  }

  lemma RootTasksSnoc(nets: seq<RootNetwork>, net: RootNetwork)
    ensures RootTasks(nets + [net]) == RootTasks(nets) + TasksOf(net.subtasks)
  {
    var all := nets + [net];
    assert all[|nets|] == net;
    assert forall i | 0 <= i < |nets| :: all[i] == nets[i];
    forall t | t in RootTasks(nets) ensures t in RootTasks(all) {
      var i :| 0 <= i < |nets| && t in TasksOf(nets[i].subtasks);
      assert t in TasksOf(all[i].subtasks);
    }
  }

  /**
   * The relevance fixpoint: the result is exactly the least set that contains every root
   * network's tasks and is closed under demand. It fails only on a task that cannot be rendered.
   */
  method ComputeTaskRelevance(d: Domain, p: Problem, objs: ObjectIndex)
    returns (r: Result<set<string>, GroundError>)
    requires CleanTaskNames(d, p)
    ensures r.Ok? ==> RootNetworks(p, objs).Ok?
                      && IsRelevance(d, objs, RootTasks(RootNetworks(p, objs).value), r.value)
    ensures r.Err? ==> RootNetworks(p, objs).Err? || SomeSubtaskUnbound(d, objs)
  {
    var symbols := RelevantSymbols(d, p);
    RootsNamed(d, p, symbols);
    var nets :- RootNetworks(p, objs);
    var c := SeedRoots(nets);
    var schemas := IndexMethods(d, objs, symbols);
    var byBase := IndexBases(schemas);
    forall t | t in RootTasks(nets) ensures TaskBaseName(t) in symbols {
      var st, b := RootTaskFromHtn(p.htn, BindingsOf(p.htn.params, objs), t);
      BaseNameInvertsKey(st.task.name, SubstTerms(st.task.args, b).value);
    }
    r := DrainWorklist(d, p, objs, symbols, schemas, byBase, c);
  }

  lemma RootsNamed(d: Domain, p: Problem, symbols: set<Name>)
    requires IsSymbolClosure(d, NamesCalled(p.htn.subtasks), symbols)
    ensures ClosedSymbols(d, symbols) && forall st | st in p.htn.subtasks :: st.task.name in symbols
  {
    forall st | st in p.htn.subtasks ensures st.task.name in symbols {
      assert st.task.name in NamesCalled(p.htn.subtasks);
    }
  }

  /** Expands queued tasks until none is left. */
  method DrainWorklist(
    d: Domain, p: Problem, objs: ObjectIndex, ghost symbols: set<Name>, schemas: seq<SchemaIndex>,
    byBase: map<Name, seq<nat>>, c0: Closure) returns (r: Result<set<string>, GroundError>)
    requires CleanTaskNames(d, p) && ClosedSymbols(d, symbols)
    requires ValidIndex(d, objs, symbols, schemas, |d.methods|) && ValidBases(schemas, byBase, |schemas|)
    requires c0.relevant == Elems(c0.todo) && SymbolsCover(symbols, c0.relevant)
    ensures r.Ok? ==> IsRelevance(d, objs, c0.relevant, r.value)
    ensures r.Err? ==> SomeSubtaskUnbound(d, objs)
  {
    ghost var roots := c0.relevant;
    DrainStarts(d, objs, symbols, c0);
    assert forall m | m in d.methods :: '(' !in m.task.name;
    hide Demanded, ValidIndex, ValidBases, Draining, CleanTaskNames, ClosedSymbols, SymbolsCover;
    var c := c0;
    while c.todo != []
      invariant Draining(d, objs, symbols, roots, c)
      decreases NameUniverse(d, objs, roots) - c.relevant, |c.todo|
    {
      var last := |c.todo| - 1;
      var t := c.todo[last];
      var popped := Closure(c.relevant, c.todo[..last]);
      DrainCovers(d, objs, symbols, roots, c, t);
      var e := ExpandTask(d, objs, symbols, schemas, byBase, t, popped);
      if e.Err? {
        return Err(e.error);
      }
      DrainStep(d, p, objs, symbols, roots, c, e.value);
      c := e.value;
    }
    DrainEnds(d, objs, symbols, roots, c);
    r := Ok(c.relevant);
  }

  /** What every turn of the worklist loop keeps. */
  ghost predicate Draining(d: Domain, objs: ObjectIndex, symbols: set<Name>, roots: set<string>, c: Closure) {
    && roots <= c.relevant <= NameUniverse(d, objs, roots)
    && SymbolsCover(symbols, c.relevant)
    && (forall t | t in c.todo :: t in c.relevant)
    && (forall t | t in c.relevant :: t in c.todo || Expanded(d, objs, t, c.relevant))
    && InEveryClosedSet(d, objs, roots, c.relevant)
  }

  lemma DrainStarts(d: Domain, objs: ObjectIndex, symbols: set<Name>, c: Closure)
    requires c.relevant == Elems(c.todo) && SymbolsCover(symbols, c.relevant)
    ensures Draining(d, objs, symbols, c.relevant, c)
  {
  }

  lemma DrainCovers(d: Domain, objs: ObjectIndex, symbols: set<Name>, roots: set<string>, c: Closure, t: string)
    requires Draining(d, objs, symbols, roots, c) && t in c.todo
    ensures TaskBaseName(t) in symbols && c.relevant <= NameUniverse(d, objs, roots)
  {
  }

  lemma DrainEnds(d: Domain, objs: ObjectIndex, symbols: set<Name>, roots: set<string>, c: Closure)
    requires Draining(d, objs, symbols, roots, c) && c.todo == []
    ensures IsRelevance(d, objs, roots, c.relevant)
  {
  }

  lemma DrainStep(
    d: Domain, p: Problem, objs: ObjectIndex, symbols: set<Name>, roots: set<string>, c: Closure, after: Closure)
    requires CleanTaskNames(d, p) && ClosedSymbols(d, symbols)
    requires c.todo != [] && Draining(d, objs, symbols, roots, c)
    requires var last := |c.todo| - 1;
             && Grows(Closure(c.relevant, c.todo[..last]), after)
             && after.relevant == c.relevant + Demanded(d, objs, c.todo[last])
    ensures Draining(d, objs, symbols, roots, after)
    ensures after.relevant == c.relevant ==> |after.todo| < |c.todo|
    ensures c.relevant <= after.relevant <= NameUniverse(d, objs, roots)
  {
    hide Demanded;
    var last := |c.todo| - 1;
    assert c.todo == c.todo[..last] + [c.todo[last]];
    OneExpansion(d, p, objs, symbols, roots, c.todo[last], c.relevant, after.relevant);
  }

  ghost predicate Expanded(d: Domain, objs: ObjectIndex, t: string, relevant: set<string>) {
    Demanded(d, objs, t) <= relevant
  }

  /** What one expansion keeps: the universe, the symbols, the members already expanded, and minimality. */
  lemma OneExpansion(
    d: Domain, p: Problem, objs: ObjectIndex, symbols: set<Name>, roots: set<string>, t: string,
    before: set<string>, after: set<string>)
    requires CleanTaskNames(d, p) && ClosedSymbols(d, symbols)
    requires t in before && before <= NameUniverse(d, objs, roots)
    requires SymbolsCover(symbols, before) && InEveryClosedSet(d, objs, roots, before)
    requires after == before + Demanded(d, objs, t)
    ensures after <= NameUniverse(d, objs, roots) && SymbolsCover(symbols, after)
    ensures Expanded(d, objs, t, after)
    ensures forall x | Expanded(d, objs, x, before) :: Expanded(d, objs, x, after)
    ensures InEveryClosedSet(d, objs, roots, after)
  {
    forall u | u in Demanded(d, objs, t) ensures u in NameUniverse(d, objs, roots) && TaskBaseName(u) in symbols {
      DemandStaysInSymbols(d, p, objs, symbols, t, u);
      var m :| m in d.methods && u in DemandedBy(m, objs, t);
      var b :| b in BindingsOf(m.params, objs) && CallName(m.task, b) == Ok(t) && u in SubtaskNames(m, b);
    }
    forall c: set<string> | roots <= c && ClosedUnderDemand(d, objs, c) ensures after <= c {
      assert t in c;
    }
  }
}
