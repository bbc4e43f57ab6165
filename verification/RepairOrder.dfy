/** The two passes of the planner's `deps` module: layered dependencies, and Kahn's algorithm. */
module RepairOrder {
  import opened Common
  import opened Sorting
  import opened RepairPlan
  import Text

  datatype SortError = UnknownDependency(op: OpId, dep: OpId) | DependencyCycle

  // ---------------------------------------------------------------- the graph

  /** `m` finds, for each id of the first `n` operations, an operation with that id. */
  ghost predicate ById(m: map<OpId, Operation>, ops: seq<Operation>, n: nat)
    requires n <= |ops|
  {
    && (forall a :: a in m ==> m[a] in ops && m[a].id == a)
    && forall k :: 0 <= k < n ==> ops[k].id in m
  }

  /** How often the first `n` operations list `d` as a dependency of `a`. */
  ghost function EdgeCount(ops: seq<Operation>, n: nat, a: OpId, d: OpId): nat
    requires n <= |ops|
  {
    if n == 0 then 0 else
      EdgeCount(ops, n - 1, a, d) + (if ops[n-1].id == a then multiset(ops[n-1].dependsOn)[d] else 0)
  }

  function Kids(dependents: map<OpId, seq<OpId>>, d: OpId): seq<OpId> {
    if d in dependents then dependents[d] else []
  }

  ghost function KidCount(dependents: map<OpId, seq<OpId>>, d: OpId, a: OpId): nat {
    multiset(Kids(dependents, d))[a]
  }

  /** `dependents` holds one entry per dependency listed by the first `n` operations. */
  ghost predicate Recorded(dependents: map<OpId, seq<OpId>>, ops: seq<Operation>, n: nat)
    requires n <= |ops|
  {
    forall a, d :: KidCount(dependents, d, a) == EdgeCount(ops, n, a, d)
  }

  lemma {:induction false} EdgeCountAt(ops: seq<Operation>, n: nat, i: nat, d: OpId)
    requires i < |ops| && n <= |ops| && forall j :: 0 <= j < |ops| && j != i ==> ops[j].id != ops[i].id
    ensures EdgeCount(ops, n, ops[i].id, d) == if i < n then multiset(ops[i].dependsOn)[d] else 0
  {
    if n > 0 { EdgeCountAt(ops, n - 1, i, d); }
  }

  lemma EdgeCountOfOp(ops: seq<Operation>, op: Operation, d: OpId)
    requires DistinctIds(ops) && op in ops
    ensures EdgeCount(ops, |ops|, op.id, d) == multiset(op.dependsOn)[d]
  {
    var i :| 0 <= i < |ops| && ops[i] == op;
    forall j | 0 <= j < |ops| && j != i ensures ops[j].id != ops[i].id {
      assert Ids(ops)[j] != Ids(ops)[i];
    }
    EdgeCountAt(ops, |ops|, i, d);
  }

  lemma {:induction false} EdgesHaveOwner(ops: seq<Operation>, n: nat, a: OpId, d: OpId)
    requires n <= |ops|
    ensures EdgeCount(ops, n, a, d) > 0 ==> exists k :: 0 <= k < n && ops[k].id == a
  {
    if n > 0 { EdgesHaveOwner(ops, n - 1, a, d); }
  }

  // ---------------------------------------------------------------- counting down

  /** Dependencies of `a` already served by `done`, counted as often as they are listed. */
  ghost function Served(ops: seq<Operation>, a: OpId, done: seq<OpId>): nat {
    if done == [] then 0 else
      Served(ops, a, done[..|done|-1]) + EdgeCount(ops, |ops|, a, done[|done|-1])
  }

  /** Positions of `deps` whose id is in `done`. */
  ghost function Hits(deps: seq<OpId>, done: seq<OpId>): nat {
    if deps == [] then 0 else
      Hits(deps[..|deps|-1], done) + (if deps[|deps|-1] in done then 1 else 0)
  }

  lemma {:induction false} HitsAll(deps: seq<OpId>, done: seq<OpId>)
    ensures Hits(deps, done) <= |deps|
    ensures Hits(deps, done) == |deps| <==> forall d :: d in deps ==> d in done
  {
    if deps != [] {
      HitsAll(deps[..|deps|-1], done);
      assert deps == deps[..|deps|-1] + [deps[|deps|-1]];
    }
  }

  lemma {:induction false} HitsStep(deps: seq<OpId>, done: seq<OpId>, x: OpId)
    requires x !in done
    ensures Hits(deps, done + [x]) == Hits(deps, done) + multiset(deps)[x]
  {
    if deps != [] {
      HitsStep(deps[..|deps|-1], done, x);
      assert deps == deps[..|deps|-1] + [deps[|deps|-1]];
    }
  }

  lemma {:induction false} ServedIsHits(ops: seq<Operation>, op: Operation, done: seq<OpId>)
    requires DistinctIds(ops) && op in ops && Distinct(done)
    ensures Served(ops, op.id, done) == Hits(op.dependsOn, done)
  {
    if done == [] {
      NoHits(op.dependsOn);
    } else {
      var front, x := done[..|done|-1], done[|done|-1];
      DistinctPrefix(done, |front|);
      ServedIsHits(ops, op, front);
      HitsStep(op.dependsOn, front, x);
      EdgeCountOfOp(ops, op, x);
      assert done == front + [x];
    }
  }

  lemma {:induction false} NoHits(deps: seq<OpId>)
    ensures Hits(deps, []) == 0
  {
    if deps != [] { NoHits(deps[..|deps|-1]); }
  }

  /** The counters after the operations of `done` have been emitted. */
  ghost predicate Counters(
    indegree: map<OpId, int>, m: map<OpId, Operation>, ops: seq<Operation>, done: seq<OpId>)
  {
    && indegree.Keys == m.Keys
    && forall a :: a in indegree ==> indegree[a] == |m[a].dependsOn| - Served(ops, a, done)
  }

  /** An operation is waiting to be emitted, or emitted, exactly when its counter is used up. */
  ghost predicate Balanced(indegree: map<OpId, int>, ready: seq<OpId>, done: seq<OpId>) {
    && Distinct(done + ready)
    && forall a :: (a in done || a in ready) <==> (a in indegree && indegree[a] <= 0)
  }

  /** With distinct ids the ready list is exactly the set of ready operations. */
  lemma ReadyList(ops: seq<Operation>, m: map<OpId, Operation>, indegree: map<OpId, int>,
                  ready: seq<OpId>, done: seq<OpId>)
    requires DistinctIds(ops) && ById(m, ops, |ops|)
    requires Counters(indegree, m, ops, done) && Balanced(indegree, ready, done)
    ensures forall a :: Ready(ops, done, a) <==> a in ready
  {
    assert forall i :: 0 <= i < |done| ==> (done + ready)[i] == done[i];
    forall a ensures Ready(ops, done, a) <==> a in ready {
      if a in m {
        var op := m[a];
        ServedIsHits(ops, op, done);
        HitsAll(op.dependsOn, done);
        forall x | x in ops && x.id == a ensures x == op { OneOpPerId(ops, x, op); }
      }
      if a in ready {
        var k :| 0 <= k < |ready| && ready[k] == a;
        assert (done + ready)[|done| + k] == a;
        assert forall i :: 0 <= i < |done| ==> done[i] != a;
      }
    }
  }

  // ---------------------------------------------------------------- Kahn's algorithm

  /** `dep` of `ops[i]` is the first dependency, in listing order, that names no operation. */
  ghost predicate FirstUnknown(ops: seq<Operation>, i: nat, k: nat) {
    && i < |ops| && k < |ops[i].dependsOn| && ops[i].dependsOn[k] !in Ids(ops)
    && (forall m, d :: 0 <= m < i && d in ops[m].dependsOn ==> d in Ids(ops))
    && forall m :: 0 <= m < k ==> ops[i].dependsOn[m] in Ids(ops)
  }

  /** `after` holds one more entry for `id` per dependency in `deps`. */
  ghost predicate Adds(before: map<OpId, seq<OpId>>, after: map<OpId, seq<OpId>>, id: OpId, deps: seq<OpId>) {
    forall a, d :: KidCount(after, d, a) == KidCount(before, d, a) + (if a == id then multiset(deps)[d] else 0)
  }

  /** The dependencies of one operation, up to the first unknown one. */
  method RecordDependencies(op: Operation, ids: seq<OpId>, dependents0: map<OpId, seq<OpId>>)
    returns (dependents: map<OpId, seq<OpId>>, bad: Option<nat>)
    ensures bad.None? ==> forall d :: d in op.dependsOn ==> d in ids
    ensures bad.None? ==> Adds(dependents0, dependents, op.id, op.dependsOn)
    ensures bad.Some? ==> bad.value < |op.dependsOn| && op.dependsOn[bad.value] !in ids
    ensures bad.Some? ==> forall m :: 0 <= m < bad.value ==> op.dependsOn[m] in ids
  {
    dependents, bad := dependents0, None;
    var k := 0;
    while k < |op.dependsOn|
      invariant k <= |op.dependsOn|
      invariant forall m :: 0 <= m < k ==> op.dependsOn[m] in ids
      invariant Adds(dependents0, dependents, op.id, op.dependsOn[..k])
    {
      var dep := op.dependsOn[k];
      if dep !in ids {
        bad := Some(k);
        return;
      }
      assert op.dependsOn[..k+1] == op.dependsOn[..k] + [dep];
      AddsStep(dependents0, dependents, op.id, op.dependsOn[..k], dep);
      dependents := dependents[dep := Kids(dependents, dep) + [op.id]];
      k := k + 1;
    }
    assert op.dependsOn[..k] == op.dependsOn;
  }

  lemma RecordedStep(ops: seq<Operation>, i: nat, before: map<OpId, seq<OpId>>, after: map<OpId, seq<OpId>>)
    requires i < |ops| && Recorded(before, ops, i) && Adds(before, after, ops[i].id, ops[i].dependsOn)
    ensures Recorded(after, ops, i + 1)
  {
    forall a, d ensures KidCount(after, d, a) == EdgeCount(ops, i + 1, a, d) {
      assert KidCount(before, d, a) == EdgeCount(ops, i, a, d);
    }
  }

  lemma AddsStep(before: map<OpId, seq<OpId>>, after: map<OpId, seq<OpId>>, id: OpId, deps: seq<OpId>, dep: OpId)
    requires Adds(before, after, id, deps)
    ensures Adds(before, after[dep := Kids(after, dep) + [id]], id, deps + [dep])
  {
    var more := after[dep := Kids(after, dep) + [id]];
    forall a, d
      ensures KidCount(more, d, a) == KidCount(before, d, a) + (if a == id then multiset(deps + [dep])[d] else 0)
    {
      assert multiset(deps + [dep])[d] == multiset(deps)[d] + (if d == dep then 1 else 0);
    }
  }

  /** The graph of the first `i` operations, all of whose dependencies are known. */
  ghost predicate GraphOf(ops: seq<Operation>, i: nat, indegree: map<OpId, int>,
                          dependents: map<OpId, seq<OpId>>, m: map<OpId, Operation>)
    requires i <= |ops|
  {
    && ById(m, ops, i) && Counters(indegree, m, ops, []) && Recorded(dependents, ops, i)
    && forall k, d :: 0 <= k < i && d in ops[k].dependsOn ==> d in Ids(ops)
  }

  /** One operation of the listing: its counter, and its dependencies up to the first unknown one. */
  method AddOperation(ops: seq<Operation>, i: nat, indegree0: map<OpId, int>, dependents0: map<OpId, seq<OpId>>,
                      m0: map<OpId, Operation>)
    returns (indegree: map<OpId, int>, dependents: map<OpId, seq<OpId>>, m: map<OpId, Operation>, missing: Option<nat>)
    requires i < |ops| && GraphOf(ops, i, indegree0, dependents0, m0)
    ensures missing.None? ==> GraphOf(ops, i + 1, indegree, dependents, m)
    ensures missing.Some? ==> FirstUnknown(ops, i, missing.value)
  {
    var op := ops[i];
    dependents, missing := RecordDependencies(op, Ids(ops), dependents0);
    indegree, m := indegree0[op.id := |op.dependsOn|], m0[op.id := op];
  }

  method BuildGraph(ops: seq<Operation>)
    returns (indegree: map<OpId, int>, dependents: map<OpId, seq<OpId>>, m: map<OpId, Operation>,
             bad: Option<(OpId, OpId)>)
    ensures bad.Some? ==> exists i: nat, k: nat ::
              FirstUnknown(ops, i, k) && bad.value == (ops[i].id, ops[i].dependsOn[k])
    ensures bad.None? ==> GraphOf(ops, |ops|, indegree, dependents, m)
  {
    indegree, dependents, m, bad := map[], map[], map[], None;
    var i := 0;
    while i < |ops|
      invariant i <= |ops| && GraphOf(ops, i, indegree, dependents, m)
    {
      var missing;
      indegree, dependents, m, missing := AddOperation(ops, i, indegree, dependents, m);
      if missing.Some? {
        bad := Some((ops[i].id, ops[i].dependsOn[missing.value]));
        return;
      }
      i := i + 1;
    }
  }

  lemma BalancedRelease(indegree: map<OpId, int>, ready: seq<OpId>, done: seq<OpId>, c: OpId)
    requires Balanced(indegree, ready, done) && c in indegree
    ensures Balanced(indegree[c := indegree[c] - 1], if indegree[c] == 1 then ready + [c] else ready, done)
  {
    if indegree[c] == 1 {
      assert c !in done && c !in ready;
      assert done + (ready + [c]) == (done + ready) + [c];
      assert forall x :: x in done + ready ==> x in done || x in ready;
    }
  }

  /** The inner loop: one dependency of each child is served. */
  method Release(indegree0: map<OpId, int>, ready0: seq<OpId>, children: seq<OpId>, ghost done: seq<OpId>)
    returns (indegree: map<OpId, int>, ready: seq<OpId>)
    requires Balanced(indegree0, ready0, done)
    requires forall c :: c in children ==> c in indegree0
    ensures indegree.Keys == indegree0.Keys
    ensures forall a :: a in indegree ==> indegree[a] == indegree0[a] - multiset(children)[a]
    ensures Balanced(indegree, ready, done)
  {
    indegree, ready := indegree0, ready0;
    var k := 0;
    while k < |children|
      invariant k <= |children|
      invariant indegree.Keys == indegree0.Keys
      invariant forall a :: a in indegree ==> indegree[a] == indegree0[a] - multiset(children[..k])[a]
      invariant Balanced(indegree, ready, done)
    {
      var c := children[k];
      assert children[..k+1] == children[..k] + [c];
      BalancedRelease(indegree, ready, done, c);
      indegree := indegree[c := indegree[c] - 1];
      if indegree[c] == 0 { ready := ready + [c]; }
      k := k + 1;
    }
    assert children[..k] == children;
  }

  lemma Permuted(done: seq<OpId>, s: seq<OpId>, t: seq<OpId>)
    requires multiset(s) == multiset(t)
    ensures Distinct(done + s) ==> Distinct(done + t)
    ensures forall a :: a in s <==> a in t
  {
    SameElements(s, t);
    if Distinct(done + s) {
      assert multiset(done + s) == multiset(done + t);
      DistinctFromMultiset(done + s, done + t);
    }
  }

  method SortReady(ready: seq<OpId>, ghost indegree: map<OpId, int>, ghost done: seq<OpId>)
    returns (r: seq<OpId>)
    requires Balanced(indegree, ready, done)
    ensures Balanced(indegree, r, done) && SortedBy(r, Text.AtMost)
  {
    Text.AtMostIsOrder();
    SortBySorts(ready, Text.AtMost);
    r := SortBy(ready, Text.AtMost);
    Permuted(done, ready, r);
  }

  lemma BalancedMove(indegree: map<OpId, int>, ready: seq<OpId>, done: seq<OpId>)
    requires Balanced(indegree, ready, done) && ready != []
    ensures Balanced(indegree, ready[1..], done + [ready[0]])
    ensures |done| < |indegree|
  {
    assert done + [ready[0]] + ready[1..] == done + ready;
    assert forall a :: a in done + ready <==> a in done || a in ready;
    assert forall a :: a in done + [ready[0]] + ready[1..] <==> a in done + [ready[0]] || a in ready[1..];
    DistinctIsSet(done + ready);
    SubsetSize((set a | a in done + ready), indegree.Keys);
    assert |indegree.Keys| == |indegree|;
  }

  lemma ChildrenKnown(dependents: map<OpId, seq<OpId>>, m: map<OpId, Operation>, ops: seq<Operation>, x: OpId)
    requires Recorded(dependents, ops, |ops|) && ById(m, ops, |ops|)
    ensures forall c :: c in Kids(dependents, x) ==> c in m
  {
    forall c | c in Kids(dependents, x) ensures c in m {
      assert c in multiset(Kids(dependents, x));
      assert KidCount(dependents, x, c) == EdgeCount(ops, |ops|, c, x);
      EdgesHaveOwner(ops, |ops|, c, x);
    }
  }

  method InitiallyReady(indegree: map<OpId, int>) returns (ready: seq<OpId>)
    ensures Distinct(ready) && forall a :: a in ready <==> a in indegree && indegree[a] == 0
  {
    ready := [];
    var left := indegree.Keys;
    while left != {}
      invariant left <= indegree.Keys && Distinct(ready)
      invariant forall a :: a in ready <==> a in indegree && a !in left && indegree[a] == 0
      decreases left
    {
      var a :| a in left;
      left := left - {a};
      if indegree[a] == 0 { ready := ready + [a]; }
    }
  }

  /** The loop invariant of the sort. */
  ghost predicate Emitting(ops: seq<Operation>, m: map<OpId, Operation>, indegree: map<OpId, int>,
                           ready: seq<OpId>, sorted: seq<Operation>)
  {
    && Counters(indegree, m, ops, Ids(sorted)) && Balanced(indegree, ready, Ids(sorted))
    && SortedBy(ready, Text.AtMost)
    && (forall op :: op in sorted ==> op in ops)
    && (DistinctIds(ops) ==> Greedy(ops, Ids(sorted)))
  }

  lemma HeadIsLeastReady(ops: seq<Operation>, m: map<OpId, Operation>, indegree: map<OpId, int>,
                         ready: seq<OpId>, sorted: seq<Operation>)
    requires Emitting(ops, m, indegree, ready, sorted) && ready != [] && ById(m, ops, |ops|) && DistinctIds(ops)
    ensures Greedy(ops, Ids(sorted) + [ready[0]])
  {
    ReadyList(ops, m, indegree, ready, Ids(sorted));
    GreedyExtends(ops, Ids(sorted), ready[0]);
  }

  /** One turn of the loop: emit the head of the ready list and release its dependents. */
  method Emit(ops: seq<Operation>, m: map<OpId, Operation>, dependents: map<OpId, seq<OpId>>,
              indegree0: map<OpId, int>, ready0: seq<OpId>, sorted0: seq<Operation>)
    returns (indegree: map<OpId, int>, ready: seq<OpId>, sorted: seq<Operation>)
    requires ById(m, ops, |ops|) && AllKnown(ops) && Recorded(dependents, ops, |ops|)
    requires Emitting(ops, m, indegree0, ready0, sorted0) && ready0 != []
    ensures Emitting(ops, m, indegree, ready, sorted)
    ensures |sorted| == |sorted0| + 1 && |sorted0| < |m|
  {
    var id := ready0[0];
    ghost var done := Ids(sorted0);
    if DistinctIds(ops) { HeadIsLeastReady(ops, m, indegree0, ready0, sorted0); }
    BalancedMove(indegree0, ready0, done);
    assert |indegree0.Keys| == |m.Keys|;
    assert id in ready0;
    sorted := sorted0 + [m[id]];
    assert Ids(sorted) == done + [id];
    ChildrenKnown(dependents, m, ops, id);
    indegree, ready := Release(indegree0, ready0[1..], Kids(dependents, id), done + [id]);
    ready := SortReady(ready, indegree, done + [id]);
  }

  /**
   Kahn's algorithm with a sorted ready list. It accepts exactly the plans whose ids are distinct,
   whose dependencies are known and acyclic, and then lists the operations in the first, by
   operation id, of all their topological orders.
   */
  method SortByDependencies(ops: seq<Operation>) returns (r: Result<seq<Operation>, SortError>)
    ensures r.Ok? <==> DistinctIds(ops) && AllKnown(ops) && Acyclic(ops)
    ensures r.Ok? ==> multiset(r.value) == multiset(ops) && LeastTopological(ops, Ids(r.value))
    ensures r.Err? && r.error.UnknownDependency? <==> !AllKnown(ops)
    ensures r.Err? && r.error.UnknownDependency? ==> exists i: nat, k: nat ::
              FirstUnknown(ops, i, k) && r.error == UnknownDependency(ops[i].id, ops[i].dependsOn[k])
  {
    var indegree, dependents, m, bad := BuildGraph(ops);
    if bad.Some? {
      return Err(UnknownDependency(bad.value.0, bad.value.1));
    }
    var ready := InitiallyReady(indegree);
    assert [] + ready == ready;
    ready := SortReady(ready, indegree, []);
    var sorted: seq<Operation> := [];
    assert Ids(sorted) == [];
    while ready != []
      invariant Emitting(ops, m, indegree, ready, sorted)
      decreases |m| - |sorted|
    {
      indegree, ready, sorted := Emit(ops, m, dependents, indegree, ready, sorted);
    }
    Conclude(ops, m, indegree, sorted);
    r := if |sorted| != |ops| then Err(DependencyCycle) else Ok(sorted);
  }

  /** What the finished loop shows. */
  lemma Conclude(ops: seq<Operation>, m: map<OpId, Operation>, indegree: map<OpId, int>, sorted: seq<Operation>)
    requires AllKnown(ops) && ById(m, ops, |ops|) && Emitting(ops, m, indegree, [], sorted)
    ensures |sorted| == |ops| <==> DistinctIds(ops) && Acyclic(ops)
    ensures |sorted| == |ops| ==> multiset(sorted) == multiset(ops) && LeastTopological(ops, Ids(sorted))
  {
    var done := Ids(sorted);
    assert done + [] == done;
    if DistinctIds(ops) {
      ReadyList(ops, m, indegree, [], done);
      GreedyDecides(ops, done);
      if |sorted| == |ops| { SameOperations(ops, sorted); }
    } else {
      DistinctIsSet(Ids(ops));
      DistinctIsSet(done);
      forall a | a in done ensures a in Ids(ops) {
        var i :| 0 <= i < |done| && done[i] == a;
        assert sorted[i] in ops;
        var j :| 0 <= j < |ops| && ops[j] == sorted[i];
        assert Ids(ops)[j] == a;
      }
      SubsetSize(set a | a in done, set a | a in Ids(ops));
    }
  }

  lemma SameOperations(ops: seq<Operation>, sorted: seq<Operation>)
    requires DistinctIds(ops) && Distinct(Ids(sorted)) && |sorted| == |ops|
    requires forall op :: op in sorted ==> op in ops
    ensures multiset(sorted) == multiset(ops)
  {
    assert Distinct(ops) by { assert forall i, j :: 0 <= i < j < |ops| ==> Ids(ops)[i] != Ids(ops)[j]; }
    assert Distinct(sorted) by { assert forall i, j :: 0 <= i < j < |sorted| ==> Ids(sorted)[i] != Ids(sorted)[j]; }
    DistinctIsSet(ops);
    DistinctIsSet(sorted);
    var a, b := set x | x in sorted, set x | x in ops;
    SubsetSize(a, b);
    assert forall x :: (x in a <==> x in sorted) && (x in b <==> x in ops);
    DistinctCounts(ops);
    DistinctCounts(sorted);
  }

  // ---------------------------------------------------------------- layered dependencies

  function Layer(a: Action): nat {
    match a
    case CastColumn(_, _, _) => 0
    case AlignSchema(_, _, _) => 0
    case RenameColumn(_, _) => 0
    case SplitLargeFile(_, _) => 1
    case ResizeRowGroups(_, _) => 2
    case Recompress(_, _) => 3
    case RebuildStatistics(_) => 4
    case MergeSmallFiles(_, _) => 5
    case Repartition(_) => 6
  }

  predicate LayerOrder(a: Operation, b: Operation) {
    Layer(a.action) < Layer(b.action) || (Layer(a.action) == Layer(b.action) && Text.AtMost(a.id, b.id))
  }

  /** Ids of the listed operations in layers below `layer`. */
  function Below(ops: seq<Operation>, layer: nat): seq<OpId> {
    if ops == [] then [] else
      var last := ops[|ops|-1];
      Below(ops[..|ops|-1], layer) + (if Layer(last.action) < layer then [last.id] else [])
  }

  function WithDependencies(sorted: seq<Operation>): (r: seq<Operation>)
    ensures |r| == |sorted|
    ensures forall i :: 0 <= i < |r| ==>
              r[i] == sorted[i].(dependsOn := Below(sorted[..i], Layer(sorted[i].action)))
  {
    seq(|sorted|, i requires 0 <= i < |sorted| =>
      sorted[i].(dependsOn := Below(sorted[..i], Layer(sorted[i].action))))
  }

  function Assigned(ops: seq<Operation>): seq<Operation> {
    WithDependencies(SortBy(ops, LayerOrder))
  }

  lemma {:induction false} BelowContents(ops: seq<Operation>, layer: nat, d: OpId)
    ensures d in Below(ops, layer) <==> exists i :: 0 <= i < |ops| && Layer(ops[i].action) < layer && ops[i].id == d
  {
    if ops != [] {
      var front, last := ops[..|ops|-1], ops[|ops|-1];
      BelowContents(front, layer, d);
      if d in Below(front, layer) {
        var i :| 0 <= i < |front| && Layer(front[i].action) < layer && front[i].id == d;
        assert ops[i] == front[i];
      }
      if i :| 0 <= i < |ops| && Layer(ops[i].action) < layer && ops[i].id == d {
        if i < |front| { assert front[i] == ops[i]; }
      }
    }
  }

  lemma {:induction false} BelowIgnoresDependencies(a: seq<Operation>, b: seq<Operation>, layer: nat)
    requires |a| == |b| && forall i :: 0 <= i < |a| ==> a[i].id == b[i].id && a[i].action == b[i].action
    ensures Below(a, layer) == Below(b, layer)
  {
    if a != [] { BelowIgnoresDependencies(a[..|a|-1], b[..|b|-1], layer); }
  }

  lemma LayerOrderIsPreorder()
    ensures TotalPreorder(LayerOrder)
  {
    Text.AtMostIsOrder();
  }

  /** Some operation of a lower layer than `r[i]` has id `d`. */
  ghost predicate InLowerLayer(r: seq<Operation>, i: nat, d: OpId)
    requires i < |r|
  {
    exists j :: 0 <= j < |r| && Layer(r[j].action) < Layer(r[i].action) && r[j].id == d
  }

  /**
   What the pass leaves behind: operations in order of layer and then id, each depending on exactly
   the operations of lower layers.
   */
  ghost predicate Layered(r: seq<Operation>) {
    && SortedBy(r, LayerOrder)
    && forall i, d :: 0 <= i < |r| ==> (d in r[i].dependsOn <==> InLowerLayer(r, i, d))
  }

  lemma DependenciesOfSorted(sorted: seq<Operation>)
    requires SortedBy(sorted, LayerOrder)
    ensures Layered(WithDependencies(sorted))
    ensures Ids(WithDependencies(sorted)) == Ids(sorted)
  {
    var r := WithDependencies(sorted);
    forall i, d | 0 <= i < |r| ensures d in r[i].dependsOn <==> InLowerLayer(r, i, d) {
      BelowContents(sorted[..i], Layer(sorted[i].action), d);
      if j :| 0 <= j < i && Layer(sorted[..i][j].action) < Layer(sorted[i].action) && sorted[..i][j].id == d {
        assert r[j].id == d && Layer(r[j].action) < Layer(r[i].action);
      }
      if j :| 0 <= j < |r| && Layer(r[j].action) < Layer(r[i].action) && r[j].id == d {
        assert !LayerOrder(sorted[i], sorted[j]);
        assert j < i;
        assert sorted[..i][j] == sorted[j];
      }
    }
  }

  /** The result is layered and lists the same ids, each as often as before. */
  lemma AssignedMeaning(ops: seq<Operation>)
    ensures Layered(Assigned(ops))
    ensures |Assigned(ops)| == |ops| && multiset(Ids(Assigned(ops))) == multiset(Ids(ops))
  {
    LayerOrderIsPreorder();
    SortBySorts(ops, LayerOrder);
    var sorted := SortBy(ops, LayerOrder);
    SameElements(sorted, ops);
    IdsOfSort(ops);
    DependenciesOfSorted(sorted);
  }

  // ---------------------------------------------------------------- which kinds go before which

  predicate ChangesSchema(a: Action) {
    a.CastColumn? || a.AlignSchema? || a.RenameColumn?
  }

  /**
   The constraints between kinds of action: schema changes, which do not wait for each other, then splits,
   row group sizes, compression, statistics, merges and last repartitioning.
   */
  predicate GoesBefore(a: Action, b: Action) {
    match b
    case CastColumn(_, _, _) => false
    case AlignSchema(_, _, _) => false
    case RenameColumn(_, _) => false
    case SplitLargeFile(_, _) => ChangesSchema(a)
    case ResizeRowGroups(_, _) => ChangesSchema(a) || a.SplitLargeFile?
    case Recompress(_, _) => ChangesSchema(a) || a.SplitLargeFile? || a.ResizeRowGroups?
    case RebuildStatistics(_) => ChangesSchema(a) || a.SplitLargeFile? || a.ResizeRowGroups? || a.Recompress?
    case MergeSmallFiles(_, _) => !a.MergeSmallFiles? && !a.Repartition?
    case Repartition(_) => !a.Repartition?
  }

  lemma LayersAreKinds(a: Action, b: Action)
    ensures Layer(a) < Layer(b) <==> GoesBefore(a, b)
  {
  }

  /**
   What planning leaves behind, by kind of action: nothing stands before what must go before it, operations
   without a constraint between them are in order of id, and each depends on exactly the operations that go
   before it, which are the first ones listed.
   */
  ghost predicate Staged(r: seq<Operation>) {
    && (forall i, j :: 0 <= i < j < |r| ==> !GoesBefore(r[j].action, r[i].action))
    && (forall i, j :: 0 <= i < j < |r| && !GoesBefore(r[i].action, r[j].action) ==> Text.AtMost(r[i].id, r[j].id))
    && forall j :: 0 <= j < |r| ==> DependsOnEarlier(r, j)
  }

  ghost predicate DependsOnEarlier(r: seq<Operation>, j: nat)
    requires j < |r|
  {
    exists n :: 0 <= n <= j && r[j].dependsOn == Ids(r[..n]) && StagesEndAt(r, j, n)
  }

  /** The operations that go before `r[j]` are the first `n`. */
  ghost predicate StagesEndAt(r: seq<Operation>, j: nat, n: nat)
    requires j < |r|
  {
    forall i :: 0 <= i < |r| ==> (GoesBefore(r[i].action, r[j].action) <==> i < n)
  }

  /** In order, the last operation is below a layer only if all are. */
  lemma LastLayer(ops: seq<Operation>, layer: nat, n: nat)
    requires SortedBy(ops, LayerOrder) && ops != [] && n < |ops|
    requires forall i :: 0 <= i < |ops| - 1 ==> (Layer(ops[i].action) < layer <==> i < n)
    ensures Layer(ops[|ops|-1].action) < layer ==> n == |ops| - 1
    ensures ops[..|ops|-1][..n] == ops[..n]
    ensures Ids(ops) == Ids(ops[..|ops|-1]) + [ops[|ops|-1].id]
  {
    if n < |ops| - 1 { assert LayerOrder(ops[n], ops[|ops|-1]); }
  }

  lemma {:induction false} BelowIsPrefix(ops: seq<Operation>, layer: nat) returns (n: nat)
    requires SortedBy(ops, LayerOrder)
    ensures n <= |ops| && Below(ops, layer) == Ids(ops[..n])
    ensures forall i :: 0 <= i < |ops| ==> (Layer(ops[i].action) < layer <==> i < n)
  {
    if ops == [] {
      n := 0;
    } else {
      var front := ops[..|ops|-1];
      n := BelowIsPrefix(front, layer);
      assert forall i :: 0 <= i < |front| ==> front[i] == ops[i];
      LastLayer(ops, layer, n);
      n := if Layer(ops[|ops|-1].action) < layer then |ops| else n;
    }
  }

  lemma AssignedDepends(sorted: seq<Operation>, j: nat)
    requires SortedBy(sorted, LayerOrder) && j < |sorted|
    ensures DependsOnEarlier(WithDependencies(sorted), j)
  {
    var r := WithDependencies(sorted);
    var layer := Layer(sorted[j].action);
    var n := BelowIsPrefix(sorted[..j], layer);
    assert sorted[..j][..n] == sorted[..n];
    assert Ids(r[..n]) == Ids(sorted[..n]);
    forall i | 0 <= i < |r| ensures GoesBefore(r[i].action, r[j].action) <==> i < n {
      LayersAreKinds(r[i].action, r[j].action);
      if i < j { assert sorted[..j][i] == sorted[i]; }
      if i > j { assert LayerOrder(sorted[j], sorted[i]); }
    }
    assert StagesEndAt(r, j, n);
  }

  /** An operation as planning finds it. */
  function Undecided(op: Operation): Operation {
    op.(dependsOn := [])
  }

  function AllUndecided(ops: seq<Operation>): (r: seq<Operation>)
    ensures |r| == |ops| && forall i :: 0 <= i < |ops| ==> r[i] == Undecided(ops[i])
  {
    seq(|ops|, i requires 0 <= i < |ops| => Undecided(ops[i]))
  }

  lemma {:induction false} UndecidedInsert(x: Operation, s: seq<Operation>)
    ensures multiset(AllUndecided(Insert(x, s, LayerOrder))) == multiset{Undecided(x)} + multiset(AllUndecided(s))
  {
    if s == [] || LayerOrder(x, s[0]) {
      assert AllUndecided([x] + s) == [Undecided(x)] + AllUndecided(s);
    } else {
      UndecidedInsert(x, s[1..]);
      assert AllUndecided(s) == [Undecided(s[0])] + AllUndecided(s[1..]);
      var rest := Insert(x, s[1..], LayerOrder);
      assert AllUndecided([s[0]] + rest) == [Undecided(s[0])] + AllUndecided(rest);
    }
  }

  lemma {:induction false} UndecidedSort(s: seq<Operation>)
    ensures multiset(AllUndecided(SortBy(s, LayerOrder))) == multiset(AllUndecided(s))
  {
    if s != [] {
      UndecidedSort(s[1..]);
      UndecidedInsert(s[0], SortBy(s[1..], LayerOrder));
      assert AllUndecided(s) == [Undecided(s[0])] + AllUndecided(s[1..]);
    }
  }

  /** Planning stages the operations and changes nothing of them but their dependencies. */
  lemma AssignedIsStaged(ops: seq<Operation>)
    ensures Staged(Assigned(ops)) && multiset(AllUndecided(Assigned(ops))) == multiset(AllUndecided(ops))
  {
    LayerOrderIsPreorder();
    SortBySorts(ops, LayerOrder);
    var sorted := SortBy(ops, LayerOrder);
    var r := WithDependencies(sorted);
    UndecidedSort(ops);
    assert AllUndecided(r) == AllUndecided(sorted);
    forall i, j | 0 <= i < j < |r|
      ensures !GoesBefore(r[j].action, r[i].action)
      ensures !GoesBefore(r[i].action, r[j].action) ==> Text.AtMost(r[i].id, r[j].id)
    {
      assert LayerOrder(sorted[i], sorted[j]);
      LayersAreKinds(r[i].action, r[j].action);
      LayersAreKinds(r[j].action, r[i].action);
    }
    forall j | 0 <= j < |r| ensures DependsOnEarlier(r, j) { AssignedDepends(sorted, j); }
  }

  lemma {:induction false} IdsOfInsert(x: Operation, s: seq<Operation>)
    ensures multiset(Ids(Insert(x, s, LayerOrder))) == multiset{x.id} + multiset(Ids(s))
  {
    if s == [] || LayerOrder(x, s[0]) {
      assert Ids([x] + s) == [x.id] + Ids(s);
    } else {
      IdsOfInsert(x, s[1..]);
      assert Ids(s) == [s[0].id] + Ids(s[1..]);
      var rest := Insert(x, s[1..], LayerOrder);
      assert Ids([s[0]] + rest) == [s[0].id] + Ids(rest);
    }
  }

  lemma {:induction false} IdsOfSort(s: seq<Operation>)
    ensures multiset(Ids(SortBy(s, LayerOrder))) == multiset(Ids(s))
  {
    if s != [] {
      IdsOfSort(s[1..]);
      IdsOfInsert(s[0], SortBy(s[1..], LayerOrder));
      assert Ids(s) == [s[0].id] + Ids(s[1..]);
    }
  }

  /** In a layered plan, of the operations ready after the first `k` the next one listed has the least id. */
  lemma LayeredIsLeastReady(r: seq<Operation>, k: nat, b: OpId)
    requires Layered(r) && DistinctIds(r) && k < |r|
    requires Ready(r, Ids(r)[..k], b)
    ensures Text.AtMost(r[k].id, b)
  {
    var done := Ids(r)[..k];
    var op :| op in r && op.id == b && forall d :: d in op.dependsOn ==> d in done;
    var m :| 0 <= m < |r| && r[m] == op;
    assert forall i :: 0 <= i < k ==> done[i] == r[i].id;
    assert k <= m;
    DistinctPrefix(Ids(r), k);
    assert m == k || LayerOrder(r[k], r[m]);
  }

  /** So the order planning leaves in place is the least topological order of the plan. */
  lemma LayeredOrderIsLeast(r: seq<Operation>)
    requires Layered(r) && DistinctIds(r)
    ensures AllKnown(r) && Acyclic(r) && LeastTopological(r, Ids(r))
  {
    forall k | 0 <= k < |Ids(r)| ensures LeastReady(r, Ids(r)[..k], Ids(r)[k]) {
      forall b | Ready(r, Ids(r)[..k], b) ensures Text.AtMost(Ids(r)[k], b) {
        LayeredIsLeastReady(r, k, b);
      }
    }
    assert Stuck(r, Ids(r)) by {
      forall op | op in r ensures op.id in Ids(r) {
        var i :| 0 <= i < |r| && r[i] == op;
        assert Ids(r)[i] == op.id;
      }
    }
    GreedyDecides(r, Ids(r));
  }

  method SortInPlace(ops: array<Operation>)
    modifies ops
    ensures ops[..] == SortBy(old(ops[..]), LayerOrder)
  {
    var sorted := SortBy(ops[..], LayerOrder);
    LayerOrderIsPreorder();
    SortBySorts(ops[..], LayerOrder);
    SameElements(sorted, ops[..]);
    for i := 0 to ops.Length
      invariant forall k :: 0 <= k < i ==> ops[k] == sorted[k]
    {
      ops[i] := sorted[i];
    }
    assert ops[..] == sorted;
  }

  method LinkLayers(ops: array<Operation>)
    modifies ops
    ensures ops[..] == WithDependencies(old(ops[..]))
  {
    ghost var start := ops[..];
    ghost var linked := WithDependencies(start);
    for i := 0 to ops.Length
      invariant forall k :: 0 <= k < i ==> ops[k] == linked[k]
      invariant forall k :: i <= k < ops.Length ==> ops[k] == start[k]
    {
      BelowIgnoresDependencies(ops[..i], start[..i], Layer(start[i].action));
      ops[i] := ops[i].(dependsOn := Below(ops[..i], Layer(ops[i].action)));
    }
    assert ops[..] == linked;
  }

  /** `assign_dependencies`, in place. */
  method AssignDependencies(ops: array<Operation>)
    modifies ops
    ensures ops[..] == Assigned(old(ops[..]))
    ensures Layered(ops[..]) && multiset(Ids(ops[..])) == multiset(Ids(old(ops[..])))
    ensures Staged(ops[..]) && multiset(AllUndecided(ops[..])) == multiset(AllUndecided(old(ops[..])))
  {
    AssignedMeaning(ops[..]);
    AssignedIsStaged(ops[..]);
    SortInPlace(ops);
    LinkLayers(ops);
  }

  /** Planning followed by execution order: sorting returns the order planning left in place. */
  method PlanOrder(ops: array<Operation>) returns (r: Result<seq<Operation>, SortError>)
    modifies ops
    ensures ops[..] == Assigned(old(ops[..]))
    ensures DistinctIds(old(ops[..])) ==> r == Ok(ops[..])
    ensures !DistinctIds(old(ops[..])) ==> r == Err(DependencyCycle)
  {
    ghost var start := ops[..];
    AssignDependencies(ops);
    r := SortByDependencies(ops[..]);
    PlannedResult(start, ops[..], r);
  }

  lemma PlannedResult(start: seq<Operation>, a: seq<Operation>, r: Result<seq<Operation>, SortError>)
    requires Layered(a) && multiset(Ids(a)) == multiset(Ids(start))
    requires r.Ok? <==> DistinctIds(a) && AllKnown(a) && Acyclic(a)
    requires r.Ok? ==> multiset(r.value) == multiset(a) && LeastTopological(a, Ids(r.value))
    requires r.Err? && r.error.UnknownDependency? <==> !AllKnown(a)
    ensures r == if DistinctIds(start) then Ok(a) else Err(DependencyCycle)
  {
    if DistinctIds(start) {
      DistinctFromMultiset(Ids(start), Ids(a));
      LayeredOrderIsLeast(a);
      SameOrderSameOperations(a, r.value);
    } else if DistinctIds(a) {
      DistinctFromMultiset(Ids(a), Ids(start));
    }
  }

  lemma SameOrderSameOperations(a: seq<Operation>, b: seq<Operation>)
    requires DistinctIds(a) && multiset(a) == multiset(b)
    requires LeastTopological(a, Ids(a)) && LeastTopological(a, Ids(b))
    ensures a == b
  {
    LeastTopologicalIsUnique(a, Ids(b), Ids(a));
    SameElements(a, b);
    forall i | 0 <= i < |a| ensures b[i] == a[i] {
      assert Ids(b)[i] == Ids(a)[i];
      OneOpPerId(a, b[i], a[i]);
    }
  }

  /** Two listings of the same operations sort to the same sequence. */
  lemma ResultIgnoresListing(ops: seq<Operation>, other: seq<Operation>, r: seq<Operation>, r': seq<Operation>)
    requires DistinctIds(ops) && multiset(ops) == multiset(other)
    requires multiset(r) == multiset(ops) && LeastTopological(ops, Ids(r))
    requires multiset(r') == multiset(other) && LeastTopological(other, Ids(r'))
    ensures r == r'
  {
    LeastTopologicalIgnoresListing(other, ops, Ids(r'));
    LeastTopologicalIsUnique(ops, Ids(r), Ids(r'));
    SameElements(r, ops);
    SameElements(r', ops);
    forall i | 0 <= i < |r| ensures r[i] == r'[i] {
      assert Ids(r)[i] == Ids(r')[i];
      assert r[i] in ops && r'[i] in ops;
      OneOpPerId(ops, r[i], r'[i]);
    }
  }
}
