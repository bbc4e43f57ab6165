/** Repair operations and the dependency relation between them. */
module RepairPlan {
  import opened Sorting
  import Text

  type OpId = string

  datatype Safety = Safe | ReviewRequired | Destructive | Blocked

  datatype Action =
    | Recompress(codec: string, targetPaths: seq<string>)
    | RebuildStatistics(targetPaths: seq<string>)
    | ResizeRowGroups(targetBytes: nat, targetPaths: seq<string>)
    | MergeSmallFiles(targetBytes: nat, inputPaths: seq<string>)
    | SplitLargeFile(targetBytes: nat, inputPath: string)
    | AlignSchema(field: string, fromType: string, toType: string)
    | CastColumn(column: string, fromType: string, toType: string)
    | RenameColumn(from: string, to: string)
    | Repartition(strategy: string)

  datatype Operation = Operation(id: OpId, safety: Safety, action: Action, dependsOn: seq<OpId>)

  function Ids(ops: seq<Operation>): (r: seq<OpId>)
    ensures |r| == |ops| && forall i :: 0 <= i < |ops| ==> r[i] == ops[i].id
  {
    seq(|ops|, i requires 0 <= i < |ops| => ops[i].id)
  }

  ghost predicate DistinctIds(ops: seq<Operation>) {
    Distinct(Ids(ops))
  }

  /** Every dependency names an operation of the plan. */
  ghost predicate AllKnown(ops: seq<Operation>) {
    forall op, d :: op in ops && d in op.dependsOn ==> d in Ids(ops)
  }

  /** Operation `a` must wait for operation `b`. */
  ghost predicate Edge(ops: seq<Operation>, a: OpId, b: OpId) {
    exists op :: op in ops && op.id == a && b in op.dependsOn
  }

  /** A closed walk along dependencies. */
  ghost predicate Cycle(ops: seq<Operation>, c: seq<OpId>) {
    && |c| >= 2 && c[0] == c[|c|-1]
    && forall i :: 0 <= i < |c| - 1 ==> Edge(ops, c[i], c[i+1])
  }

  ghost predicate Acyclic(ops: seq<Operation>) {
    forall c :: !Cycle(ops, c)
  }

  /** `order` lists every operation once, each after everything it depends on. */
  ghost predicate Topological(ops: seq<Operation>, order: seq<OpId>) {
    && Distinct(order)
    && (forall a :: a in order <==> a in Ids(ops))
    && forall k, b :: 0 <= k < |order| && Edge(ops, order[k], b) ==> b in order[..k]
  }

  /** `p` comes before `q` in dictionary order of operation ids. */
  ghost predicate Earlier(p: seq<OpId>, q: seq<OpId>) {
    exists k :: 0 <= k < |p| && k < |q| && p[..k] == q[..k] && Text.Less(p[k], q[k])
  }

  /** The topological order that comes first among all of them. */
  ghost predicate LeastTopological(ops: seq<Operation>, order: seq<OpId>) {
    && Topological(ops, order)
    && forall t :: Topological(ops, t) && t != order ==> Earlier(order, t)
  }

  // ---------------------------------------------------------------- the greedy order

  /** `a` is not done and waits for nothing that is not done. */
  ghost predicate Ready(ops: seq<Operation>, done: seq<OpId>, a: OpId) {
    && a !in done
    && exists op :: op in ops && op.id == a && forall d :: d in op.dependsOn ==> d in done
  }

  ghost predicate LeastReady(ops: seq<Operation>, done: seq<OpId>, a: OpId) {
    Ready(ops, done, a) && forall b :: Ready(ops, done, b) ==> Text.AtMost(a, b)
  }

  /** Each entry is the least operation that was ready when it was appended. */
  ghost predicate Greedy(ops: seq<Operation>, order: seq<OpId>) {
    forall k :: 0 <= k < |order| ==> LeastReady(ops, order[..k], order[k])
  }

  ghost predicate Stuck(ops: seq<Operation>, done: seq<OpId>) {
    forall a :: !Ready(ops, done, a)
  }

  lemma GreedyExtends(ops: seq<Operation>, order: seq<OpId>, a: OpId)
    requires Greedy(ops, order) && LeastReady(ops, order, a)
    ensures Greedy(ops, order + [a])
  {
    var longer := order + [a];
    forall k | 0 <= k < |longer| ensures LeastReady(ops, longer[..k], longer[k]) {
      assert longer[..k] == order[..k];
      if k == |order| { assert order[..k] == order; }
    }
  }

  lemma Missing<T>(a: set<T>, b: set<T>) returns (x: T)
    requires a <= b && |a| < |b|
    ensures x in b && x !in a
  {
    assert b == a + (b - a);
    x :| x in b - a;
  }

  lemma OneOpPerId(ops: seq<Operation>, x: Operation, y: Operation)
    requires DistinctIds(ops) && x in ops && y in ops && x.id == y.id
    ensures x == y
  {
    var i :| 0 <= i < |ops| && ops[i] == x;
    var j :| 0 <= j < |ops| && ops[j] == y;
    assert Ids(ops)[i] == Ids(ops)[j];
  }

  /** A greedy order that lists as many ids as there are operations is topological. */
  lemma GreedyIsTopological(ops: seq<Operation>, order: seq<OpId>)
    requires DistinctIds(ops) && Greedy(ops, order) && |order| == |ops|
    ensures Topological(ops, order)
  {
    DistinctIsSet(order);
    DistinctIsSet(Ids(ops));
    var listed, all := set a | a in order, set a | a in Ids(ops);
    SubsetSize(listed, all);
    assert forall a :: (a in listed <==> a in order) && (a in all <==> a in Ids(ops));
    forall k, b | 0 <= k < |order| && Edge(ops, order[k], b) ensures b in order[..k] {
      assert LeastReady(ops, order[..k], order[k]);
      var op :| op in ops && op.id == order[k] && forall d :: d in op.dependsOn ==> d in order[..k];
      var op' :| op' in ops && op'.id == order[k] && b in op'.dependsOn;
      OneOpPerId(ops, op, op');
    }
  }

  /** Exchange argument: at the first difference the greedy order has the smaller id. */
  lemma GreedyIsLeast(ops: seq<Operation>, order: seq<OpId>, t: seq<OpId>)
    requires Greedy(ops, order) && Topological(ops, order) && Topological(ops, t) && t != order
    ensures Earlier(order, t)
  {
    SameLength(ops, order, t);
    var k := FirstDifference(order, t);
    assert LeastReady(ops, order[..k], order[k]);
    assert t[k] in t;
    assert t[k] in Ids(ops);
    var i :| 0 <= i < |ops| && Ids(ops)[i] == t[k];
    var op := ops[i];
    forall d | d in op.dependsOn ensures d in t[..k] {
      assert Edge(ops, t[k], d);
    }
    DistinctPrefix(t, k);
    assert Ready(ops, order[..k], t[k]);
  }

  lemma SameLength(ops: seq<Operation>, order: seq<OpId>, t: seq<OpId>)
    requires Topological(ops, order) && Topological(ops, t)
    ensures |order| == |t|
  {
    DistinctIsSet(order);
    DistinctIsSet(t);
    assert (set a | a in order) == (set a | a in t);
  }

  lemma FirstDifference(p: seq<OpId>, q: seq<OpId>) returns (k: nat)
    requires |p| == |q| && p != q
    ensures k < |p| && p[..k] == q[..k] && p[k] != q[k]
  {
    if p[0] != q[0] {
      k := 0;
    } else {
      assert p == [p[0]] + p[1..] && q == [q[0]] + q[1..];
      var j := FirstDifference(p[1..], q[1..]);
      k := j + 1;
      assert p[..k] == [p[0]] + p[1..][..j] && q[..k] == [q[0]] + q[1..][..j];
    }
  }

  // ---------------------------------------------------------------- cycles

  /** Along a dependency the position in a topological order goes down, so no walk closes. */
  lemma {:induction false} WalkGoesDown(ops: seq<Operation>, order: seq<OpId>, c: seq<OpId>, n: nat, k: nat)
    requires Topological(ops, order) && 0 < n < |c|
    requires forall i :: 0 <= i < |c| - 1 ==> Edge(ops, c[i], c[i+1])
    requires k < |order| && order[k] == c[0]
    ensures c[n] in order[..k]
    decreases n
  {
    if n == 1 {
      assert Edge(ops, c[0], c[1]);
    } else {
      WalkGoesDown(ops, order, c, n - 1, k);
      var m :| 0 <= m < k && order[m] == c[n-1];
      assert Edge(ops, c[n-1], c[n]);
      assert c[n] in order[..m];
      assert forall x :: x in order[..m] ==> x in order[..k];
    }
  }

  lemma TopologicalIsAcyclic(ops: seq<Operation>, order: seq<OpId>)
    requires Topological(ops, order)
    ensures Acyclic(ops)
  {
    forall c ensures !Cycle(ops, c) {
      if Cycle(ops, c) {
        assert Edge(ops, c[0], c[1]);
        var op :| op in ops && op.id == c[0] && c[1] in op.dependsOn;
        var i :| 0 <= i < |ops| && ops[i] == op;
        assert Ids(ops)[i] == c[0];
        assert c[0] in order;
        var k :| 0 <= k < |order| && order[k] == c[0];
        DistinctPrefix(order, k);
        WalkGoesDown(ops, order, c, |c| - 1, k);
      }
    }
  }

  /** Not done, and every operation of that id still waits for something not done. */
  ghost predicate Waiting(ops: seq<Operation>, done: seq<OpId>, a: OpId) {
    a in Ids(ops) && a !in done
  }

  lemma WaitingHasWaitingDependency(ops: seq<Operation>, done: seq<OpId>, a: OpId) returns (b: OpId)
    requires AllKnown(ops) && Stuck(ops, done) && Waiting(ops, done, a)
    ensures Waiting(ops, done, b) && Edge(ops, a, b)
  {
    var i :| 0 <= i < |ops| && Ids(ops)[i] == a;
    var op := ops[i];
    assert !Ready(ops, done, a);
    b :| b in op.dependsOn && b !in done;
  }

  lemma {:induction false} WaitingWalk(ops: seq<Operation>, done: seq<OpId>, a: OpId, n: nat)
    returns (w: seq<OpId>)
    requires AllKnown(ops) && Stuck(ops, done) && Waiting(ops, done, a)
    ensures |w| == n + 1
    ensures forall i :: 0 <= i < |w| ==> Waiting(ops, done, w[i])
    ensures forall i :: 0 <= i < |w| - 1 ==> Edge(ops, w[i], w[i+1])
  {
    if n == 0 {
      w := [a];
    } else {
      var v := WaitingWalk(ops, done, a, n - 1);
      var b := WaitingHasWaitingDependency(ops, done, v[n-1]);
      w := v + [b];
    }
  }

  /** When nothing is ready but something is left, a long enough walk repeats itself: a cycle. */
  lemma StuckHasCycle(ops: seq<Operation>, done: seq<OpId>, a: OpId)
    requires AllKnown(ops) && Stuck(ops, done) && Waiting(ops, done, a)
    ensures !Acyclic(ops)
  {
    var w := WaitingWalk(ops, done, a, |ops|);
    DistinctIsSet(w);
    DistinctIsSet(Ids(ops));
    assert forall x :: x in w ==> x in Ids(ops);
    SubsetSize(set x | x in w, set x | x in Ids(ops));
    assert !Distinct(w);
    var i, j :| 0 <= i < j < |w| && w[i] == w[j];
    var c := w[i..j+1];
    forall k | 0 <= k < |c| - 1 ensures Edge(ops, c[k], c[k+1]) {
      assert Edge(ops, w[i+k], w[i+k+1]);
    }
    assert Cycle(ops, c);
  }

  /** What a run of the greedy procedure that ends stuck says about the plan. */
  lemma GreedyDecides(ops: seq<Operation>, order: seq<OpId>)
    requires DistinctIds(ops) && AllKnown(ops) && Greedy(ops, order) && Stuck(ops, order)
    ensures |order| == |ops| <==> Acyclic(ops)
    ensures |order| == |ops| ==> LeastTopological(ops, order)
  {
    if |order| == |ops| {
      GreedyIsTopological(ops, order);
      TopologicalIsAcyclic(ops, order);
      forall t | Topological(ops, t) && t != order ensures Earlier(order, t) {
        GreedyIsLeast(ops, order, t);
      }
    } else {
      DistinctIsSet(order);
      DistinctIsSet(Ids(ops));
      var done, all := set a | a in order, set a | a in Ids(ops);
      SubsetSize(done, all);
      var a := Missing(done, all);
      StuckHasCycle(ops, order, a);
    }
  }

  /** There is at most one least topological order. */
  lemma LeastTopologicalIsUnique(ops: seq<Operation>, p: seq<OpId>, q: seq<OpId>)
    requires LeastTopological(ops, p) && LeastTopological(ops, q)
    ensures p == q
  {
    if p != q {
      var i :| 0 <= i < |p| && i < |q| && p[..i] == q[..i] && Text.Less(p[i], q[i]);
      var j :| 0 <= j < |q| && j < |p| && q[..j] == p[..j] && Text.Less(q[j], p[j]);
      if i < j { assert q[..j][i] == p[..j][i]; Text.LessIrreflexive(p[i]); }
      if j < i { assert q[..i][j] == p[..i][j]; Text.LessIrreflexive(p[j]); }
      if i == j { Text.LessAsymmetric(p[i], q[i]); }
    }
  }

  /** The order does not depend on how the operations are listed. */
  lemma LeastTopologicalIgnoresListing(ops: seq<Operation>, other: seq<Operation>, p: seq<OpId>)
    requires multiset(ops) == multiset(other) && LeastTopological(ops, p)
    ensures LeastTopological(other, p)
  {
    SameElements(ops, other);
    assert forall a, b :: Edge(ops, a, b) <==> Edge(other, a, b);
    forall a ensures a in Ids(ops) <==> a in Ids(other) {
      if a in Ids(ops) {
        var i :| 0 <= i < |ops| && Ids(ops)[i] == a;
        assert ops[i] in other;
        var j :| 0 <= j < |other| && other[j] == ops[i];
        assert Ids(other)[j] == a;
      }
      if a in Ids(other) {
        var i :| 0 <= i < |other| && Ids(other)[i] == a;
        assert other[i] in ops;
        var j :| 0 <= j < |ops| && ops[j] == other[i];
        assert Ids(ops)[j] == a;
      }
    }
    assert forall t :: Topological(ops, t) <==> Topological(other, t);
  }
}
