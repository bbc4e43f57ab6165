/**
 The executor: operations applied, in dependency order, to a working set of Parquet files.

 A working set maps relative names to file contents. The Parquet transforms are not modelled; they
 are parameters, and what they promise about rows is the hypothesis `RowConserving`. Temporary
 files and directories inside the work directory are not modelled.
 */
module RepairExecution {
  import opened Common
  import opened Sorting
  import opened RepairPlan
  import opened RepairOrder
  import Text

  type Name = string
  type Row = int
  datatype File = File(rows: seq<Row>)
  type WorkingSet = map<Name, File>

  datatype Engine = Engine(
    merge: (seq<File>, nat) -> Option<seq<File>>,
    split: (File, nat) -> Option<seq<File>>,
    rewrite: (File, Option<string>, Option<nat>, bool) -> Option<File>,
    cast: (File, string, string) -> Option<File>,
    rename: (File, string, string) -> Option<File>)

  datatype ExecError = TransformFailed | UnsupportedOperation(op: OpId) | Unsortable(why: SortError)

  // ---------------------------------------------------------------- rows

  ghost function Bag(fs: seq<File>): multiset<Row> {
    if fs == [] then multiset{} else multiset(fs[0].rows) + Bag(fs[1..])
  }

  ghost function RowsOf(m: WorkingSet, k: Name): multiset<Row> {
    if k in m then multiset(m[k].rows) else multiset{}
  }

  /** All rows of the working set, each as often as it occurs. */
  ghost function Content(m: WorkingSet): multiset<Row>
    decreases |m|
  {
    if m == map[] then multiset{} else
      var k :| k in m;
      multiset(m[k].rows) + Content(m - {k})
  }

  lemma {:induction false} ContentWithout(m: WorkingSet, k: Name)
    requires k in m
    ensures Content(m) == multiset(m[k].rows) + Content(m - {k})
    decreases |m|
  {
    var c :| c in m && Content(m) == multiset(m[c].rows) + Content(m - {c});
    if c != k {
      ContentWithout(m - {c}, k);
      ContentWithout(m - {k}, c);
      assert m - {c} - {k} == m - {k} - {c};
    }
  }

  lemma ContentPut(m: WorkingSet, k: Name, f: File)
    ensures Content(m[k := f]) == multiset(f.rows) + Content(m - {k})
    ensures Content(m) == RowsOf(m, k) + Content(m - {k})
  {
    ContentWithout(m[k := f], k);
    assert m[k := f] - {k} == m - {k};
    if k in m { ContentWithout(m, k); } else { assert m - {k} == m; }
  }

  /** The transforms lose and invent no row; casts and renames may change row values. */
  ghost predicate RowConserving(e: Engine) {
    && (forall fs, n :: e.merge(fs, n).Some? ==> Bag(e.merge(fs, n).value) == Bag(fs))
    && (forall f, n :: e.split(f, n).Some? ==> Bag(e.split(f, n).value) == multiset(f.rows))
    && (forall f, c, g, s :: e.rewrite(f, c, g, s).Some? ==>
          multiset(e.rewrite(f, c, g, s).value.rows) == multiset(f.rows))
    && (forall f, c, t :: e.cast(f, c, t).Some? ==> |e.cast(f, c, t).value.rows| == |f.rows|)
    && (forall f, c, t :: e.rename(f, c, t).Some? ==> |e.rename(f, c, t).value.rows| == |f.rows|)
  }

  // ---------------------------------------------------------------- generated names

  function Digits(n: nat): string {
    if n < 10 then ["0123456789"[n]] else Digits(n / 10) + ["0123456789"[n % 10]]
  }

  function Zeros(n: nat): string {
    seq(n, _ => '0')
  }

  /** `{idx:04}` */
  function Pad4(n: nat): string {
    var d := Digits(n);
    if |d| < 4 then Zeros(4 - |d|) + d else d
  }

  function Parse(s: string): int {
    if s == [] then 0 else Parse(s[..|s|-1]) * 10 + (s[|s|-1] as int - '0' as int)
  }

  lemma {:induction false} ParseDigits(n: nat)
    ensures Parse(Digits(n)) == n
  {
    if n < 10 {
      assert Digits(n)[..0] == [];
    } else {
      ParseDigits(n / 10);
      assert Digits(n)[..|Digits(n)|-1] == Digits(n / 10);
    }
  }

  lemma {:induction false} ParsePadded(z: nat, s: string)
    ensures Parse(Zeros(z) + s) == Parse(s)
    decreases z + |s|
  {
    var t := Zeros(z) + s;
    if s == [] {
      if z > 0 {
        assert t[..|t|-1] == Zeros(z - 1) + [];
        ParsePadded(z - 1, []);
      }
    } else {
      assert t[..|t|-1] == Zeros(z) + s[..|s|-1];
      ParsePadded(z, s[..|s|-1]);
    }
  }

  lemma PadValue(n: nat)
    ensures Parse(Pad4(n)) == n
  {
    ParseDigits(n);
    if |Digits(n)| < 4 { ParsePadded(4 - |Digits(n)|, Digits(n)); }
  }

  /** At least four digits, no more than needed, that read as the number. */
  lemma PadShape(n: nat)
    ensures |Pad4(n)| >= 4 && (|Pad4(n)| > 4 ==> Pad4(n)[0] != '0')
    ensures forall i :: 0 <= i < |Pad4(n)| ==> '0' <= Pad4(n)[i] <= '9'
    ensures Parse(Pad4(n)) == n
  {
    PadValue(n);
    DigitsShape(n);
  }

  lemma {:induction false} DigitsShape(n: nat)
    ensures Digits(n) != "" && (Digits(n)[0] == '0' ==> n == 0)
    ensures forall i :: 0 <= i < |Digits(n)| ==> '0' <= Digits(n)[i] <= '9'
  {
    if n >= 10 { DigitsShape(n / 10); }
  }

  const MERGED := "merged-part-"

  function SplitHead(input: Name): string {
    input + ".split-"
  }

  function PartName(head: string, idx: nat): Name {
    head + Pad4(idx) + ".parquet"
  }

  /** Parts of one operation get different names. */
  lemma PartNamesDiffer(head: string, i: nat, j: nat)
    requires PartName(head, i) == PartName(head, j)
    ensures i == j
  {
    var a, b := PartName(head, i), PartName(head, j);
    assert |Pad4(i)| == |Pad4(j)|;
    assert a[|head|..|head|+|Pad4(i)|] == Pad4(i);
    assert b[|head|..|head|+|Pad4(j)|] == Pad4(j);
    PadValue(i);
    PadValue(j);
  }

  /** The names of `n` parts, in order. */
  function PartNames(head: string, n: nat): (r: seq<Name>)
    ensures |r| == n
  {
    seq(n, i requires 0 <= i < n => PartName(head, i))
  }

  lemma PartNamesDistinct(head: string, n: nat)
    ensures Distinct(PartNames(head, n))
  {
    forall i, j | 0 <= i < j < n ensures PartNames(head, n)[i] != PartNames(head, n)[j] {
      if PartName(head, i) == PartName(head, j) { PartNamesDiffer(head, i, j); }
    }
  }

  // ---------------------------------------------------------------- one operation

  function NameSet(names: seq<Name>): set<Name> {
    set n | n in names
  }

  function Put(m: WorkingSet, names: seq<Name>, fs: seq<File>): WorkingSet
    requires |names| == |fs|
    decreases |names|
  {
    if names == [] then m else Put(m[names[0] := fs[0]], names[1..], fs[1..])
  }

  /** The named files that are there, a file taken as often as it is named. */
  function Taken(m: WorkingSet, names: seq<Name>): seq<File> {
    if names == [] then [] else
      (if names[0] in m then [m[names[0]]] else []) + Taken(m, names[1..])
  }

  function Present(m: WorkingSet, names: seq<Name>): (r: seq<Name>)
    ensures forall n :: n in r <==> n in names && n in m
  {
    if names == [] then [] else
      (if names[0] in m then [names[0]] else []) + Present(m, names[1..])
  }

  /** Apply a transform to the named files, one after the other. */
  function Each(m: WorkingSet, names: seq<Name>, f: File -> Option<File>): Option<WorkingSet>
    requires forall n :: n in names ==> n in m
    decreases |names|
  {
    if names == [] then Some(m) else
      match f(m[names[0]])
      case None => None
      case Some(g) => Each(m[names[0] := g], names[1..], f)
  }

  function RowGroupMb(bytes: nat): nat {
    if bytes / (1024 * 1024) < 1 then 1 else bytes / (1024 * 1024)
  }

  /** The transform of a rewriting action. */
  function Transform(a: Action, e: Engine): File -> Option<File>
    requires !a.MergeSmallFiles? && !a.SplitLargeFile? && !a.Repartition?
  {
    match a
    case ResizeRowGroups(target, _) => f => e.rewrite(f, None, Some(RowGroupMb(target)), false)
    case Recompress(codec, _) => f => e.rewrite(f, Some(codec), None, false)
    case RebuildStatistics(_) => f => e.rewrite(f, None, None, true)
    case CastColumn(column, _, to) => f => e.cast(f, column, to)
    case AlignSchema(field, _, to) => f => e.cast(f, field, to)
    case RenameColumn(from, to) => f => e.rename(f, from, to)
  }

  /** Its targets: none listed means every file; casts and renames always take every file. */
  function Targets(a: Action, m: WorkingSet, all: seq<Name>): (r: seq<Name>)
    requires !a.MergeSmallFiles? && !a.SplitLargeFile? && !a.Repartition?
    requires forall n :: n in all <==> n in m
    ensures forall n :: n in r ==> n in m
  {
    if ChangesSchema(a) then all
    else Present(m, if a.targetPaths == [] then all else a.targetPaths)
  }

  function Merged(m: WorkingSet, inputs: seq<Name>, target: nat, e: Engine): Result<WorkingSet, ExecError> {
    var files := Taken(m, inputs);
    if |files| < 2 then Ok(m) else
      match e.merge(files, target)
      case None => Err(TransformFailed)
      case Some(outs) => Ok(Put(m - NameSet(inputs), PartNames(MERGED, |outs|), outs))
  }

  /** A split input that is no longer in the working set is read from the source dataset. */
  function SplitSource(m: WorkingSet, root: WorkingSet, input: Name): Option<File> {
    if input in m then Some(m[input]) else if input in root then Some(root[input]) else None
  }

  function Split(m: WorkingSet, root: WorkingSet, input: Name, target: nat, e: Engine): Result<WorkingSet, ExecError> {
    match SplitSource(m, root, input)
    case None => Err(TransformFailed)
    case Some(src) =>
      match e.split(src, target)
      case None => Err(TransformFailed)
      case Some(outs) => Ok(Put(m - {input}, PartNames(SplitHead(input), |outs|), outs))
  }

  /** The work of `apply_operation`; `all` lists the working set, `root` is the source dataset. */
  function Applied(op: Operation, m: WorkingSet, all: seq<Name>, root: WorkingSet, e: Engine)
    : Result<WorkingSet, ExecError>
    requires forall n :: n in all <==> n in m
  {
    match op.action
    case MergeSmallFiles(target, inputs) => Merged(m, inputs, target, e)
    case SplitLargeFile(target, input) => Split(m, root, input, target, e)
    case Repartition(_) => Err(UnsupportedOperation(op.id))
    case _ =>
      match Each(m, Targets(op.action, m, all), Transform(op.action, e))
      case None => Err(TransformFailed)
      case Some(r) => Ok(r)
  }

  // ---------------------------------------------------------------- what an operation does

  /** A transform applied `k` times over. */
  function Repeat(f: File -> Option<File>, x: File, k: nat): Option<File>
    decreases k
  {
    if k == 0 then Some(x) else
      match f(x)
      case None => None
      case Some(y) => Repeat(f, y, k - 1)
  }

  /** How often a file is rewritten: once if none is listed, otherwise as often as it is listed. */
  function Rounds(paths: seq<Name>, n: Name): nat {
    if paths == [] then 1 else multiset(paths)[n]
  }

  /** The listed files, or all if none is listed, are rewritten, and no other file changes, comes or goes. */
  ghost predicate Rewrites(m: WorkingSet, r: WorkingSet, paths: seq<Name>, f: File -> Option<File>) {
    r.Keys == m.Keys && forall n :: n in m ==> Repeat(f, m[n], Rounds(paths, n)) == Some(r[n])
  }

  ghost predicate CannotRewrite(m: WorkingSet, paths: seq<Name>, f: File -> Option<File>) {
    exists n :: n in m && Repeat(f, m[n], Rounds(paths, n)) == None
  }

  /** The `gone` files are replaced by `outs`, numbered from zero under `head`, whatever was there before. */
  ghost predicate Replaces(m: WorkingSet, r: WorkingSet, gone: seq<Name>, head: string, outs: seq<File>) {
    && (forall k :: 0 <= k < |outs| ==> Holds(r, head + Pad4(k) + ".parquet", outs[k]))
    && forall n :: (forall k :: 0 <= k < |outs| ==> n != PartName(head, k)) ==>
         (n in r <==> n in m && n !in gone) && (n in r ==> r[n] == m[n])
  }

  predicate Holds(m: WorkingSet, n: Name, f: File) {
    n in m && m[n] == f
  }

  /** `at` lists, in order, the positions of those of the first `n` names that are in the working set. */
  ghost predicate Positions(m: WorkingSet, names: seq<Name>, n: nat, at: seq<nat>)
    requires n <= |names|
  {
    && (forall i, j :: 0 <= i < j < |at| ==> at[i] < at[j])
    && (forall i :: 0 <= i < |at| ==> at[i] < n && names[at[i]] in m)
    && forall k :: 0 <= k < n && names[k] in m ==> k in at
  }

  function FilesAt(m: WorkingSet, names: seq<Name>, at: seq<nat>): (fs: seq<File>)
    requires forall i :: 0 <= i < |at| ==> at[i] < |names| && names[at[i]] in m
    ensures |fs| == |at| && forall i :: 0 <= i < |at| ==> fs[i] == m[names[at[i]]]
  {
    seq(|at|, i requires 0 <= i < |at| => m[names[at[i]]])
  }

  /** The merge of the inputs that are there, in the order listed, or nothing if fewer than two are. */
  ghost predicate Merges(m: WorkingSet, r: WorkingSet, target: nat, inputs: seq<Name>, at: seq<nat>, e: Engine) {
    && Positions(m, inputs, |inputs|, at)
    && if |at| < 2 then r == m else
         var outs := e.merge(FilesAt(m, inputs, at), target);
         outs.Some? && Replaces(m, r, inputs, "merged-part-", outs.value)
  }

  /** What each action does when it succeeds, by the call it makes of the engine. */
  ghost predicate Effect(a: Action, m: WorkingSet, r: WorkingSet, root: WorkingSet, e: Engine) {
    match a
    case Recompress(codec, paths) => Rewrites(m, r, paths, f => e.rewrite(f, Some(codec), None, false))
    case ResizeRowGroups(bytes, paths) =>
      var mb := if bytes < 0x20_0000 then 1 else bytes / 0x10_0000;
      Rewrites(m, r, paths, f => e.rewrite(f, None, Some(mb), false))
    case RebuildStatistics(paths) => Rewrites(m, r, paths, f => e.rewrite(f, None, None, true))
    case CastColumn(column, _, to) => Rewrites(m, r, [], f => e.cast(f, column, to))
    case AlignSchema(field, _, to) => Rewrites(m, r, [], f => e.cast(f, field, to))
    case RenameColumn(from, to) => Rewrites(m, r, [], f => e.rename(f, from, to))
    case MergeSmallFiles(target, inputs) => exists at :: Merges(m, r, target, inputs, at, e)
    case SplitLargeFile(target, input) =>
      && (input in m || input in root)
      && var outs := e.split(if input in m then m[input] else root[input], target);
      outs.Some? && Replaces(m, r, [input], input + ".split-", outs.value)
    case Repartition(_) => false
  }

  /** When it fails, and how. */
  ghost predicate Fails(op: Operation, m: WorkingSet, root: WorkingSet, e: Engine, error: ExecError) {
    match op.action
    case Repartition(_) => error == UnsupportedOperation(op.id)
    case MergeSmallFiles(target, inputs) =>
      error == TransformFailed && exists at :: CannotMerge(m, target, inputs, at, e)
    case SplitLargeFile(target, input) =>
      && error == TransformFailed
      && (input in m || input in root ==> e.split(if input in m then m[input] else root[input], target).None?)
    case Recompress(codec, paths) =>
      error == TransformFailed && CannotRewrite(m, paths, f => e.rewrite(f, Some(codec), None, false))
    case ResizeRowGroups(bytes, paths) =>
      var mb := if bytes < 0x20_0000 then 1 else bytes / 0x10_0000;
      error == TransformFailed && CannotRewrite(m, paths, f => e.rewrite(f, None, Some(mb), false))
    case RebuildStatistics(paths) =>
      error == TransformFailed && CannotRewrite(m, paths, f => e.rewrite(f, None, None, true))
    case CastColumn(column, _, to) => error == TransformFailed && CannotRewrite(m, [], f => e.cast(f, column, to))
    case AlignSchema(field, _, to) => error == TransformFailed && CannotRewrite(m, [], f => e.cast(f, field, to))
    case RenameColumn(from, to) => error == TransformFailed && CannotRewrite(m, [], f => e.rename(f, from, to))
  }

  ghost predicate CannotMerge(m: WorkingSet, target: nat, inputs: seq<Name>, at: seq<nat>, e: Engine) {
    Positions(m, inputs, |inputs|, at) && |at| >= 2 && e.merge(FilesAt(m, inputs, at), target).None?
  }

  /** Once the first name is done, what is left to do for each file. */
  lemma RepeatNext(m: WorkingSet, names: seq<Name>, f: File -> Option<File>, n: Name)
    requires names != [] && names[0] in m && f(m[names[0]]).Some? && n in m
    ensures Repeat(f, m[n], multiset(names)[n]) ==
            Repeat(f, m[names[0] := f(m[names[0]]).value][n], multiset(names[1..])[n])
  {
    assert names == [names[0]] + names[1..];
  }

  /** Working through a list of names rewrites each file as often as it is named. */
  lemma {:induction false} EachMeaning(m: WorkingSet, names: seq<Name>, f: File -> Option<File>)
    requires forall n :: n in names ==> n in m
    ensures var r := Each(m, names, f);
      if r.Some?
      then && r.value.Keys == m.Keys
           && forall n :: n in m ==> Repeat(f, m[n], multiset(names)[n]) == Some(r.value[n])
      else exists n :: n in m && Repeat(f, m[n], multiset(names)[n]) == None
    decreases |names|
  {
    if names != [] {
      var a := names[0];
      assert names == [a] + names[1..];
      if f(m[a]).Some? {
        var next := m[a := f(m[a]).value];
        EachMeaning(next, names[1..], f);
        forall n | n in m ensures Repeat(f, m[n], multiset(names)[n]) == Repeat(f, next[n], multiset(names[1..])[n]) {
          RepeatNext(m, names, f, n);
        }
      } else {
        assert Repeat(f, m[a], multiset(names)[a]) == None;
      }
    }
  }

  lemma {:induction false} PresentCount(m: WorkingSet, names: seq<Name>, n: Name)
    requires n in m
    ensures multiset(Present(m, names))[n] == multiset(names)[n]
  {
    if names != [] {
      PresentCount(m, names[1..], n);
      assert names == [names[0]] + names[1..];
    }
  }

  /** The targets of an action, counted. */
  lemma TargetCount(a: Action, m: WorkingSet, all: seq<Name>, n: Name)
    requires !a.MergeSmallFiles? && !a.SplitLargeFile? && !a.Repartition?
    requires Distinct(all) && (forall x :: x in all <==> x in m) && n in m
    ensures multiset(Targets(a, m, all))[n] == if ChangesSchema(a) then 1 else Rounds(a.targetPaths, n)
  {
    DistinctCounts(all);
    if !ChangesSchema(a) { PresentCount(m, if a.targetPaths == [] then all else a.targetPaths, n); }
  }

  lemma RewritingMeaning(a: Action, m: WorkingSet, all: seq<Name>, f: File -> Option<File>, paths: seq<Name>)
    requires !a.MergeSmallFiles? && !a.SplitLargeFile? && !a.Repartition?
    requires Distinct(all) && (forall x :: x in all <==> x in m)
    requires paths == if ChangesSchema(a) then [] else a.targetPaths
    ensures var r := Each(m, Targets(a, m, all), f);
      if r.Some? then Rewrites(m, r.value, paths, f) else CannotRewrite(m, paths, f)
  {
    var names := Targets(a, m, all);
    EachMeaning(m, names, f);
    forall n | n in m ensures multiset(names)[n] == Rounds(paths, n) { TargetCount(a, m, all, n); }
  }

  lemma {:induction false} TakenAppend(m: WorkingSet, names: seq<Name>, x: Name)
    ensures Taken(m, names + [x]) == Taken(m, names) + (if x in m then [m[x]] else [])
  {
    if names == [] {
      assert [x][1..] == [] && Taken(m, []) == [];
    } else {
      TakenAppend(m, names[1..], x);
      assert (names + [x])[1..] == names[1..] + [x];
    }
  }

  lemma {:induction false} TakenMeaning(m: WorkingSet, names: seq<Name>, n: nat) returns (at: seq<nat>)
    requires n <= |names|
    ensures Positions(m, names, n, at) && Taken(m, names[..n]) == FilesAt(m, names, at)
  {
    at := [];
    if n > 0 {
      var front := TakenMeaning(m, names, n - 1);
      TakenAppend(m, names[..n-1], names[n-1]);
      assert names[..n] == names[..n-1] + [names[n-1]];
      at := if names[n-1] in m then front + [n - 1] else front;
      PositionsStep(m, names, n, front);
    }
  }

  lemma PositionsStep(m: WorkingSet, names: seq<Name>, n: nat, front: seq<nat>)
    requires 0 < n <= |names| && Positions(m, names, n - 1, front)
    ensures Positions(m, names, n, if names[n-1] in m then front + [n - 1] else front)
    ensures names[n-1] in m ==> FilesAt(m, names, front + [n - 1]) == FilesAt(m, names, front) + [m[names[n-1]]]
  {
    if names[n-1] in m {
      var at := front + [n - 1];
      assert forall i :: 0 <= i < |at| ==> names[at[i]] in m;
    }
  }

  lemma PutMeaning(m: WorkingSet, gone: seq<Name>, head: string, outs: seq<File>)
    ensures Replaces(m, Put(m - NameSet(gone), PartNames(head, |outs|), outs), gone, head, outs)
  {
    var rest, names := m - NameSet(gone), PartNames(head, |outs|);
    var r := Put(rest, names, outs);
    PartNamesDistinct(head, |outs|);
    forall k | 0 <= k < |outs| ensures Holds(r, head + Pad4(k) + ".parquet", outs[k]) {
      PutThere(rest, names, outs, k);
      assert names[k] == head + Pad4(k) + ".parquet";
    }
    forall n | forall k :: 0 <= k < |outs| ==> n != PartName(head, k)
      ensures (n in r <==> n in m && n !in gone) && (n in r ==> r[n] == m[n])
    {
      assert n !in names;
      PutElsewhere(rest, names, outs, n);
    }
  }

  /** The work of `apply_operation` does to the files what its action says, or fails as it says. */
  lemma AppliedMeaning(op: Operation, m: WorkingSet, all: seq<Name>, root: WorkingSet, e: Engine)
    requires Distinct(all) && forall n :: n in all <==> n in m
    ensures var r := Applied(op, m, all, root, e);
      if r.Ok? then Effect(op.action, m, r.value, root, e) else Fails(op, m, root, e, r.error)
  {
    match op.action
    case MergeSmallFiles(target, inputs) => MergeMeaning(op, m, root, e, target, inputs);
    case SplitLargeFile(target, input) => SplitMeaning(op, m, root, e, target, input);
    case Repartition(_) =>
    case _ => RewriteMeaning(op, m, all, root, e);
  }

  lemma SplitMeaning(op: Operation, m: WorkingSet, root: WorkingSet, e: Engine, target: nat, input: Name)
    requires op.action == SplitLargeFile(target, input)
    ensures var r := Split(m, root, input, target, e);
      if r.Ok? then Effect(op.action, m, r.value, root, e) else Fails(op, m, root, e, r.error)
  {
    var src := SplitSource(m, root, input);
    if src.Some? && e.split(src.value, target).Some? {
      assert NameSet([input]) == {input};
      PutMeaning(m, [input], input + ".split-", e.split(src.value, target).value);
    }
  }

  lemma MergeMeaning(op: Operation, m: WorkingSet, root: WorkingSet, e: Engine, target: nat, inputs: seq<Name>)
    requires op.action == MergeSmallFiles(target, inputs)
    ensures var r := Merged(m, inputs, target, e);
      if r.Ok? then Effect(op.action, m, r.value, root, e) else Fails(op, m, root, e, r.error)
  {
    var at := TakenMeaning(m, inputs, |inputs|);
    assert inputs[..|inputs|] == inputs;
    var files := Taken(m, inputs);
    var r := Merged(m, inputs, target, e);
    if |files| >= 2 && e.merge(files, target).Some? {
      PutMeaning(m, inputs, "merged-part-", e.merge(files, target).value);
    }
    if r.Ok? {
      assert Merges(m, r.value, target, inputs, at, e);
    } else {
      assert CannotMerge(m, target, inputs, at, e);
    }
  }

  lemma RewriteMeaning(op: Operation, m: WorkingSet, all: seq<Name>, root: WorkingSet, e: Engine)
    requires !op.action.MergeSmallFiles? && !op.action.SplitLargeFile? && !op.action.Repartition?
    requires Distinct(all) && forall n :: n in all <==> n in m
    ensures var r := Each(m, Targets(op.action, m, all), Transform(op.action, e));
      if r.Some? then Effect(op.action, m, r.value, root, e) else Fails(op, m, root, e, TransformFailed)
  {
    var a := op.action;
    var f := Transform(a, e);
    var paths := if ChangesSchema(a) then [] else a.targetPaths;
    RewritingMeaning(a, m, all, f, paths);
    var r := Each(m, Targets(a, m, all), f);
    match a
    case ResizeRowGroups(bytes, _) =>
      var mb := if bytes < 0x20_0000 then 1 else bytes / 0x10_0000;
      RowGroupSize(bytes);
      SameTransform(m, r, paths, f, x => e.rewrite(x, None, Some(mb), false));
    case Recompress(codec, _) => SameTransform(m, r, paths, f, x => e.rewrite(x, Some(codec), None, false));
    case RebuildStatistics(_) => SameTransform(m, r, paths, f, x => e.rewrite(x, None, None, true));
    case CastColumn(column, _, to) => SameTransform(m, r, paths, f, x => e.cast(x, column, to));
    case AlignSchema(field, _, to) => SameTransform(m, r, paths, f, x => e.cast(x, field, to));
    case RenameColumn(from, to) => SameTransform(m, r, paths, f, x => e.rename(x, from, to));
  }

  lemma RowGroupSize(bytes: nat)
    ensures RowGroupMb(bytes) == if bytes < 0x20_0000 then 1 else bytes / 0x10_0000
  {
  }

  lemma {:induction false} RepeatSame(f: File -> Option<File>, g: File -> Option<File>, x: File, k: nat)
    requires forall y :: f(y) == g(y)
    ensures Repeat(f, x, k) == Repeat(g, x, k)
    decreases k
  {
    if k > 0 && f(x).Some? { RepeatSame(f, g, f(x).value, k - 1); }
  }

  lemma SameTransform(m: WorkingSet, r: Option<WorkingSet>, paths: seq<Name>, f: File -> Option<File>,
                      g: File -> Option<File>)
    requires forall y :: f(y) == g(y)
    requires if r.Some? then Rewrites(m, r.value, paths, f) else CannotRewrite(m, paths, f)
    ensures if r.Some? then Rewrites(m, r.value, paths, g) else CannotRewrite(m, paths, g)
  {
    forall n | n in m ensures Repeat(f, m[n], Rounds(paths, n)) == Repeat(g, m[n], Rounds(paths, n)) {
      RepeatSame(f, g, m[n], Rounds(paths, n));
    }
  }

  // ---------------------------------------------------------------- accounting

  /** Rows of the named files, a file counted as often as it is named. */
  ghost function Named(m: WorkingSet, names: seq<Name>): multiset<Row> {
    if names == [] then multiset{} else
      RowsOf(m, names[0]) + Named(m, names[1..])
  }

  /** Rows of the named files, a file counted once. */
  ghost function NamedOnce(m: WorkingSet, names: seq<Name>): multiset<Row>
    decreases |names|
  {
    if names == [] then multiset{} else
      RowsOf(m, names[0]) + NamedOnce(m - {names[0]}, names[1..])
  }

  lemma {:induction false} NamedElsewhere(m: WorkingSet, names: seq<Name>, k: Name, f: File)
    requires k !in names
    ensures Named(m[k := f], names) == Named(m, names)
  {
    if names != [] { NamedElsewhere(m, names[1..], k, f); }
  }

  lemma PutBalance(after: multiset<Row>, later: multiset<Row>, was: multiset<Row>, now: multiset<Row>,
                   rest: multiset<Row>, bag: multiset<Row>)
    requires after + later == now + rest + bag
    ensures after + (was + later) == was + rest + (now + bag)
  {
    forall x ensures (after + (was + later))[x] == (was + rest + (now + bag))[x] {
      assert (after + later)[x] == (now + rest + bag)[x];
    }
  }

  /** Writing new files loses exactly the rows of the files they are written over. */
  lemma {:induction false} PutContent(m: WorkingSet, names: seq<Name>, fs: seq<File>)
    requires |names| == |fs| && Distinct(names)
    ensures Content(Put(m, names, fs)) + Named(m, names) == Content(m) + Bag(fs)
    decreases |names|
  {
    if names != [] {
      assert names[0] !in names[1..];
      var put := m[names[0] := fs[0]];
      PutContent(put, names[1..], fs[1..]);
      NamedElsewhere(m, names[1..], names[0], fs[0]);
      ContentPut(m, names[0], fs[0]);
      PutBalance(Content(Put(m, names, fs)), Named(m, names[1..]), RowsOf(m, names[0]), multiset(fs[0].rows),
                 Content(m - {names[0]}), Bag(fs[1..]));
    }
  }

  lemma {:induction false} TakenRows(m: WorkingSet, names: seq<Name>)
    ensures Bag(Taken(m, names)) == Named(m, names)
  {
    if names != [] {
      TakenRows(m, names[1..]);
      var rest := Taken(m, names[1..]);
      if names[0] !in m { assert [] + rest == rest; }
    }
  }

  lemma RemoveInTurn(m: WorkingSet, names: seq<Name>)
    requires names != []
    ensures m - {names[0]} - NameSet(names[1..]) == m - NameSet(names)
  {
    assert NameSet(names) == {names[0]} + NameSet(names[1..]);
  }

  lemma {:induction false} RemovedRows(m: WorkingSet, names: seq<Name>)
    ensures Content(m) == NamedOnce(m, names) + Content(m - NameSet(names))
    decreases |names|
  {
    if names == [] {
      assert m - NameSet(names) == m;
    } else {
      RemovedRows(m - {names[0]}, names[1..]);
      RemoveInTurn(m, names);
      ContentPut(m, names[0], File([]));
    }
  }

  /** Naming a file twice only ever adds rows. */
  lemma {:induction false} NamedOnceIsLess(m: WorkingSet, k: set<Name>, names: seq<Name>)
    ensures NamedOnce(m - k, names) <= Named(m, names)
    decreases |names|
  {
    if names != [] {
      assert m - k - {names[0]} == m - (k + {names[0]});
      NamedOnceIsLess(m, k + {names[0]}, names[1..]);
    }
  }

  lemma {:induction false} NamedOnceIfDistinct(m: WorkingSet, k: set<Name>, names: seq<Name>)
    requires Distinct(names) && forall n :: n in names ==> n !in k
    ensures NamedOnce(m - k, names) == Named(m, names)
    decreases |names|
  {
    if names != [] {
      assert m - k - {names[0]} == m - (k + {names[0]});
      assert names[0] !in names[1..];
      NamedOnceIfDistinct(m, k + {names[0]}, names[1..]);
    }
  }

  lemma {:induction false} NothingNamed(m: WorkingSet, names: seq<Name>)
    requires forall n :: n in names ==> n !in m
    ensures Named(m, names) == multiset{}
  {
    if names != [] { NothingNamed(m, names[1..]); }
  }

  /** The names an operation will write, and the files it removes first. */
  ghost function Written(op: Operation, m: WorkingSet, root: WorkingSet, e: Engine): seq<Name> {
    match op.action
    case MergeSmallFiles(target, inputs) =>
      var files := Taken(m, inputs);
      if |files| < 2 || e.merge(files, target).None? then []
      else PartNames(MERGED, |e.merge(files, target).value|)
    case SplitLargeFile(target, input) =>
      var src := SplitSource(m, root, input);
      if src.None? || e.split(src.value, target).None? then []
      else PartNames(SplitHead(input), |e.split(src.value, target).value|)
    case _ => []
  }

  function Removed(op: Operation): set<Name> {
    match op.action
    case MergeSmallFiles(_, inputs) => NameSet(inputs)
    case SplitLargeFile(_, input) => {input}
    case _ => {}
  }

  /** Rows an operation drops: those of other files its parts are written over. */
  ghost function Lost(op: Operation, m: WorkingSet, root: WorkingSet, e: Engine): multiset<Row> {
    Named(m - Removed(op), Written(op, m, root, e))
  }

  /** Rows an operation adds: repeated merge inputs, or a split input read back from the source. */
  ghost function Gained(op: Operation, m: WorkingSet, root: WorkingSet): multiset<Row> {
    match op.action
    case MergeSmallFiles(_, inputs) =>
      if |Taken(m, inputs)| < 2 then multiset{} else Named(m, inputs) - NamedOnce(m, inputs)
    case SplitLargeFile(_, input) =>
      if input !in m && input in root then multiset(root[input].rows) else multiset{}
    case _ => multiset{}
  }

  lemma {:induction false} EachKeepsContent(m: WorkingSet, names: seq<Name>, f: File -> Option<File>)
    requires forall n :: n in names ==> n in m
    requires forall x :: f(x).Some? ==> multiset(f(x).value.rows) == multiset(x.rows)
    ensures Each(m, names, f).Some? ==> Content(Each(m, names, f).value) == Content(m)
    decreases |names|
  {
    if names != [] && f(m[names[0]]).Some? {
      var g := f(m[names[0]]).value;
      EachKeepsContent(m[names[0] := g], names[1..], f);
      ContentPut(m, names[0], g);
    }
  }

  lemma {:induction false} EachKeepsCount(m: WorkingSet, names: seq<Name>, f: File -> Option<File>)
    requires forall n :: n in names ==> n in m
    requires forall x :: f(x).Some? ==> |f(x).value.rows| == |x.rows|
    ensures Each(m, names, f).Some? ==> |Content(Each(m, names, f).value)| == |Content(m)|
    decreases |names|
  {
    if names != [] && f(m[names[0]]).Some? {
      var g := f(m[names[0]]).value;
      EachKeepsCount(m[names[0] := g], names[1..], f);
      ContentPut(m, names[0], g);
      assert |multiset(g.rows)| == |multiset(m[names[0]].rows)|;
    }
  }

  /** Replacing the named files by the parts their merge produced. */
  lemma MergedContent(m: WorkingSet, inputs: seq<Name>, names: seq<Name>, outs: seq<File>)
    requires |names| == |outs| && Distinct(names) && Bag(outs) == Named(m, inputs)
    ensures Content(Put(m - NameSet(inputs), names, outs)) + Named(m - NameSet(inputs), names)
            == Content(m) + (Named(m, inputs) - NamedOnce(m, inputs))
  {
    var rest := m - NameSet(inputs);
    RemovedRows(m, inputs);
    NamedOnceIsLess(m, {}, inputs);
    assert m - {} == m;
    PutContent(rest, names, outs);
  }

  lemma MergeAccounting(op: Operation, m: WorkingSet, root: WorkingSet, e: Engine)
    requires RowConserving(e) && op.action.MergeSmallFiles?
    requires Merged(m, op.action.inputPaths, op.action.targetBytes, e).Ok?
    ensures Content(Merged(m, op.action.inputPaths, op.action.targetBytes, e).value) + Lost(op, m, root, e)
            == Content(m) + Gained(op, m, root)
  {
    var inputs := op.action.inputPaths;
    var files := Taken(m, inputs);
    if |files| >= 2 {
      var outs := e.merge(files, op.action.targetBytes).value;
      TakenRows(m, inputs);
      PartNamesDistinct(MERGED, |outs|);
      MergedContent(m, inputs, PartNames(MERGED, |outs|), outs);
    }
  }

  lemma SplitAccounting(op: Operation, m: WorkingSet, root: WorkingSet, e: Engine)
    requires RowConserving(e) && op.action.SplitLargeFile?
    requires Split(m, root, op.action.inputPath, op.action.targetBytes, e).Ok?
    ensures Content(Split(m, root, op.action.inputPath, op.action.targetBytes, e).value) + Lost(op, m, root, e)
            == Content(m) + Gained(op, m, root)
  {
    var input := op.action.inputPath;
    var outs := e.split(SplitSource(m, root, input).value, op.action.targetBytes).value;
    PartNamesDistinct(SplitHead(input), |outs|);
    PutContent(m - {input}, PartNames(SplitHead(input), |outs|), outs);
    if input in m { ContentWithout(m, input); } else { assert m - {input} == m; }
  }

  lemma TransformConserves(a: Action, e: Engine)
    requires RowConserving(e) && !a.MergeSmallFiles? && !a.SplitLargeFile? && !a.Repartition?
    ensures !ChangesSchema(a) ==> forall x :: Transform(a, e)(x).Some? ==>
              multiset(Transform(a, e)(x).value.rows) == multiset(x.rows)
    ensures ChangesSchema(a) ==> forall x :: Transform(a, e)(x).Some? ==> |Transform(a, e)(x).value.rows| == |x.rows|
  {
    forall x | Transform(a, e)(x).Some?
      ensures if ChangesSchema(a) then |Transform(a, e)(x).value.rows| == |x.rows|
              else multiset(Transform(a, e)(x).value.rows) == multiset(x.rows)
    {
      match a
      case ResizeRowGroups(target, _) =>
        assert Transform(a, e)(x) == e.rewrite(x, None, Some(RowGroupMb(target)), false);
      case Recompress(codec, _) => assert Transform(a, e)(x) == e.rewrite(x, Some(codec), None, false);
      case RebuildStatistics(_) => assert Transform(a, e)(x) == e.rewrite(x, None, None, true);
      case CastColumn(column, _, to) => assert Transform(a, e)(x) == e.cast(x, column, to);
      case AlignSchema(field, _, to) => assert Transform(a, e)(x) == e.cast(x, field, to);
      case RenameColumn(from, to) => assert Transform(a, e)(x) == e.rename(x, from, to);
    }
  }

  lemma SizesAdd(a: multiset<Row>, b: multiset<Row>, c: multiset<Row>, d: multiset<Row>)
    requires a + b == c + d
    ensures |a| + |b| == |c| + |d|
  {
    assert |a + b| == |a| + |b| && |c + d| == |c| + |d|;
  }

  /**
   Exact accounting for every operation that succeeds, with no assumption on names or inputs: what
   is there afterwards plus what was lost equals what was there plus what was gained. Casts and
   renames change row values, so for them only the number of rows is accounted for.
   */
  lemma Accounting(op: Operation, m: WorkingSet, all: seq<Name>, root: WorkingSet, e: Engine)
    requires RowConserving(e) && forall n :: n in all <==> n in m
    requires Applied(op, m, all, root, e).Ok?
    ensures !ChangesSchema(op.action) ==>
              Content(Applied(op, m, all, root, e).value) + Lost(op, m, root, e) == Content(m) + Gained(op, m, root)
    ensures |Content(Applied(op, m, all, root, e).value)| + |Lost(op, m, root, e)| ==
            |Content(m)| + |Gained(op, m, root)|
  {
    var r := Applied(op, m, all, root, e).value;
    if op.action.MergeSmallFiles? {
      MergeAccounting(op, m, root, e);
      SizesAdd(Content(r), Lost(op, m, root, e), Content(m), Gained(op, m, root));
    } else if op.action.SplitLargeFile? {
      SplitAccounting(op, m, root, e);
      SizesAdd(Content(r), Lost(op, m, root, e), Content(m), Gained(op, m, root));
    } else if ChangesSchema(op.action) {
      TransformConserves(op.action, e);
      EachKeepsCount(m, Targets(op.action, m, all), Transform(op.action, e));
    } else {
      TransformConserves(op.action, e);
      EachKeepsContent(m, Targets(op.action, m, all), Transform(op.action, e));
    }
  }

  // ---------------------------------------------------------------- conservation

  /**
   What keeps an operation from losing or adding rows: merge inputs are named once, a split input is
   still in the working set, and the generated names belong to no other file.
   */
  ghost predicate Clean(op: Operation, m: WorkingSet, root: WorkingSet, e: Engine) {
    && (op.action.MergeSmallFiles? ==> Distinct(op.action.inputPaths))
    && (op.action.SplitLargeFile? ==> op.action.inputPath in m)
    && forall n :: n in Written(op, m, root, e) ==> n !in m - Removed(op)
  }

  lemma CleanLosesNothing(op: Operation, m: WorkingSet, root: WorkingSet, e: Engine)
    requires Clean(op, m, root, e)
    ensures Lost(op, m, root, e) == multiset{} && Gained(op, m, root) == multiset{}
  {
    NothingNamed(m - Removed(op), Written(op, m, root, e));
    if op.action.MergeSmallFiles? {
      NamedOnceIfDistinct(m, {}, op.action.inputPaths);
      assert m - {} == m;
    }
  }

  /** `all` lists the names of the working set in order, as iterating the map does. */
  ghost predicate Listing(all: seq<Name>, m: WorkingSet) {
    Distinct(all) && SortedBy(all, Text.AtMost) && forall n :: n in all <==> n in m
  }

  ghost predicate StepTo(op: Operation, m: WorkingSet, m': WorkingSet, root: WorkingSet, e: Engine) {
    exists all :: Listing(all, m) && Applied(op, m, all, root, e) == Ok(m')
  }

  /** The working sets a run of `ops` goes through. */
  ghost predicate RunTo(ops: seq<Operation>, states: seq<WorkingSet>, root: WorkingSet, e: Engine) {
    && |states| == |ops| + 1
    && forall i :: 0 <= i < |ops| ==> StepTo(ops[i], states[i], states[i+1], root, e)
  }

  ghost function TotalLost(ops: seq<Operation>, states: seq<WorkingSet>, n: nat, root: WorkingSet, e: Engine): nat
    requires n <= |ops| && n <= |states|
  {
    if n == 0 then 0 else TotalLost(ops, states, n - 1, root, e) + |Lost(ops[n-1], states[n-1], root, e)|
  }

  ghost function TotalGained(ops: seq<Operation>, states: seq<WorkingSet>, n: nat, root: WorkingSet): nat
    requires n <= |ops| && n <= |states|
  {
    if n == 0 then 0 else TotalGained(ops, states, n - 1, root) + |Gained(ops[n-1], states[n-1], root)|
  }

  /**
   Over any run the number of rows changes by exactly what the operations gained and lost; so it is
   the same at the end if and only if these totals agree.
   */
  lemma {:induction false} RunAccounting(ops: seq<Operation>, states: seq<WorkingSet>, n: nat, root: WorkingSet,
                                         e: Engine)
    requires RowConserving(e) && RunTo(ops, states, root, e) && n <= |ops|
    ensures |Content(states[n])| + TotalLost(ops, states, n, root, e) ==
            |Content(states[0])| + TotalGained(ops, states, n, root)
    ensures |Content(states[n])| == |Content(states[0])| <==>
            TotalLost(ops, states, n, root, e) == TotalGained(ops, states, n, root)
  {
    if n > 0 {
      RunAccounting(ops, states, n - 1, root, e);
      StepAccounting(ops[n-1], states[n-1], states[n], root, e);
    }
  }

  lemma StepAccounting(op: Operation, m: WorkingSet, m': WorkingSet, root: WorkingSet, e: Engine)
    requires RowConserving(e) && StepTo(op, m, m', root, e)
    ensures !ChangesSchema(op.action) ==> Content(m') + Lost(op, m, root, e) == Content(m) + Gained(op, m, root)
    ensures |Content(m')| + |Lost(op, m, root, e)| == |Content(m)| + |Gained(op, m, root)|
  {
    var all :| Listing(all, m) && Applied(op, m, all, root, e) == Ok(m');
    Accounting(op, m, all, root, e);
  }

  /** A run of clean operations conserves the number of rows. */
  lemma {:induction false} RunConserves(ops: seq<Operation>, states: seq<WorkingSet>, n: nat, root: WorkingSet,
                                        e: Engine)
    requires RowConserving(e) && RunTo(ops, states, root, e) && n <= |ops|
    requires forall i :: 0 <= i < n ==> Clean(ops[i], states[i], root, e)
    ensures |Content(states[n])| == |Content(states[0])|
  {
    if n > 0 {
      RunConserves(ops, states, n - 1, root, e);
      CleanStep(ops[n-1], states[n-1], states[n], root, e);
    }
  }

  /** If none of them changes values, it conserves the rows themselves. */
  lemma {:induction false} RunKeepsRows(ops: seq<Operation>, states: seq<WorkingSet>, n: nat, root: WorkingSet,
                                        e: Engine)
    requires RowConserving(e) && RunTo(ops, states, root, e) && n <= |ops|
    requires forall i :: 0 <= i < n ==> Clean(ops[i], states[i], root, e) && !ChangesSchema(ops[i].action)
    ensures Content(states[n]) == Content(states[0])
  {
    if n > 0 {
      RunKeepsRows(ops, states, n - 1, root, e);
      CleanStep(ops[n-1], states[n-1], states[n], root, e);
    }
  }

  lemma CleanStep(op: Operation, m: WorkingSet, m': WorkingSet, root: WorkingSet, e: Engine)
    requires RowConserving(e) && StepTo(op, m, m', root, e) && Clean(op, m, root, e)
    ensures |Content(m')| == |Content(m)|
    ensures !ChangesSchema(op.action) ==> Content(m') == Content(m)
  {
    StepAccounting(op, m, m', root, e);
    CleanLosesNothing(op, m, root, e);
    if !ChangesSchema(op.action) {
      NothingMoved(Content(m'), Lost(op, m, root, e), Content(m), Gained(op, m, root));
    }
  }

  lemma NothingMoved(a: multiset<Row>, b: multiset<Row>, c: multiset<Row>, d: multiset<Row>)
    requires a + b == c + d && b == multiset{} && d == multiset{}
    ensures a == c
  {
    assert a + multiset{} == a && c + multiset{} == c;
  }

  // ---------------------------------------------------------------- parts written over

  lemma {:induction false} NamedRowsIff(m: WorkingSet, names: seq<Name>)
    ensures |Named(m, names)| > 0 <==> exists k :: 0 <= k < |names| && |RowsOf(m, names[k])| > 0
  {
    if names != [] {
      NamedRowsIff(m, names[1..]);
      assert |Named(m, names)| == |RowsOf(m, names[0])| + |Named(m, names[1..])|;
      if k :| 0 <= k < |names| && |RowsOf(m, names[k])| > 0 {
        assert k > 0 ==> names[1..][k-1] == names[k];
      }
      if k :| 0 <= k < |names| - 1 && |RowsOf(m, names[1..][k])| > 0 {
        assert names[k+1] == names[1..][k];
      }
    }
  }

  /** The files a merge will write its `n` parts over. */
  ghost function Overwritten(m: WorkingSet, inputs: seq<Name>, n: nat): multiset<Row> {
    Named(m - NameSet(inputs), PartNames(MERGED, n))
  }

  lemma DistinctInputsGainNothing(op: Operation, m: WorkingSet, root: WorkingSet)
    requires op.action.MergeSmallFiles? && Distinct(op.action.inputPaths)
    ensures Gained(op, m, root) == multiset{}
  {
    NamedOnceIfDistinct(m, {}, op.action.inputPaths);
    assert m - {} == m;
  }

  ghost function MergeOutputs(op: Operation, m: WorkingSet, e: Engine): Option<seq<File>>
    requires op.action.MergeSmallFiles?
  {
    e.merge(Taken(m, op.action.inputPaths), op.action.targetBytes)
  }

  /** A merge of distinct inputs loses exactly the rows of the files its parts are written over. */
  lemma MergeLosesOverwritten(op: Operation, m: WorkingSet, root: WorkingSet, e: Engine, t: WorkingSet, n: nat)
    requires RowConserving(e) && op.action.MergeSmallFiles? && Distinct(op.action.inputPaths)
    requires |Taken(m, op.action.inputPaths)| >= 2 && MergeOutputs(op, m, e).Some?
             && n == |MergeOutputs(op, m, e).value|
    requires Merged(m, op.action.inputPaths, op.action.targetBytes, e) == Ok(t)
    ensures Content(t) + Overwritten(m, op.action.inputPaths, n) == Content(m)
  {
    MergeAccounting(op, m, root, e);
    DistinctInputsGainNothing(op, m, root);
    assert Lost(op, m, root, e) == Overwritten(m, op.action.inputPaths, n);
    assert Content(m) + multiset{} == Content(m);
  }

  /**
   The condition on names matters. A merge numbers its parts from 0000 whatever is there: a working set
   that already holds merged parts which are not among the inputs, as the output of an earlier repair
   does, loses rows exactly when one of the new parts is written over one of these that has any.
   */
  lemma MergeOverwritesEarlierParts(op: Operation, m: WorkingSet, root: WorkingSet, e: Engine, t: WorkingSet, n: nat)
    requires RowConserving(e) && op.action.MergeSmallFiles? && Distinct(op.action.inputPaths)
    requires |Taken(m, op.action.inputPaths)| >= 2 && MergeOutputs(op, m, e).Some?
             && n == |MergeOutputs(op, m, e).value|
    requires Merged(m, op.action.inputPaths, op.action.targetBytes, e) == Ok(t)
    ensures Content(t) + Overwritten(m, op.action.inputPaths, n) == Content(m)
    ensures |Content(t)| < |Content(m)| <==>
            exists k :: 0 <= k < n && |RowsOf(m - NameSet(op.action.inputPaths), PartName(MERGED, k))| > 0
  {
    MergeLosesOverwritten(op, m, root, e, t, n);
    OverwrittenRows(Content(t), Content(m), m, op.action.inputPaths, n);
  }

  lemma OverwrittenRows(after: multiset<Row>, before: multiset<Row>, m: WorkingSet, inputs: seq<Name>, n: nat)
    requires after + Overwritten(m, inputs, n) == before
    ensures |after| < |before| <==> exists k :: 0 <= k < n && |RowsOf(m - NameSet(inputs), PartName(MERGED, k))| > 0
  {
    assert |before| == |after| + |Overwritten(m, inputs, n)|;
    NamedRowsIff(m - NameSet(inputs), PartNames(MERGED, n));
    PartNamesAt(MERGED, n);
  }

  lemma PartNamesAt(head: string, n: nat)
    ensures forall k :: 0 <= k < n ==> PartNames(head, n)[k] == PartName(head, k)
  {
  }

  lemma {:induction false} PutElsewhere(m: WorkingSet, names: seq<Name>, fs: seq<File>, x: Name)
    requires |names| == |fs| && x !in names
    ensures x in Put(m, names, fs) <==> x in m
    ensures x in m ==> Put(m, names, fs)[x] == m[x]
    decreases |names|
  {
    if names != [] { PutElsewhere(m[names[0] := fs[0]], names[1..], fs[1..], x); }
  }

  lemma {:induction false} PutThere(m: WorkingSet, names: seq<Name>, fs: seq<File>, k: nat)
    requires |names| == |fs| && Distinct(names) && k < |names|
    ensures names[k] in Put(m, names, fs) && Put(m, names, fs)[names[k]] == fs[k]
    decreases |names|
  {
    if k == 0 {
      PutElsewhere(m[names[0] := fs[0]], names[1..], fs[1..], names[0]);
    } else {
      PutThere(m[names[0] := fs[0]], names[1..], fs[1..], k - 1);
    }
  }

  /** The rows under the first names are those of `fs`, and there is nothing under the rest. */
  lemma {:induction false} NamedAre(m: WorkingSet, names: seq<Name>, fs: seq<File>)
    requires |fs| <= |names|
    requires forall k :: 0 <= k < |fs| ==> names[k] in m && m[names[k]] == fs[k]
    requires forall k :: |fs| <= k < |names| ==> names[k] !in m
    ensures Named(m, names) == Bag(fs)
  {
    if fs == [] {
      NothingNamed(m, names);
    } else {
      NamedAre(m, names[1..], fs[1..]);
      assert fs == [fs[0]] + fs[1..];
    }
  }

  /** After a first merge into `outs`, a second one into `n` parts is written over the first of these. */
  lemma SecondOverwritesFirst(m: WorkingSet, outs: seq<File>, inputs: seq<Name>, n: nat)
    requires forall k :: PartName(MERGED, k) !in m && PartName(MERGED, k) !in inputs
    ensures Overwritten(Put(m, PartNames(MERGED, |outs|), outs), inputs, n)
            == Bag(if n < |outs| then outs[..n] else outs)
  {
    var names := PartNames(MERGED, |outs|);
    var t := Put(m, names, outs);
    var fs := if n < |outs| then outs[..n] else outs;
    PartNamesDistinct(MERGED, |outs|);
    PartNamesAt(MERGED, |outs|);
    PartNamesAt(MERGED, n);
    forall k | 0 <= k < |fs|
      ensures PartName(MERGED, k) in t - NameSet(inputs) && (t - NameSet(inputs))[PartName(MERGED, k)] == fs[k]
    {
      PutThere(m, names, outs, k);
    }
    forall k | |fs| <= k < n ensures PartName(MERGED, k) !in t - NameSet(inputs) {
      NotAPart(k, |outs|);
      PutElsewhere(m, names, outs, PartName(MERGED, k));
    }
    NamedAre(t - NameSet(inputs), PartNames(MERGED, n), fs);
  }

  lemma NotAPart(k: nat, n: nat)
    requires n <= k
    ensures PartName(MERGED, k) !in PartNames(MERGED, n)
  {
    forall j | 0 <= j < n ensures PartNames(MERGED, n)[j] != PartName(MERGED, k) {
      if PartName(MERGED, j) == PartName(MERGED, k) { PartNamesDiffer(MERGED, j, k); }
    }
  }

  /**
   Two merges in one plan, of which the second does not take the parts of the first: of the parts of the
   first, as many as the second writes are lost, and nothing else.
   */
  lemma TwoMergesLoseParts(a: Operation, b: Operation, m: WorkingSet, root: WorkingSet, e: Engine)
    requires RowConserving(e) && a.action.MergeSmallFiles? && b.action.MergeSmallFiles?
    requires Distinct(a.action.inputPaths) && Distinct(b.action.inputPaths)
    requires forall k :: PartName(MERGED, k) !in m && PartName(MERGED, k) !in b.action.inputPaths
    requires |Taken(m, a.action.inputPaths)| >= 2 && MergeOutputs(a, m, e).Some?
    requires var m1 := Merged(m, a.action.inputPaths, a.action.targetBytes, e);
             m1.Ok? && |Taken(m1.value, b.action.inputPaths)| >= 2 && MergeOutputs(b, m1.value, e).Some?
    ensures var m1 := Merged(m, a.action.inputPaths, a.action.targetBytes, e).value;
            var m2 := Merged(m1, b.action.inputPaths, b.action.targetBytes, e);
            var outs, n := MergeOutputs(a, m, e).value, |MergeOutputs(b, m1, e).value|;
            m2.Ok? && Content(m2.value) + Bag(if n < |outs| then outs[..n] else outs) == Content(m)
  {
    var m1 := Merged(m, a.action.inputPaths, a.action.targetBytes, e).value;
    var outs, n := MergeOutputs(a, m, e).value, |MergeOutputs(b, m1, e).value|;
    MergeLosesOverwritten(a, m, root, e, m1, |outs|);
    PartNamesAt(MERGED, |outs|);
    NothingNamed(m - NameSet(a.action.inputPaths), PartNames(MERGED, |outs|));
    var m2 := Merged(m1, b.action.inputPaths, b.action.targetBytes, e).value;
    MergeLosesOverwritten(b, m1, root, e, m2, n);
    SecondOverwritesFirst(m - NameSet(a.action.inputPaths), outs, b.action.inputPaths, n);
  }

  // ---------------------------------------------------------------- the executor

  datatype AuthorizationSource = AutomaticSafePolicy | ExplicitUser | NotAuthorized | BlockedByPolicy
  datatype AuditRecord = AuditRecord(op: OpId, safety: Safety, source: AuthorizationSource, executed: bool)
  datatype Outcome = Outcome(executed: seq<OpId>, skipped: seq<OpId>, audit: seq<AuditRecord>)

  predicate Permitted(op: Operation, authorized: set<OpId>) {
    op.safety.Safe? || (op.safety.ReviewRequired? && op.id in authorized)
  }

  /** The operations, in order, that are or are not permitted. */
  function Selected(ops: seq<Operation>, authorized: set<OpId>, permitted: bool): seq<Operation> {
    if ops == [] then [] else
      var last := ops[|ops|-1];
      Selected(ops[..|ops|-1], authorized, permitted)
      + (if Permitted(last, authorized) == permitted then [last] else [])
  }

  function SourceOf(op: Operation, authorized: set<OpId>): AuthorizationSource {
    match op.safety
    case Safe => AutomaticSafePolicy
    case ReviewRequired => if op.id in authorized then ExplicitUser else NotAuthorized
    case Destructive => BlockedByPolicy
    case Blocked => BlockedByPolicy
  }

  /** One record per operation, in order; `executed` is set exactly for the permitted ones. */
  ghost predicate Audited(audit: seq<AuditRecord>, ops: seq<Operation>, authorized: set<OpId>) {
    && |audit| == |ops|
    && forall i :: 0 <= i < |ops| ==> audit[i] == RecordOf(ops[i], authorized)
  }

  function RecordOf(op: Operation, authorized: set<OpId>): AuditRecord {
    AuditRecord(op.id, op.safety, SourceOf(op, authorized), Permitted(op, authorized))
  }

  /** What the audit says of an operation: why it was executed, or why not. */
  predicate AuditTells(a: AuditRecord, op: Operation, authorized: set<OpId>) {
    && a.op == op.id && a.safety == op.safety
    && (a.source == AutomaticSafePolicy <==> op.safety.Safe?)
    && (a.source == ExplicitUser <==> op.safety.ReviewRequired? && op.id in authorized)
    && (a.source == NotAuthorized <==> op.safety.ReviewRequired? && op.id !in authorized)
    && (a.source == BlockedByPolicy <==> op.safety.Destructive? || op.safety.Blocked?)
    && (a.executed <==> a.source == AutomaticSafePolicy || a.source == ExplicitUser)
  }

  lemma {:induction false} SelectedMembers(ops: seq<Operation>, authorized: set<OpId>, permitted: bool, op: Operation)
    ensures op in Selected(ops, authorized, permitted) <==> op in ops && Permitted(op, authorized) == permitted
  {
    if ops != [] {
      SelectedMembers(ops[..|ops|-1], authorized, permitted, op);
      assert ops == ops[..|ops|-1] + [ops[|ops|-1]];
    }
  }

  /** With distinct ids an operation is among the selected ids exactly when it is selected itself. */
  lemma SelectedIds(ops: seq<Operation>, sorted: seq<Operation>, authorized: set<OpId>, permitted: bool, op: Operation)
    requires DistinctIds(ops) && multiset(sorted) == multiset(ops) && op in ops
    ensures op.id in Ids(Selected(sorted, authorized, permitted)) <==> Permitted(op, authorized) == permitted
  {
    var chosen := Selected(sorted, authorized, permitted);
    SameElements(sorted, ops);
    SelectedMembers(sorted, authorized, permitted, op);
    if op in chosen {
      var k :| 0 <= k < |chosen| && chosen[k] == op;
      assert Ids(chosen)[k] == op.id;
    }
    if op.id in Ids(chosen) {
      var k :| 0 <= k < |chosen| && Ids(chosen)[k] == op.id;
      SelectedMembers(sorted, authorized, permitted, chosen[k]);
      OneOpPerId(ops, chosen[k], op);
    }
  }

  lemma ExecutedExactly(ops: seq<Operation>, sorted: seq<Operation>, authorized: set<OpId>)
    requires DistinctIds(ops) && multiset(sorted) == multiset(ops)
    ensures forall op :: op in ops ==>
              && (op.id in Ids(Selected(sorted, authorized, true)) <==> Permitted(op, authorized))
              && (op.id in Ids(Selected(sorted, authorized, false)) <==> !Permitted(op, authorized))
  {
    forall op | op in ops
      ensures op.id in Ids(Selected(sorted, authorized, true)) <==> Permitted(op, authorized)
      ensures op.id in Ids(Selected(sorted, authorized, false)) <==> !Permitted(op, authorized)
    {
      SelectedIds(ops, sorted, authorized, true, op);
      SelectedIds(ops, sorted, authorized, false, op);
    }
  }

  /** What is noted after `ops`: the permitted ones as executed, the others as skipped, and all of them audited. */
  ghost predicate Notes(ops: seq<Operation>, authorized: set<OpId>, o: Outcome) {
    && o.executed == Ids(Selected(ops, authorized, true))
    && o.skipped == Ids(Selected(ops, authorized, false))
    && Audited(o.audit, ops, authorized)
  }

  /** Where the executor stands after `ops`, the first operations of its order. */
  ghost predicate Progress(ops: seq<Operation>, authorized: set<OpId>, o: Outcome, states: seq<WorkingSet>,
                           start: WorkingSet, files: WorkingSet, root: WorkingSet, e: Engine)
  {
    && Notes(ops, authorized, o)
    && RunTo(Selected(ops, authorized, true), states, root, e)
    && states[0] == start && states[|states|-1] == files
  }

  function Noted(o: Outcome, op: Operation, authorized: set<OpId>): Outcome {
    var record := RecordOf(op, authorized);
    if Permitted(op, authorized)
    then Outcome(o.executed + [op.id], o.skipped, o.audit + [record])
    else Outcome(o.executed, o.skipped + [op.id], o.audit + [record])
  }

  /** An operation was applied, or left alone because it is not permitted. */
  ghost predicate Attended(op: Operation, authorized: set<OpId>, m: WorkingSet, m': WorkingSet, root: WorkingSet,
                           e: Engine)
  {
    if Permitted(op, authorized) then StepTo(op, m, m', root, e) else m' == m
  }

  function Reached(states: seq<WorkingSet>, op: Operation, authorized: set<OpId>, m: WorkingSet): seq<WorkingSet> {
    if Permitted(op, authorized) then states + [m] else states
  }

  lemma SelectedNext(ops: seq<Operation>, op: Operation, authorized: set<OpId>, permitted: bool)
    ensures Selected(ops + [op], authorized, permitted) ==
            Selected(ops, authorized, permitted) + (if Permitted(op, authorized) == permitted then [op] else [])
  {
    assert (ops + [op])[..|ops|] == ops;
  }

  lemma SelectedIdsNext(ops: seq<Operation>, op: Operation, authorized: set<OpId>, permitted: bool)
    ensures Ids(Selected(ops + [op], authorized, permitted)) ==
            Ids(Selected(ops, authorized, permitted)) + (if Permitted(op, authorized) == permitted then [op.id] else [])
  {
    SelectedNext(ops, op, authorized, permitted);
  }

  lemma AuditedNext(audit: seq<AuditRecord>, ops: seq<Operation>, op: Operation, authorized: set<OpId>)
    requires Audited(audit, ops, authorized)
    ensures Audited(audit + [RecordOf(op, authorized)], ops + [op], authorized)
  {
  }

  lemma NotesStep(ops: seq<Operation>, op: Operation, authorized: set<OpId>, o: Outcome)
    requires Notes(ops, authorized, o)
    ensures Notes(ops + [op], authorized, Noted(o, op, authorized))
  {
    SelectedIdsNext(ops, op, authorized, true);
    SelectedIdsNext(ops, op, authorized, false);
    AuditedNext(o.audit, ops, op, authorized);
  }

  lemma ProgressStep(ops: seq<Operation>, op: Operation, authorized: set<OpId>, o: Outcome, states: seq<WorkingSet>,
                     start: WorkingSet, files: WorkingSet, files': WorkingSet, root: WorkingSet, e: Engine)
    requires Progress(ops, authorized, o, states, start, files, root, e)
    requires Attended(op, authorized, files, files', root, e)
    ensures Progress(ops + [op], authorized, Noted(o, op, authorized), Reached(states, op, authorized, files'),
                     start, files', root, e)
  {
    NotesStep(ops, op, authorized, o);
    SelectedNext(ops, op, authorized, true);
    if Permitted(op, authorized) {
      RunExtends(Selected(ops, authorized, true), states, op, files', root, e);
    }
  }

  lemma RunExtends(ops: seq<Operation>, states: seq<WorkingSet>, op: Operation, m: WorkingSet, root: WorkingSet,
                   e: Engine)
    requires RunTo(ops, states, root, e) && StepTo(op, states[|ops|], m, root, e)
    ensures RunTo(ops + [op], states + [m], root, e)
  {
  }

  class Workspace {
    var files: WorkingSet

    constructor (files: WorkingSet)
      ensures this.files == files
    {
      this.files := files;
    }

    /** The names of the working set, in map order. */
    method Names() returns (all: seq<Name>)
      ensures Listing(all, files)
    {
      var some: seq<Name> := [];
      var left := files.Keys;
      while left != {}
        invariant left <= files.Keys && Distinct(some)
        invariant forall n :: n in some <==> n in files && n !in left
        decreases left
      {
        var n :| n in left;
        left := left - {n};
        some := some + [n];
      }
      Text.AtMostIsOrder();
      SortBySorts(some, Text.AtMost);
      all := SortBy(some, Text.AtMost);
      SameElements(some, all);
      DistinctFromMultiset(some, all);
    }

    method TransformEach(names: seq<Name>, f: File -> Option<File>) returns (ok: bool)
      requires forall n :: n in names ==> n in files
      modifies this
      ensures Each(old(files), names, f) == if ok then Some(files) else None
    {
      var i := 0;
      while i < |names|
        invariant i <= |names| && files.Keys == old(files).Keys
        invariant Each(old(files), names, f) == Each(files, names[i..], f)
      {
        var g := f(files[names[i]]);
        assert names[i..][0] == names[i] && names[i..][1..] == names[i+1..];
        if g.None? { return false; }
        files := files[names[i] := g.value];
        i := i + 1;
      }
      ok := true;
    }

    method PutAll(names: seq<Name>, fs: seq<File>)
      requires |names| == |fs|
      modifies this
      ensures files == Put(old(files), names, fs)
    {
      var i := 0;
      while i < |names|
        invariant i <= |names|
        invariant Put(old(files), names, fs) == Put(files, names[i..], fs[i..])
      {
        assert names[i..][0] == names[i] && names[i..][1..] == names[i+1..];
        assert fs[i..][0] == fs[i] && fs[i..][1..] == fs[i+1..];
        files := files[names[i] := fs[i]];
        i := i + 1;
      }
    }

    method ApplyOperation(op: Operation, root: WorkingSet, e: Engine) returns (r: Result<(), ExecError>)
      modifies this
      ensures r.Ok? ==> StepTo(op, old(files), files, root, e)
      ensures r.Err? ==> exists all :: Listing(all, old(files)) && Applied(op, old(files), all, root, e) == Err(r.error)
      ensures r.Ok? ==> Effect(op.action, old(files), files, root, e)
      ensures r.Err? ==> Fails(op, old(files), root, e, r.error)
    {
      var all := Names();
      AppliedMeaning(op, files, all, root, e);
      match op.action
      case MergeSmallFiles(target, inputs) =>
        var taken := Taken(files, inputs);
        if |taken| < 2 { return Ok(()); }
        var outs := e.merge(taken, target);
        if outs.None? { return Err(TransformFailed); }
        files := files - NameSet(inputs);
        PutAll(PartNames(MERGED, |outs.value|), outs.value);
        r := Ok(());
      case SplitLargeFile(target, input) =>
        var src := SplitSource(files, root, input);
        if src.None? { return Err(TransformFailed); }
        var outs := e.split(src.value, target);
        if outs.None? { return Err(TransformFailed); }
        files := files - {input};
        PutAll(PartNames(SplitHead(input), |outs.value|), outs.value);
        r := Ok(());
      case Repartition(_) => r := Err(UnsupportedOperation(op.id));
      case _ =>
        var ok := TransformEach(Targets(op.action, files, all), Transform(op.action, e));
        r := if ok then Ok(()) else Err(TransformFailed);
    }

    /** One turn of the loop: an operation is applied if it is permitted. */
    method Attend(op: Operation, authorized: set<OpId>, root: WorkingSet, e: Engine) returns (r: Result<(), ExecError>)
      modifies this
      ensures r.Ok? ==> Attended(op, authorized, old(files), files, root, e)
    {
      r := Ok(());
      if Permitted(op, authorized) { r := ApplyOperation(op, root, e); }
    }

    /** The loop: apply what is permitted, in the order given, and skip the rest. */
    method WorkThrough(order: seq<Operation>, authorized: set<OpId>, root: WorkingSet, e: Engine)
      returns (r: Result<Outcome, ExecError>, ghost states: seq<WorkingSet>)
      modifies this
      ensures r.Ok? ==> Progress(order, authorized, r.value, states, old(files), files, root, e)
    {
      states := [files];
      var o := Outcome([], [], []);
      var i := 0;
      while i < |order|
        invariant i <= |order|
        invariant Progress(order[..i], authorized, o, states, old(files), files, root, e)
      {
        var op := order[i];
        ghost var before := files;
        var done := Attend(op, authorized, root, e);
        if done.Err? { return Err(done.error), states; }
        ProgressStep(order[..i], op, authorized, o, states, old(files), before, files, root, e);
        assert order[..i+1] == order[..i] + [op];
        states := Reached(states, op, authorized, files);
        o := Noted(o, op, authorized);
        i := i + 1;
      }
      assert order[..i] == order;
      r := Ok(o);
    }

    /**
     `run_repair_operations`: sort, then apply what is permitted and skip the rest. On success the
     permitted operations were applied in the sorted order and nothing else was.
     */
    method RunRepairOperations(ops: seq<Operation>, authorized: set<OpId>, root: WorkingSet, e: Engine)
      returns (r: Result<Outcome, ExecError>, ghost sorted: seq<Operation>, ghost states: seq<WorkingSet>)
      modifies this
      ensures r.Ok? ==> multiset(sorted) == multiset(ops) && LeastTopological(ops, Ids(sorted))
      ensures r.Ok? ==> Progress(sorted, authorized, r.value, states, old(files), files, root, e)
      ensures r.Ok? ==> DistinctIds(ops) && AllKnown(ops) && Acyclic(ops)
      ensures r.Ok? ==> forall op :: op in ops ==>
                && (op.id in r.value.executed <==>
                    op.safety.Safe? || (op.safety.ReviewRequired? && op.id in authorized))
                && (op.id in r.value.skipped <==> op.id !in r.value.executed)
      ensures r.Ok? ==> |r.value.audit| == |sorted|
      ensures r.Ok? ==> forall i :: 0 <= i < |sorted| ==> AuditTells(r.value.audit[i], sorted[i], authorized)
    {
      sorted, states := [], [files];
      var order := SortByDependencies(ops);
      if order.Err? { return Err(Unsortable(order.error)), sorted, states; }
      sorted := order.value;
      r, states := WorkThrough(order.value, authorized, root, e);
      if r.Ok? { ExecutedExactly(ops, order.value, authorized); }
    }
  }
}
