/**
 Inference of logical Parquet datasets: files are bucketed by the directory they hang off, once
 trailing `key=value` directories are dropped, and a bucket is split by schema unless every file in
 it carries a part-file name.
 */
module DatasetInference {
  import opened Common
  import opened Text
  import opened Sorting
  import opened Paths
  import opened ScanReport

  datatype Inspection = Inspection(schema: seq<Field>)

  /** An entry of the inspection map: the spelling under which its path was first inserted. */
  datatype Entry = Entry(path: string, inspection: Inspection)
  type Inspections = map<Key, Entry>

  // ---------------------------------------------------------------- names

  /** Position of the first `=`, or the length. */
  function Equals(s: string): (i: nat)
    ensures i <= |s| && (i < |s| ==> s[i] == '=') && '=' !in s[..i]
  {
    if s == "" || s[0] == '=' then 0
    else
      var i := 1 + Equals(s[1..]);
      assert s[..i] == [s[0]] + s[1..][..i-1];
      i
  }

  predicate KeyChar(ch: char) {
    'a' <= ch <= 'z' || 'A' <= ch <= 'Z' || '0' <= ch <= '9' || ch == '_'
  }

  /** The characters of a partition key: ASCII letters and digits, and the underscore, by their codes. */
  lemma KeyCharIff(ch: char)
    ensures KeyChar(ch) <==>
            97 <= ch as int <= 122 || 65 <= ch as int <= 90 || 48 <= ch as int <= 57 || ch as int == 95
  {
  }

  function HiveSegment(part: string): Option<PartitionSegment> {
    var i := Equals(part);
    if 0 < i < |part| - 1 && (forall k :: 0 <= k < i ==> KeyChar(part[k]))
    then Some(PartitionSegment(part[..i], part[i+1..])) else None
  }

  lemma {:induction false} EqualsOf(key: string, value: string)
    requires '=' !in key
    ensures Equals(key + "=" + value) == |key|
  {
    var s := key + "=" + value;
    if key != "" {
      assert s[0] == key[0] && key[0] in key;
      assert s[1..] == key[1..] + "=" + value;
      EqualsOf(key[1..], value);
    }
  }

  predicate KeyText(key: string) {
    key != "" && forall k :: 0 <= k < |key| ==> KeyChar(key[k])
  }

  /** A name is a partition segment exactly when it is a key, an equals sign and a value. */
  lemma HiveSegmentIff(part: string, key: string, value: string)
    ensures HiveSegment(part) == Some(PartitionSegment(key, value)) <==>
            part == key + "=" + value && KeyText(key) && value != ""
  {
    if HiveSegment(part) == Some(PartitionSegment(key, value)) {
      var i := Equals(part);
      assert part == part[..i] + [part[i]] + part[i+1..];
      assert forall k :: 0 <= k < i ==> part[..i][k] == part[k];
    }
    if part == key + "=" + value && KeyText(key) && value != "" {
      assert '=' !in key;
      EqualsOf(key, value);
      assert part[..|key|] == key && part[|key|+1..] == value;
    }
  }

  function SegmentOf(c: Component): seq<PartitionSegment> {
    if c.Normal? && HiveSegment(c.name).Some? then [HiveSegment(c.name).value] else []
  }

  /** What `f` gives for each element, one after the other. */
  function FlatMap<S, T>(s: seq<S>, f: S -> seq<T>): seq<T> {
    if s == [] then [] else f(s[0]) + FlatMap(s[1..], f)
  }

  function HiveSegments(path: Key): seq<PartitionSegment> {
    FlatMap(path, SegmentOf)
  }

  lemma {:induction false} FlatMapNext<S, T>(s: seq<S>, x: S, f: S -> seq<T>)
    ensures FlatMap(s + [x], f) == FlatMap(s, f) + f(x)
  {
    if s == [] {
      assert s + [x] == [x] && [x][1..] == [];
    } else {
      FlatMapNext(s[1..], x, f);
      assert (s + [x])[1..] == s[1..] + [x];
    }
  }

  /**
   The partitions of a path are its components of the form `key=value`, in order: each one adds its segment
   behind those before it, and any other component adds none.
   */
  lemma SegmentsOfNext(path: Key, last: Component, key: string, value: string)
    requires last.Normal?
    ensures last.name == key + "=" + value && KeyText(key) && value != "" ==>
              HiveSegments(path + [last]) == HiveSegments(path) + [PartitionSegment(key, value)]
    ensures (forall k, v :: last.name == k + "=" + v ==> !KeyText(k) || v == "") ==>
              HiveSegments(path + [last]) == HiveSegments(path)
  {
    FlatMapNext(path, last, SegmentOf);
    HiveSegmentIff(last.name, key, value);
    if HiveSegment(last.name).Some? {
      HiveSegmentIff(last.name, HiveSegment(last.name).value.key, HiveSegment(last.name).value.value);
    }
  }

  /** The directories between the root and the file. */
  function Directories(dir: Key): seq<string> {
    if dir == [] then [] else (if dir[0] == CurDir then [] else [dir[0].Show()]) + Directories(dir[1..])
  }

  /** How many directories are left when trailing `key=value` ones are dropped. */
  ghost predicate AnchorLength(dirs: seq<string>, n: nat) {
    && n <= |dirs|
    && (forall k :: n <= k < |dirs| ==> HiveSegment(dirs[k]).Some?)
    && (n > 0 ==> HiveSegment(dirs[n-1]).None?)
  }

  function AnchorSize(dirs: seq<string>): (n: nat)
    ensures AnchorLength(dirs, n)
  {
    if dirs == [] || HiveSegment(dirs[|dirs|-1]).None? then |dirs| else AnchorSize(dirs[..|dirs|-1])
  }

  function AnchorOf(dir: Key): string {
    var dirs := Directories(dir);
    Join(dirs[..AnchorSize(dirs)], "/")
  }

  function Anchor(root: string, path: string): string {
    AnchorOf(Parent(Relative(Components(root), Components(path))))
  }

  lemma AnchorLengthIsUnique(dirs: seq<string>, m: nat, n: nat)
    requires AnchorLength(dirs, m) && AnchorLength(dirs, n)
    ensures m == n
  {
  }

  /** The components of directories with these names. */
  function Named(dirs: seq<string>): (k: Key)
    ensures |k| == |dirs| && forall i :: 0 <= i < |dirs| ==> k[i] == Normal(dirs[i])
  {
    seq(|dirs|, i requires 0 <= i < |dirs| => Normal(dirs[i]))
  }

  lemma {:induction false} DirectoriesOf(dirs: seq<string>)
    ensures Directories(Named(dirs)) == dirs && ShowAll(Named(dirs)) == dirs
  {
    if dirs != [] {
      DirectoriesOf(dirs[1..]);
      assert Named(dirs)[1..] == Named(dirs[1..]);
    }
  }

  /** The directory of a file below the root. */
  lemma DirectoryOf(root: Key, path: Key, dir: Key, file: Component)
    requires path == root + dir + [file]
    ensures Parent(Relative(root, path)) == dir
  {
    assert root <= path && path[|root|..] == dir + [file];
    assert (dir + [file])[..|dir|] == dir;
  }

  /**
   The anchor of a file that lies in the directories `dirs` below the root: their names up to the last that
   is not `key=value`. The name of the file does not matter.
   */
  lemma AnchorOfPath(root: string, path: string, dirs: seq<string>, file: Component, n: nat)
    requires Components(path) == Components(root) + Named(dirs) + [file] && AnchorLength(dirs, n)
    ensures Anchor(root, path) == Join(dirs[..n], "/")
  {
    DirectoryOf(Components(root), Components(path), Named(dirs), file);
    DirectoriesOf(dirs);
    AnchorLengthIsUnique(dirs, n, AnchorSize(dirs));
  }

  /** For a file outside the root they are all its directories. */
  lemma AnchorOutside(root: string, path: string, dirs: seq<string>, file: Component, n: nat)
    requires !(Components(root) <= Components(path))
    requires Components(path) == Named(dirs) + [file] && AnchorLength(dirs, n)
    ensures Anchor(root, path) == Join(dirs[..n], "/")
  {
    assert (Named(dirs) + [file])[..|dirs|] == Named(dirs);
    DirectoriesOf(dirs);
    AnchorLengthIsUnique(dirs, n, AnchorSize(dirs));
  }

  /** Files of one directory have one anchor. */
  lemma SameDirectorySameAnchor(root: string, p: string, q: string, dir: Key, a: Component, b: Component)
    requires Components(p) == Components(root) + dir + [a] && Components(q) == Components(root) + dir + [b]
    ensures Anchor(root, p) == Anchor(root, q)
  {
    DirectoryOf(Components(root), Components(p), dir, a);
    DirectoryOf(Components(root), Components(q), dir, b);
  }

  /** And only those: two files have one anchor exactly when their directories agree up to trailing partitions. */
  lemma SameAnchorIff(root: string, p: string, q: string, d: seq<string>, e: seq<string>, a: Component, b: Component,
                      m: nat, n: nat)
    requires Components(p) == Components(root) + Named(d) + [a] && AnchorLength(d, m)
    requires Components(q) == Components(root) + Named(e) + [b] && AnchorLength(e, n)
    requires AllInner(Named(d)) && AllInner(Named(e))
    ensures Anchor(root, p) == Anchor(root, q) <==> d[..m] == e[..n]
  {
    AnchorOfPath(root, p, d, a, m);
    AnchorOfPath(root, q, e, b, n);
    JoinedApart(d[..m], e[..n]);
  }

  lemma JoinedApart(d: seq<string>, e: seq<string>)
    requires AllInner(Named(d)) && AllInner(Named(e))
    ensures Join(d, "/") == Join(e, "/") ==> d == e
  {
    DirectoriesOf(d);
    DirectoriesOf(e);
    InnerRoundTrip(Named(d));
    InnerRoundTrip(Named(e));
    if Join(d, "/") == Join(e, "/") {
      forall i | 0 <= i < |d| ensures d[i] == e[i] { assert Named(d)[i] == Named(e)[i]; }
    }
  }

  /** `dataset_anchor_key`: pop trailing `key=value` directories off the component stack. */
  method DatasetAnchorKey(root: string, path: string) returns (key: string)
    ensures key == Anchor(root, path)
  {
    var comps := Directories(Parent(Relative(Components(root), Components(path))));
    ghost var dirs := comps;
    while comps != [] && HiveSegment(comps[|comps|-1]).Some?
      invariant |comps| <= |dirs| && comps == dirs[..|comps|]
      invariant forall k :: |comps| <= k < |dirs| ==> HiveSegment(dirs[k]).Some?
    {
      comps := comps[..|comps|-1];
    }
    assert AnchorLength(dirs, |comps|);
    AnchorLengthIsUnique(dirs, |comps|, AnchorSize(dirs));
    key := Join(comps, "/");
  }

  function DatasetId(root: string, anchor: string): string {
    if anchor == "" then root + "::parquet::" + "default" else root + "::parquet::" + anchor
  }

  /** Two anchors share an id exactly when one is empty and the other is a directory named `default`. */
  lemma AnchorIdsCollide(root: string, a: string, b: string)
    requires a != b
    ensures DatasetId(root, a) == DatasetId(root, b) <==> {a, b} == {"", "default"}
  {
    var prefix := root + "::parquet::";
    var x := if a == "" then "default" else a;
    var y := if b == "" then "default" else b;
    assert DatasetId(root, a) == prefix + x && DatasetId(root, b) == prefix + y;
    assert (prefix + x)[|prefix|..] == x && (prefix + y)[|prefix|..] == y;
  }

  function Lower(s: string): string {
    if s == "" then "" else [if 'A' <= s[0] <= 'Z' then s[0] + ' ' else s[0]] + Lower(s[1..])
  }

  predicate PartNamed(path: string) {
    ReadsAsPart(Lower(FileName(Components(path))))
  }

  lemma {:induction false} LowerAt(s: string)
    ensures |Lower(s)| == |s|
    ensures forall i :: 0 <= i < |s| ==>
              if 'A' <= s[i] <= 'Z' then Lower(s)[i] as int == s[i] as int + 32 else Lower(s)[i] == s[i]
  {
    if s != "" { LowerAt(s[1..]); }
  }

  /** A part file: `part-` or `part_`, anything, and `.parquet` or `.pq`, in any case. */
  ghost predicate PartName(name: string, head: string, middle: string, tail: string) {
    (head == "part-" || head == "part_") && (tail == ".parquet" || tail == ".pq") && name == head + middle + tail
  }

  lemma PartNamedIff(path: string, dir: Key, name: string, low: string)
    requires Components(path) == dir + [Normal(name)] && low == Lower(name)
    ensures PartNamed(path) <==> exists head, middle, tail :: PartName(low, head, middle, tail)
  {
    assert FileName(Components(path)) == name;
    if PartNamed(path) { PartNameRead(low); }
    if head, middle, tail :| PartName(low, head, middle, tail) { PartNameBuilt(low, head, middle, tail); }
  }

  predicate ReadsAsPart(low: string) {
    (StartsWith(low, "part-") || StartsWith(low, "part_")) && (EndsWith(low, ".parquet") || EndsWith(low, ".pq"))
  }

  lemma PartNameBuilt(low: string, head: string, middle: string, tail: string)
    requires PartName(low, head, middle, tail)
    ensures ReadsAsPart(low)
  {
    assert low[..5] == head;
    assert low[|low|-|tail|..] == tail;
  }

  lemma PartNameRead(low: string)
    requires ReadsAsPart(low)
    ensures exists head, middle, tail :: PartName(low, head, middle, tail)
  {
    var head := if StartsWith(low, "part-") then "part-" else "part_";
    var tail := if EndsWith(low, ".parquet") then ".parquet" else ".pq";
    EndsApart(low, head, tail);
    assert PartName(low, head, low[|head|..|low|-|tail|], tail);
  }

  /** A beginning without a dot and an end that starts with one do not overlap. */
  lemma EndsApart(low: string, head: string, tail: string)
    requires StartsWith(low, head) && EndsWith(low, tail) && tail != "" && tail[0] == '.' && '.' !in head
    ensures |head| + |tail| <= |low| && low == head + low[|head|..|low|-|tail|] + tail
  {
    var n := |low| - |tail|;
    assert low[n] == tail[0];
    assert n >= |head|;
  }

  function Pair(f: Field): string {
    f.name + "=" + f.logicalType
  }

  function Pairs(schema: seq<Field>): seq<string> {
    if schema == [] then [] else [Pair(schema[0])] + Pairs(schema[1..])
  }

  /** Field names with their types, sorted. */
  function Signature(schema: seq<Field>): string {
    Join(SortBy(Pairs(schema), AtMost), "\U{001f}")
  }

  ghost function PairBag(f: Field): multiset<string> {
    multiset{Pair(f)}
  }

  lemma {:induction false} PairsAreSum(schema: seq<Field>)
    ensures multiset(Pairs(schema)) == Sum(schema, PairBag)
  {
    if schema != [] { PairsAreSum(schema[1..]); }
  }

  lemma {:induction false} PairsAt(schema: seq<Field>)
    ensures |Pairs(schema)| == |schema|
    ensures forall i :: 0 <= i < |schema| ==> Pairs(schema)[i] == schema[i].name + "=" + schema[i].logicalType
  {
    if schema != [] { PairsAt(schema[1..]); }
  }

  predicate Plain(s: string) {
    '\U{001f}' !in s
  }

  /** No name or type holds the separator, and no name an equals sign. */
  ghost predicate PlainSchema(schema: seq<Field>) {
    forall f :: f in schema ==> Plain(f.name) && Plain(f.logicalType) && '=' !in f.name
  }

  lemma PairsArePlain(schema: seq<Field>, p: string)
    requires PlainSchema(schema) && p in Pairs(schema)
    ensures Plain(p) && p != ""
  {
    PairsAt(schema);
    var i :| 0 <= i < |schema| && Pairs(schema)[i] == p;
    assert schema[i] in schema;
  }

  /** Fields that read alike are alike, when names hold no equals sign. */
  lemma PairTells(f: Field, g: Field)
    requires '=' !in f.name && '=' !in g.name && Pair(f) == Pair(g)
    ensures f == g
  {
    var s := Pair(f);
    EqualsOf(f.name, f.logicalType);
    EqualsOf(g.name, g.logicalType);
    assert s[..|f.name|] == f.name && s[..|g.name|] == g.name;
    assert s[|f.name|+1..] == f.logicalType && s[|g.name|+1..] == g.logicalType;
  }

  /** Schemas of plain names and types have one signature exactly when they list the same columns. */
  lemma SignatureIff(a: seq<Field>, b: seq<Field>)
    requires PlainSchema(a) && PlainSchema(b)
    ensures Signature(a) == Signature(b) <==> multiset(a) == multiset(b)
  {
    if multiset(a) == multiset(b) { SignatureIgnoresColumnOrder(a, b); }
    if Signature(a) == Signature(b) {
      SignatureListsPairs(a);
      SignatureListsPairs(b);
      PairsDetermine(a, b);
    }
  }

  /** A signature read back. */
  ghost function ReadBack(signature: string): multiset<string> {
    if signature == "" then multiset{} else multiset(Split(signature, '\U{001f}'))
  }

  lemma SignatureListsPairs(schema: seq<Field>)
    requires PlainSchema(schema)
    ensures ReadBack(Signature(schema)) == multiset(Pairs(schema))
  {
    var s := SortBy(Pairs(schema), AtMost);
    AtMostIsOrder();
    SortBySorts(Pairs(schema), AtMost);
    SameElements(s, Pairs(schema));
    if s != [] {
      forall p | p in s ensures Plain(p) { PairsArePlain(schema, p); }
      PairsArePlain(schema, s[0]);
      SplitJoined(s, '\U{001f}');
    }
  }

  lemma {:induction false} PairsDetermine(a: seq<Field>, b: seq<Field>)
    requires PlainSchema(a) && PlainSchema(b) && multiset(Pairs(a)) == multiset(Pairs(b))
    ensures multiset(a) == multiset(b)
  {
    PairsAt(a);
    PairsAt(b);
    SameElements(Pairs(a), Pairs(b));
    if a != [] {
      assert Pairs(a)[0] in Pairs(b);
      var j :| 0 <= j < |b| && Pairs(b)[j] == Pairs(a)[0];
      assert a[0] in a && b[j] in b;
      PairTells(a[0], b[j]);
      var rest := b[..j] + b[j+1..];
      WithoutOne(Pairs(a), Pairs(b), j);
      PairsWithout(b, j);
      PlainWithout(b, j);
      assert Pairs(a[1..]) == Pairs(a)[1..];
      PairsDetermine(a[1..], rest);
      PutBack(a, b, j);
    }
  }

  lemma PlainWithout(b: seq<Field>, j: nat)
    requires PlainSchema(b) && j < |b|
    ensures PlainSchema(b[..j] + b[j+1..])
  {
  }

  lemma PairsWithout(b: seq<Field>, j: nat)
    requires j < |b| && |Pairs(b)| == |b|
    ensures Pairs(b[..j] + b[j+1..]) == Pairs(b)[..j] + Pairs(b)[j+1..]
  {
    PairsAt(b);
    PairsAt(b[..j] + b[j+1..]);
  }

  lemma PutBack<T>(a: seq<T>, b: seq<T>, j: nat)
    requires a != [] && j < |b| && a[0] == b[j] && multiset(a[1..]) == multiset(b[..j] + b[j+1..])
    ensures multiset(a) == multiset(b)
  {
    assert a == [a[0]] + a[1..] && b == b[..j] + [b[j]] + b[j+1..];
  }

  /** The order of the columns does not matter. */
  lemma SignatureIgnoresColumnOrder(a: seq<Field>, b: seq<Field>)
    requires multiset(a) == multiset(b)
    ensures Signature(a) == Signature(b)
  {
    PairsAreSum(a);
    PairsAreSum(b);
    SumPermute(a, b, PairBag);
    AtMostIsOrder();
    SortBySorts(Pairs(a), AtMost);
    SortBySorts(Pairs(b), AtMost);
    SortedIsUnique(SortBy(Pairs(a), AtMost), SortBy(Pairs(b), AtMost), AtMost);
  }

  // ---------------------------------------------------------------- what inference looks at

  /** Of a path, inference looks only at these; of an anchor, only at the id it gives. */
  datatype Context = Context(
    anchor: string -> string,
    signature: string -> Option<string>,
    partNamed: string -> bool,
    partitions: string -> seq<PartitionSegment>,
    schema: string -> Option<seq<Field>>,
    id: string -> string,
    sliceId: (string, string) -> string)

  /** The view of a scan of `root` with the given inspections; `digest` hashes a schema signature. */
  function ScanContext(root: string, inspections: Inspections, digest: string -> string): Context {
    Context(
      p => Anchor(root, p),
      p => if Components(p) in inspections then Some(Signature(inspections[Components(p)].inspection.schema)) else None,
      p => PartNamed(p),
      p => HiveSegments(Relative(Components(root), Components(p))),
      p => if Components(p) in inspections then Some(inspections[Components(p)].inspection.schema) else None,
      a => DatasetId(root, a),
      (a, sig) => DatasetId(root, a) + ("::sig" + digest(sig)))
  }

  predicate Known(c: Context, path: string) {
    c.signature(path).Some?
  }

  // ---------------------------------------------------------------- grouping

  /** A map from key to paths, iterated in key order. */
  datatype Group = Group(key: string, paths: seq<string>)

  function Add(groups: seq<Group>, key: string, path: string): seq<Group> {
    if groups == [] || Less(key, groups[0].key) then [Group(key, [path])] + groups
    else if key == groups[0].key then [Group(key, groups[0].paths + [path])] + groups[1..]
    else [groups[0]] + Add(groups[1..], key, path)
  }

  ghost predicate Ordered(groups: seq<Group>) {
    forall i, j :: 0 <= i < j < |groups| ==> Less(groups[i].key, groups[j].key)
  }

  ghost predicate Fits(g: Group, key: string -> Option<string>) {
    g.paths != [] && forall p :: p in g.paths ==> key(p) == Some(g.key)
  }

  ghost predicate AllFit(groups: seq<Group>, key: string -> Option<string>) {
    forall i :: 0 <= i < |groups| ==> Fits(groups[i], key)
  }

  /** All elements of the bags of `s`, with multiplicity. */
  ghost function Sum<T>(s: seq<T>, bag: T -> multiset<string>): multiset<string> {
    if s == [] then multiset{} else bag(s[0]) + Sum(s[1..], bag)
  }

  lemma {:induction false} SumAppend<T>(a: seq<T>, b: seq<T>, bag: T -> multiset<string>)
    ensures Sum(a + b, bag) == Sum(a, bag) + Sum(b, bag)
  {
    if a == [] {
      assert a + b == b;
    } else {
      SumAppend(a[1..], b, bag);
      assert (a + b)[0] == a[0] && (a + b)[1..] == a[1..] + b;
    }
  }

  lemma SumOne<T>(x: T, bag: T -> multiset<string>)
    ensures Sum([x], bag) == bag(x)
  {
    assert [x][1..] == [];
  }

  lemma {:induction false} SumInsert<T>(x: T, s: seq<T>, le: (T, T) -> bool, bag: T -> multiset<string>)
    ensures Sum(Insert(x, s, le), bag) == bag(x) + Sum(s, bag)
  {
    var t := Insert(x, s, le);
    if s == [] || le(x, s[0]) {
      assert t[0] == x && t[1..] == s;
    } else {
      SumInsert(x, s[1..], le, bag);
      assert t[0] == s[0] && t[1..] == Insert(x, s[1..], le);
    }
  }

  lemma {:induction false} SumSort<T>(s: seq<T>, le: (T, T) -> bool, bag: T -> multiset<string>)
    ensures Sum(SortBy(s, le), bag) == Sum(s, bag)
  {
    if s != [] {
      SumSort(s[1..], le, bag);
      SumInsert(s[0], SortBy(s[1..], le), le, bag);
    }
  }

  lemma WithoutOne<T>(a: seq<T>, b: seq<T>, j: nat)
    requires multiset(a) == multiset(b) && a != [] && j < |b| && b[j] == a[0]
    ensures multiset(a[1..]) == multiset(b[..j] + b[j+1..])
  {
    var m, n := multiset(a[1..]), multiset(b[..j] + b[j+1..]);
    assert multiset(a) == multiset{a[0]} + m by { assert a == [a[0]] + a[1..]; }
    assert multiset(b) == multiset{a[0]} + n by { assert b == b[..j] + [b[j]] + b[j+1..]; }
    forall x ensures m[x] == n[x] { assert (multiset{a[0]} + m)[x] == (multiset{a[0]} + n)[x]; }
  }

  lemma SumSplit<T>(b: seq<T>, j: nat, bag: T -> multiset<string>)
    requires j < |b|
    ensures Sum(b, bag) == bag(b[j]) + Sum(b[..j] + b[j+1..], bag)
  {
    var x, y := b[..j], b[j+1..];
    assert b == x + ([b[j]] + y) && ([b[j]] + y)[1..] == y;
    SumAppend(x, [b[j]] + y, bag);
    SumAppend(x, y, bag);
  }

  lemma {:induction false} SumPermute<T>(a: seq<T>, b: seq<T>, bag: T -> multiset<string>)
    requires multiset(a) == multiset(b)
    ensures Sum(a, bag) == Sum(b, bag)
  {
    SameElements(a, b);
    if a != [] {
      assert a[0] in b;
      var j :| 0 <= j < |b| && b[j] == a[0];
      WithoutOne(a, b, j);
      SumPermute(a[1..], b[..j] + b[j+1..], bag);
      SumSplit(b, j, bag);
    }
  }

  lemma {:induction false} SumMembers<T>(s: seq<T>, bag: T -> multiset<string>, p: string)
    ensures p in Sum(s, bag) <==> exists i :: 0 <= i < |s| && p in bag(s[i])
  {
    if s != [] {
      SumMembers(s[1..], bag, p);
      assert p in Sum(s, bag) <==> p in bag(s[0]) || p in Sum(s[1..], bag);
      if i :| 0 <= i < |s| && p in bag(s[i]) {
        assert i > 0 ==> s[1..][i-1] == s[i];
      }
    }
  }

  lemma {:induction false} SumPointwise<S, T>(s: seq<S>, f: S -> multiset<string>, t: seq<T>, g: T -> multiset<string>)
    requires |s| == |t| && forall k :: 0 <= k < |s| ==> f(s[k]) == g(t[k])
    ensures Sum(s, f) == Sum(t, g)
  {
    if s != [] { SumPointwise(s[1..], f, t[1..], g); }
  }

  ghost function PathBag(g: Group): multiset<string> {
    multiset(g.paths)
  }

  ghost function GroupBag(groups: seq<Group>): multiset<string> {
    Sum(groups, PathBag)
  }

  lemma {:induction false} AddKeys(groups: seq<Group>, k: string, p: string, i: nat)
    requires i < |Add(groups, k, p)|
    ensures Add(groups, k, p)[i].key == k || exists j :: 0 <= j < |groups| && groups[j].key == Add(groups, k, p)[i].key
  {
    var t := Add(groups, k, p);
    if groups == [] {
    } else if Less(k, groups[0].key) {
      assert i > 0 ==> t[i] == groups[i-1];
    } else if k == groups[0].key {
      assert i > 0 ==> t[i] == groups[i];
    } else if i == 0 {
      assert t[0] == groups[0];
    } else {
      AddKeys(groups[1..], k, p, i - 1);
      var rest := groups[1..];
      assert forall j :: 0 <= j < |rest| ==> rest[j] == groups[j+1];
    }
  }

  lemma {:induction false} AddOrdered(groups: seq<Group>, k: string, p: string)
    requires Ordered(groups)
    ensures Ordered(Add(groups, k, p))
  {
    var t := Add(groups, k, p);
    if groups == [] {
    } else if Less(k, groups[0].key) {
      forall j | 0 <= j < |groups| ensures Less(k, groups[j].key) {
        if j > 0 { LessTransitive(k, groups[0].key, groups[j].key); }
      }
    } else if k != groups[0].key {
      var rest := Add(groups[1..], k, p);
      AddOrdered(groups[1..], k, p);
      LessTotal(k, groups[0].key);
      forall j | 0 <= j < |rest| ensures Less(groups[0].key, rest[j].key) {
        AddKeys(groups[1..], k, p, j);
      }
    }
  }

  lemma {:induction false} AddFits(groups: seq<Group>, k: string, p: string, key: string -> Option<string>)
    requires AllFit(groups, key) && key(p) == Some(k)
    ensures AllFit(Add(groups, k, p), key)
  {
    if groups != [] && !Less(k, groups[0].key) {
      assert Fits(groups[0], key);
      if k == groups[0].key {
        assert Fits(Group(k, groups[0].paths + [p]), key);
      } else {
        AddFits(groups[1..], k, p, key);
      }
    }
  }

  lemma {:induction false} AddBag(groups: seq<Group>, k: string, p: string)
    ensures GroupBag(Add(groups, k, p)) == GroupBag(groups) + multiset{p}
  {
    var t := Add(groups, k, p);
    if groups == [] {
    } else if Less(k, groups[0].key) {
      assert t[1..] == groups;
    } else if k == groups[0].key {
      assert t[1..] == groups[1..];
    } else {
      AddBag(groups[1..], k, p);
      assert t[1..] == Add(groups[1..], k, p);
    }
  }

  /** The paths that have a key. */
  ghost function Keyed(paths: seq<string>, n: nat, key: string -> Option<string>): multiset<string>
    requires n <= |paths|
  {
    if n == 0 then multiset{}
    else Keyed(paths, n - 1, key) + if key(paths[n-1]).Some? then multiset{paths[n-1]} else multiset{}
  }

  lemma {:induction false} AllKeyed(paths: seq<string>, n: nat, key: string -> Option<string>)
    requires n <= |paths| && forall i :: 0 <= i < |paths| ==> key(paths[i]).Some?
    ensures Keyed(paths, n, key) == multiset(paths[..n])
  {
    if n > 0 {
      AllKeyed(paths, n - 1, key);
      assert paths[..n] == paths[..n-1] + [paths[n-1]];
    }
  }

  lemma {:induction false} KeyedMembers(paths: seq<string>, n: nat, key: string -> Option<string>, p: string)
    requires n <= |paths|
    ensures p in Keyed(paths, n, key) <==> key(p).Some? && exists i :: 0 <= i < n && paths[i] == p
  {
    if n > 0 {
      KeyedMembers(paths, n - 1, key, p);
    }
  }

  /** Group `paths` by `key` as a sorted map would: nothing lost, one group per key. */
  method GroupBy(paths: seq<string>, key: string -> Option<string>) returns (groups: seq<Group>)
    ensures Ordered(groups) && AllFit(groups, key)
    ensures GroupBag(groups) == Keyed(paths, |paths|, key)
  {
    groups := [];
    for i := 0 to |paths|
      invariant Ordered(groups) && AllFit(groups, key) && GroupBag(groups) == Keyed(paths, i, key)
    {
      var k := key(paths[i]);
      if k.Some? {
        AddOrdered(groups, k.value, paths[i]);
        AddFits(groups, k.value, paths[i], key);
        AddBag(groups, k.value, paths[i]);
        groups := Add(groups, k.value, paths[i]);
      }
    }
  }

  ghost predicate Holds(groups: seq<Group>, paths: seq<string>, key: string -> Option<string>) {
    && Ordered(groups) && AllFit(groups, key)
    && GroupBag(groups) == Keyed(paths, |paths|, key)
  }

  /** A path is in the group of its key, and in no other. */
  lemma GroupMembers(groups: seq<Group>, paths: seq<string>, key: string -> Option<string>, i: nat, p: string)
    requires Holds(groups, paths, key) && i < |groups|
    ensures p in groups[i].paths <==> p in paths && key(p) == Some(groups[i].key)
  {
    SumMembers(groups, PathBag, p);
    KeyedMembers(paths, |paths|, key, p);
    assert Fits(groups[i], key);
    if p in paths && key(p) == Some(groups[i].key) {
      var j :| 0 <= j < |groups| && p in groups[j].paths;
      assert Fits(groups[j], key);
      LessIrreflexive(groups[i].key);
    }
  }

  lemma GroupFound(groups: seq<Group>, paths: seq<string>, key: string -> Option<string>, p: string)
    requires Holds(groups, paths, key) && p in paths && key(p).Some?
    ensures exists i :: 0 <= i < |groups| && p in groups[i].paths
  {
    SumMembers(groups, PathBag, p);
    KeyedMembers(paths, |paths|, key, p);
  }

  /** More than one group exactly when two keyed paths disagree. */
  lemma SeveralGroups(groups: seq<Group>, paths: seq<string>, key: string -> Option<string>)
    requires Holds(groups, paths, key)
    ensures |groups| > 1 <==>
            exists p, q :: p in paths && q in paths && key(p).Some? && key(q).Some? && key(p) != key(q)
  {
    if |groups| > 1 {
      assert Fits(groups[0], key) && Fits(groups[1], key);
      var p, q := groups[0].paths[0], groups[1].paths[0];
      GroupMembers(groups, paths, key, 0, p);
      GroupMembers(groups, paths, key, 1, q);
      LessIrreflexive(groups[0].key);
      assert p in paths && q in paths && key(p) != key(q);
    }
    if p, q :| p in paths && q in paths && key(p).Some? && key(q).Some? && key(p) != key(q) {
      GroupFound(groups, paths, key, p);
      GroupFound(groups, paths, key, q);
      var i :| 0 <= i < |groups| && p in groups[i].paths;
      var j :| 0 <= j < |groups| && q in groups[j].paths;
      assert Fits(groups[i], key) && Fits(groups[j], key);
    }
  }

  // ---------------------------------------------------------------- datasets

  function FirstSchema(c: Context, paths: seq<string>): Option<seq<Field>> {
    if paths == [] then None else if c.schema(paths[0]).Some? then c.schema(paths[0]) else FirstSchema(c, paths[1..])
  }

  function BuildDataset(c: Context, id: string, paths: seq<string>, kind: GroupingKind): Dataset {
    Dataset(
      id,
      kind,
      if exists i :: 0 <= i < |paths| && c.partitions(paths[i]) != [] then HiveDirectoryKeys else Unpartitioned,
      seq(|paths|, i requires 0 <= i < |paths| => DatasetFile(paths[i], c.partitions(paths[i]))),
      FirstSchema(c, paths))
  }

  function PathsOf(d: Dataset): seq<string> {
    seq(|d.files|, i requires 0 <= i < |d.files| => d.files[i].path)
  }

  predicate Has(d: Dataset, p: string) {
    p in PathsOf(d)
  }

  /** What a dataset says of its files, whatever it is called. */
  lemma BuiltTells(c: Context, id: string, paths: seq<string>, kind: GroupingKind)
    ensures var d := BuildDataset(c, id, paths, kind);
      && |d.files| == |paths|
      && (forall i :: 0 <= i < |paths| ==> d.files[i] == DatasetFile(paths[i], c.partitions(paths[i])))
      && (d.layout == HiveDirectoryKeys <==> exists i :: 0 <= i < |paths| && c.partitions(paths[i]) != [])
      && (d.schema.None? <==> forall i :: 0 <= i < |paths| ==> c.schema(paths[i]).None?)
      && (d.schema.Some? ==> exists i: nat :: SchemaOfFirst(c, paths, i, d.schema))
  {
    FirstSchemaTells(c, paths);
  }

  /** The schema of the first of the files that has one. */
  ghost predicate SchemaOfFirst(c: Context, paths: seq<string>, i: nat, schema: Option<seq<Field>>) {
    i < |paths| && c.schema(paths[i]) == schema && forall j :: 0 <= j < i ==> c.schema(paths[j]).None?
  }

  lemma {:induction false} FirstSchemaTells(c: Context, paths: seq<string>)
    ensures FirstSchema(c, paths).None? <==> forall i :: 0 <= i < |paths| ==> c.schema(paths[i]).None?
    ensures FirstSchema(c, paths).Some? ==> exists i: nat :: SchemaOfFirst(c, paths, i, FirstSchema(c, paths))
  {
    if paths != [] {
      if c.schema(paths[0]).Some? {
        assert SchemaOfFirst(c, paths, 0, FirstSchema(c, paths));
      } else {
        FirstSchemaTells(c, paths[1..]);
        assert forall i :: 0 < i < |paths| ==> paths[1..][i-1] == paths[i];
        if i: nat :| SchemaOfFirst(c, paths[1..], i, FirstSchema(c, paths[1..])) {
          assert SchemaOfFirst(c, paths, i + 1, FirstSchema(c, paths));
        }
      }
    }
  }

  lemma BuiltPaths(c: Context, id: string, paths: seq<string>, kind: GroupingKind)
    ensures PathsOf(BuildDataset(c, id, paths, kind)) == paths
  {
  }

  ghost predicate InBucket(c: Context, paths: seq<string>, anchor: string, p: string) {
    p in paths && c.anchor(p) == anchor
  }

  /** Two files of the bucket have different schemas. */
  ghost predicate Mixed(c: Context, paths: seq<string>, anchor: string) {
    exists p, q :: InBucket(c, paths, anchor, p) && InBucket(c, paths, anchor, q) && Known(c, p) && Known(c, q)
                   && c.signature(p) != c.signature(q)
  }

  ghost predicate PartFiles(c: Context, paths: seq<string>, anchor: string) {
    forall p :: InBucket(c, paths, anchor, p) ==> c.partNamed(p)
  }

  ghost predicate AllInspected(c: Context, paths: seq<string>, anchor: string) {
    forall p :: InBucket(c, paths, anchor, p) ==> Known(c, p)
  }

  ghost predicate Splits(c: Context, paths: seq<string>, anchor: string) {
    Mixed(c, paths, anchor) && !(PartFiles(c, paths, anchor) && AllInspected(c, paths, anchor))
  }

  /** The dataset of a bucket that is kept whole. */
  ghost predicate Whole(c: Context, paths: seq<string>, d: Dataset, anchor: string) {
    && (forall p :: Has(d, p) <==> InBucket(c, paths, anchor, p))
    && d.id == c.id(anchor)
    && d.grouping == if |d.files| <= 1 then SingleFile
                     else if Mixed(c, paths, anchor) && PartFiles(c, paths, anchor) then PathAnchorPartFilePattern
                     else PathAnchor
  }

  /** The dataset of the files of a bucket with one schema signature. */
  ghost predicate Slice(c: Context, paths: seq<string>, d: Dataset, anchor: string, sig: string) {
    && (forall p :: Has(d, p) <==> InBucket(c, paths, anchor, p) && c.signature(p) == Some(sig))
    && d.id == c.sliceId(anchor, sig)
    && d.grouping == PathAnchorSchemaSplit
  }

  ghost predicate Belongs(c: Context, paths: seq<string>, d: Dataset, anchor: string) {
    && d.files != []
    && d == BuildDataset(c, d.id, PathsOf(d), d.grouping)
    && SortedBy(PathsOf(d), PathAtMost)
    && if Splits(c, paths, anchor) then exists sig :: Slice(c, paths, d, anchor, sig) else Whole(c, paths, d, anchor)
  }

  ghost predicate Inferred(c: Context, paths: seq<string>, d: Dataset) {
    exists anchor :: Belongs(c, paths, d, anchor)
  }

  /** What inference looks at is the same for both files. */
  ghost predicate Alike(c: Context, p: string, q: string) {
    c.anchor(p) == c.anchor(q) && c.signature(p) == c.signature(q)
  }

  ghost predicate Separate(c: Context, d: Dataset, e: Dataset) {
    forall p, q :: Has(d, p) && Has(e, q) ==> !Alike(c, p, q)
  }

  ghost predicate Apart(c: Context, datasets: seq<Dataset>) {
    forall i, j :: 0 <= i < j < |datasets| ==> Separate(c, datasets[i], datasets[j])
  }

  ghost function FileBag(d: Dataset): multiset<string> {
    multiset(PathsOf(d))
  }

  /** All files of all datasets, with multiplicity. */
  ghost function Bag(datasets: seq<Dataset>): multiset<string> {
    Sum(datasets, FileBag)
  }

  predicate ById(d: Dataset, e: Dataset) {
    AtMost(d.id, e.id)
  }

  lemma IdOrder()
    ensures TotalPreorder(ById)
  {
    AtMostIsOrder();
  }

  lemma {:induction false} InsertKeepsApart(c: Context, x: Dataset, s: seq<Dataset>)
    requires Apart(c, s) && forall y :: y in s ==> Separate(c, x, y)
    ensures Apart(c, Insert(x, s, ById))
  {
    if s != [] && !ById(x, s[0]) {
      var rest := Insert(x, s[1..], ById);
      InsertKeepsApart(c, x, s[1..]);
      forall k | 0 <= k < |rest| ensures Separate(c, s[0], rest[k]) {
        InsertElement(x, s[1..], ById, k);
        assert s[0] in s;
      }
    }
  }

  /** Sorting by id keeps alike files in one dataset. */
  lemma {:induction false} SortKeepsApart(c: Context, s: seq<Dataset>)
    requires Apart(c, s)
    ensures Apart(c, SortBy(s, ById))
  {
    if s != [] {
      var rest := SortBy(s[1..], ById);
      SortKeepsApart(c, s[1..]);
      IdOrder();
      SortBySorts(s[1..], ById);
      SameElements(rest, s[1..]);
      forall y | y in rest ensures Separate(c, s[0], y) { }
      InsertKeepsApart(c, s[0], rest);
    }
  }

  // ---------------------------------------------------------------- inference

  function AnchorKey(c: Context): string -> Option<string> {
    (p: string) => Some(c.anchor(p))
  }

  ghost predicate IsBucket(c: Context, anchor: string, bucket: seq<string>) {
    bucket != [] && forall p :: p in bucket ==> c.anchor(p) == anchor
  }

  lemma SortPaths(paths: seq<string>)
    ensures multiset(SortBy(paths, PathAtMost)) == multiset(paths)
    ensures SortedBy(SortBy(paths, PathAtMost), PathAtMost)
    ensures forall p :: p in SortBy(paths, PathAtMost) <==> p in paths
    ensures |SortBy(paths, PathAtMost)| == |paths|
  {
    PathOrder();
    SortBySorts(paths, PathAtMost);
    SameElements(SortBy(paths, PathAtMost), paths);
  }

  function SplitDataset(c: Context, anchor: string, g: Group): Dataset {
    BuildDataset(c, c.sliceId(anchor, g.key), SortBy(g.paths, PathAtMost), PathAnchorSchemaSplit)
  }

  lemma SplitDatasetBelongs(c: Context, anchor: string, bucket: seq<string>, groups: seq<Group>, k: nat)
    requires IsBucket(c, anchor, bucket) && Splits(c, bucket, anchor)
    requires Holds(groups, bucket, c.signature) && k < |groups|
    ensures Belongs(c, bucket, SplitDataset(c, anchor, groups[k]), anchor)
    ensures multiset(PathsOf(SplitDataset(c, anchor, groups[k]))) == multiset(groups[k].paths)
    ensures forall p :: p in PathsOf(SplitDataset(c, anchor, groups[k])) ==>
            p in bucket && c.signature(p) == Some(groups[k].key)
  {
    var g := groups[k];
    var d := SplitDataset(c, anchor, g);
    SortPaths(g.paths);
    BuiltPaths(c, d.id, SortBy(g.paths, PathAtMost), PathAnchorSchemaSplit);
    assert Fits(g, c.signature);
    forall p ensures Has(d, p) <==> InBucket(c, bucket, anchor, p) && c.signature(p) == Some(g.key) {
      GroupMembers(groups, bucket, c.signature, k, p);
    }
    assert Slice(c, bucket, d, anchor, g.key);
  }

  method BuildSlices(c: Context, anchor: string, groups: seq<Group>) returns (ds: seq<Dataset>)
    ensures Slices(c, anchor, groups, ds)
  {
    ds := [];
    for i := 0 to |groups|
      invariant |ds| == i && forall k :: 0 <= k < i ==> ds[k] == SplitDataset(c, anchor, groups[k])
    {
      ds := ds + [SplitDataset(c, anchor, groups[i])];
    }
  }

  /** One dataset for each signature of the bucket. */
  method SplitBySchema(c: Context, anchor: string, ghost bucket: seq<string>, groups: seq<Group>)
    returns (ds: seq<Dataset>)
    requires IsBucket(c, anchor, bucket) && Splits(c, bucket, anchor)
    requires Holds(groups, bucket, c.signature)
    ensures forall d :: d in ds ==> Belongs(c, bucket, d, anchor)
    ensures Apart(c, ds) && Bag(ds) == GroupBag(groups)
  {
    ds := BuildSlices(c, anchor, groups);
    SlicesBelong(c, anchor, bucket, groups, ds);
    SlicesApart(c, anchor, bucket, groups, ds);
  }

  ghost predicate Slices(c: Context, anchor: string, groups: seq<Group>, ds: seq<Dataset>) {
    |ds| == |groups| && forall k :: 0 <= k < |groups| ==> ds[k] == SplitDataset(c, anchor, groups[k])
  }

  lemma SlicesBelong(c: Context, anchor: string, bucket: seq<string>, groups: seq<Group>, ds: seq<Dataset>)
    requires IsBucket(c, anchor, bucket) && Splits(c, bucket, anchor)
    requires Holds(groups, bucket, c.signature) && Slices(c, anchor, groups, ds)
    ensures forall d :: d in ds ==> Belongs(c, bucket, d, anchor)
    ensures Bag(ds) == GroupBag(groups)
  {
    forall k | 0 <= k < |groups|
      ensures Belongs(c, bucket, ds[k], anchor) && FileBag(ds[k]) == PathBag(groups[k])
    {
      SplitDatasetBelongs(c, anchor, bucket, groups, k);
    }
    SumPointwise(ds, FileBag, groups, PathBag);
  }

  lemma SlicesApart(c: Context, anchor: string, bucket: seq<string>, groups: seq<Group>, ds: seq<Dataset>)
    requires IsBucket(c, anchor, bucket) && Splits(c, bucket, anchor)
    requires Holds(groups, bucket, c.signature) && Slices(c, anchor, groups, ds)
    ensures Apart(c, ds)
  {
    forall i, j | 0 <= i < j < |ds| ensures Separate(c, ds[i], ds[j]) {
      SplitDatasetBelongs(c, anchor, bucket, groups, i);
      SplitDatasetBelongs(c, anchor, bucket, groups, j);
      LessIrreflexive(groups[i].key);
    }
  }

  function WholeDataset(c: Context, anchor: string, paths: seq<string>, kind: GroupingKind): Dataset {
    BuildDataset(c, c.id(anchor), paths, kind)
  }

  lemma WholeDatasetBelongs(c: Context, anchor: string, bucket: seq<string>, kind: GroupingKind)
    requires IsBucket(c, anchor, bucket) && !Splits(c, bucket, anchor)
    requires kind == if |bucket| <= 1 then SingleFile
                     else if Mixed(c, bucket, anchor) && PartFiles(c, bucket, anchor) then PathAnchorPartFilePattern
                     else PathAnchor
    ensures Belongs(c, bucket, WholeDataset(c, anchor, SortBy(bucket, PathAtMost), kind), anchor)
    ensures Bag([WholeDataset(c, anchor, SortBy(bucket, PathAtMost), kind)]) == multiset(bucket)
  {
    var d := WholeDataset(c, anchor, SortBy(bucket, PathAtMost), kind);
    SortPaths(bucket);
    BuiltPaths(c, d.id, SortBy(bucket, PathAtMost), kind);
    assert |d.files| == |bucket|;
    assert forall p :: Has(d, p) <==> InBucket(c, bucket, anchor, p);
    assert Whole(c, bucket, d, anchor);
    SumOne(d, FileBag);
  }

  /** The datasets of one bucket. */
  method BucketDatasets(c: Context, anchor: string, bucket: seq<string>) returns (ds: seq<Dataset>)
    requires IsBucket(c, anchor, bucket)
    ensures forall d :: d in ds ==> Belongs(c, bucket, d, anchor)
    ensures Apart(c, ds)
    ensures AllInspected(c, bucket, anchor) ==> Bag(ds) == multiset(bucket)
  {
    var sigs := GroupBy(bucket, c.signature);
    var allPart := forall p :: p in bucket ==> c.partNamed(p);
    var allKnown := forall p :: p in bucket ==> Known(c, p);
    BucketDecision(c, anchor, bucket, sigs);
    if |sigs| > 1 && !(allPart && allKnown) {
      ds := SplitBySchema(c, anchor, bucket, sigs);
      BucketConserved(c, anchor, bucket);
    } else {
      var kind := if |bucket| <= 1 then SingleFile
                  else if |sigs| > 1 && allPart then PathAnchorPartFilePattern else PathAnchor;
      WholeDatasetBelongs(c, anchor, bucket, kind);
      ds := [WholeDataset(c, anchor, SortBy(bucket, PathAtMost), kind)];
    }
  }

  lemma BucketDecision(c: Context, anchor: string, bucket: seq<string>, sigs: seq<Group>)
    requires IsBucket(c, anchor, bucket) && Holds(sigs, bucket, c.signature)
    ensures |sigs| > 1 <==> Mixed(c, bucket, anchor)
    ensures PartFiles(c, bucket, anchor) <==> forall p :: p in bucket ==> c.partNamed(p)
    ensures AllInspected(c, bucket, anchor) <==> forall p :: p in bucket ==> Known(c, p)
  {
    SeveralGroups(sigs, bucket, c.signature);
    assert forall p :: InBucket(c, bucket, anchor, p) <==> p in bucket;
  }

  lemma BucketConserved(c: Context, anchor: string, bucket: seq<string>)
    requires IsBucket(c, anchor, bucket)
    ensures AllInspected(c, bucket, anchor) ==> Keyed(bucket, |bucket|, c.signature) == multiset(bucket)
  {
    if AllInspected(c, bucket, anchor) {
      forall i | 0 <= i < |bucket| ensures c.signature(bucket[i]).Some? {
        assert InBucket(c, bucket, anchor, bucket[i]);
      }
      AllKeyed(bucket, |bucket|, c.signature);
      assert bucket[..|bucket|] == bucket;
    }
  }

  /** What holds of a bucket on its own holds of it among all paths. */
  lemma BucketAmongAll(c: Context, paths: seq<string>, bucket: seq<string>, d: Dataset, anchor: string)
    requires forall p :: p in bucket <==> InBucket(c, paths, anchor, p)
    requires Belongs(c, bucket, d, anchor)
    ensures Belongs(c, paths, d, anchor)
  {
    assert forall p :: InBucket(c, bucket, anchor, p) <==> InBucket(c, paths, anchor, p);
    if sig :| Slice(c, bucket, d, anchor, sig) { assert Slice(c, paths, d, anchor, sig); }
  }

  /** The files of the datasets so far hang off the buckets done so far. */
  ghost predicate FromBuckets(c: Context, datasets: seq<Dataset>, groups: seq<Group>, n: nat)
    requires n <= |groups|
  {
    forall d, p :: d in datasets && Has(d, p) ==> AnchoredBefore(c, groups, n, p)
  }

  ghost predicate AnchoredBefore(c: Context, groups: seq<Group>, n: nat, p: string)
    requires n <= |groups|
  {
    exists k :: 0 <= k < n && c.anchor(p) == groups[k].key
  }

  lemma NextBucketIsSeparate(c: Context, datasets: seq<Dataset>, groups: seq<Group>, n: nat, ds: seq<Dataset>)
    requires n < |groups| && Ordered(groups) && FromBuckets(c, datasets, groups, n)
    requires forall d :: d in ds ==> Belongs(c, groups[n].paths, d, groups[n].key)
    ensures forall d, e :: d in datasets && e in ds ==> Separate(c, d, e)
    ensures FromBuckets(c, datasets + ds, groups, n + 1)
  {
    forall e, q | e in ds && Has(e, q) ensures c.anchor(q) == groups[n].key {
    }
    forall d, p | d in datasets + ds && Has(d, p) ensures AnchoredBefore(c, groups, n + 1, p) {
      if d in datasets { assert AnchoredBefore(c, groups, n, p); }
    }
    forall d, e | d in datasets && e in ds ensures Separate(c, d, e) {
      forall p, q | Has(d, p) && Has(e, q) ensures !Alike(c, p, q) {
        assert AnchoredBefore(c, groups, n, p);
        var k :| 0 <= k < n && c.anchor(p) == groups[k].key;
        LessIrreflexive(groups[k].key);
      }
    }
  }

  /** What holds after `n` buckets. */
  ghost predicate Progress(c: Context, paths: seq<string>, buckets: seq<Group>, n: nat, datasets: seq<Dataset>)
    requires n <= |buckets|
  {
    && (forall d :: d in datasets ==> Inferred(c, paths, d))
    && Apart(c, datasets)
    && FromBuckets(c, datasets, buckets, n)
    && (AllKnown(c, paths) ==> Bag(datasets) == GroupBag(buckets[..n]))
  }

  ghost predicate AllKnown(c: Context, paths: seq<string>) {
    forall p :: p in paths ==> Known(c, p)
  }

  lemma BucketsStep(c: Context, paths: seq<string>, buckets: seq<Group>, i: nat, ds: seq<Dataset>)
    requires Holds(buckets, paths, AnchorKey(c)) && i < |buckets|
    requires forall d :: d in ds ==> Belongs(c, buckets[i].paths, d, buckets[i].key)
    ensures forall d :: d in ds ==> Inferred(c, paths, d)
    ensures AllKnown(c, paths) ==> AllInspected(c, buckets[i].paths, buckets[i].key)
  {
    var anchor := buckets[i].key;
    forall p ensures p in buckets[i].paths <==> InBucket(c, paths, anchor, p) {
      GroupMembers(buckets, paths, AnchorKey(c), i, p);
    }
    forall d | d in ds ensures Inferred(c, paths, d) {
      BucketAmongAll(c, paths, buckets[i].paths, d, anchor);
      assert Belongs(c, paths, d, anchor);
    }
  }

  lemma ProgressStep(c: Context, paths: seq<string>, buckets: seq<Group>, i: nat, datasets: seq<Dataset>,
                     ds: seq<Dataset>)
    requires Holds(buckets, paths, AnchorKey(c)) && i < |buckets| && Progress(c, paths, buckets, i, datasets)
    requires forall d :: d in ds ==> Belongs(c, buckets[i].paths, d, buckets[i].key)
    requires Apart(c, ds)
    requires AllInspected(c, buckets[i].paths, buckets[i].key) ==> Bag(ds) == multiset(buckets[i].paths)
    ensures Progress(c, paths, buckets, i + 1, datasets + ds)
  {
    BucketsStep(c, paths, buckets, i, ds);
    NextBucketIsSeparate(c, datasets, buckets, i, ds);
    SumAppend(datasets, ds, FileBag);
    GroupBagStep(buckets, i);
  }

  lemma GroupBagStep(groups: seq<Group>, i: nat)
    requires i < |groups|
    ensures GroupBag(groups[..i+1]) == GroupBag(groups[..i]) + multiset(groups[i].paths)
  {
    SumAppend(groups[..i], [groups[i]], PathBag);
    SumOne(groups[i], PathBag);
    assert groups[..i+1] == groups[..i] + [groups[i]];
  }

  lemma SortedResult(c: Context, paths: seq<string>, buckets: seq<Group>, datasets: seq<Dataset>)
    requires Holds(buckets, paths, AnchorKey(c)) && Progress(c, paths, buckets, |buckets|, datasets)
    ensures Partition(c, paths, SortBy(datasets, ById)) && IdsAscend(SortBy(datasets, ById))
  {
    assert buckets[..|buckets|] == buckets;
    AllKeyed(paths, |paths|, AnchorKey(c));
    assert paths[..|paths|] == paths;
    SortKeepsApart(c, datasets);
    SumSort(datasets, ById, FileBag);
    IdOrder();
    SortBySorts(datasets, ById);
    SameElements(SortBy(datasets, ById), datasets);
  }

  /**
   Every dataset is a bucket or a slice of one, files alike in anchor and schema are never in two
   datasets, and if all paths were inspected the datasets together hold each path as often as given.
   */
  ghost predicate Partition(c: Context, paths: seq<string>, datasets: seq<Dataset>) {
    && (forall d :: d in datasets ==> Inferred(c, paths, d))
    && Apart(c, datasets)
    && (AllKnown(c, paths) ==> Bag(datasets) == multiset(paths))
  }

  ghost predicate IdsAscend(datasets: seq<Dataset>) {
    forall i, j :: 0 <= i < j < |datasets| ==> AtMost(datasets[i].id, datasets[j].id)
  }

  /** `infer_parquet_datasets`. */
  method InferDatasets(c: Context, paths: seq<string>) returns (datasets: seq<Dataset>)
    ensures Partition(c, paths, datasets)
    ensures IdsAscend(datasets)
  {
    var buckets := GroupBy(paths, AnchorKey(c));
    datasets := [];
    for i := 0 to |buckets|
      invariant Progress(c, paths, buckets, i, datasets)
    {
      assert Fits(buckets[i], AnchorKey(c));
      var ds := BucketDatasets(c, buckets[i].key, buckets[i].paths);
      ProgressStep(c, paths, buckets, i, datasets, ds);
      datasets := datasets + ds;
    }
    SortedResult(c, paths, buckets, datasets);
    datasets := SortBy(datasets, ById);
  }

  // ---------------------------------------------------------------- exactly one dataset

  lemma FilesAreTheInspected(c: Context, paths: seq<string>, datasets: seq<Dataset>, p: string)
    requires Partition(c, paths, datasets) && AllKnown(c, paths)
    ensures p in paths <==> exists i :: 0 <= i < |datasets| && Has(datasets[i], p)
  {
    SumMembers(datasets, FileBag, p);
    assert p in paths <==> p in multiset(paths);
    assert forall i :: 0 <= i < |datasets| ==> (Has(datasets[i], p) <==> p in FileBag(datasets[i]));
  }

  lemma AlikeFilesTogether(c: Context, datasets: seq<Dataset>, i: nat, j: nat, p: string, q: string)
    requires Apart(c, datasets) && i < |datasets| && j < |datasets|
    requires Has(datasets[i], p) && Has(datasets[j], q)
    ensures Alike(c, p, q) ==> i == j
  {
    if i < j { assert Separate(c, datasets[i], datasets[j]); }
    if j < i { assert Separate(c, datasets[j], datasets[i]); }
  }

  /** Every inspected path is a file of exactly one dataset. */
  lemma ExactlyOneDataset(c: Context, paths: seq<string>, datasets: seq<Dataset>, p: string) returns (i: nat)
    requires Partition(c, paths, datasets) && AllKnown(c, paths) && p in paths
    ensures i < |datasets| && Has(datasets[i], p)
    ensures forall j :: 0 <= j < |datasets| && Has(datasets[j], p) ==> j == i
  {
    FilesAreTheInspected(c, paths, datasets, p);
    i :| 0 <= i < |datasets| && Has(datasets[i], p);
    forall j | 0 <= j < |datasets| && Has(datasets[j], p) ensures j == i {
      AlikeFilesTogether(c, datasets, i, j, p, p);
    }
  }

  // ---------------------------------------------------------------- a scan

  /** The inspected schema of a path. */
  function SchemaOf(inspections: Inspections, path: string): seq<Field>
    requires Components(path) in inspections
  {
    inspections[Components(path)].inspection.schema
  }

  /** Two inspected files of one directory with the same columns are in one dataset. */
  lemma SameDirectorySameDataset(root: string, inspections: Inspections, digest: string -> string, paths: seq<string>,
                                 datasets: seq<Dataset>, dir: Key, a: Component, b: Component, p: string, q: string,
                                 i: nat, j: nat)
    requires Partition(ScanContext(root, inspections, digest), paths, datasets) && i < |datasets| && j < |datasets|
    requires Components(p) == Components(root) + dir + [a] && Components(q) == Components(root) + dir + [b]
    requires Components(p) in inspections && Components(q) in inspections
    requires multiset(SchemaOf(inspections, p)) == multiset(SchemaOf(inspections, q))
    requires Has(datasets[i], p) && Has(datasets[j], q)
    ensures i == j
  {
    SameDirectorySameAnchor(root, p, q, dir, a, b);
    SignatureIgnoresColumnOrder(SchemaOf(inspections, p), SchemaOf(inspections, q));
    AlikeFilesTogether(ScanContext(root, inspections, digest), datasets, i, j, p, q);
  }

  /**
   Two files with one anchor and different schemas, all files having been inspected, are in one dataset exactly
   when every file with that anchor is named as a part file.
   */
  lemma MixedSchemasTogetherIff(root: string, inspections: Inspections, digest: string -> string, paths: seq<string>,
                                datasets: seq<Dataset>, p: string, q: string, i: nat, j: nat)
    requires Partition(ScanContext(root, inspections, digest), paths, datasets) && i < |datasets| && j < |datasets|
    requires forall x :: x in paths ==> Components(x) in inspections
    requires p in paths && q in paths && Anchor(root, p) == Anchor(root, q)
    requires Signature(SchemaOf(inspections, p)) != Signature(SchemaOf(inspections, q))
    requires Has(datasets[i], p) && Has(datasets[j], q)
    ensures i == j <==> forall x :: x in paths && Anchor(root, x) == Anchor(root, p) ==> PartNamed(x)
  {
    var c := ScanContext(root, inspections, digest);
    MixedTogetherIff(c, paths, datasets, p, q, i, j);
    assert forall x :: x in paths ==> (c.partNamed(x) <==> PartNamed(x)) && c.anchor(x) == Anchor(root, x);
  }

  lemma MixedTogetherIff(c: Context, paths: seq<string>, datasets: seq<Dataset>, p: string, q: string, i: nat, j: nat)
    requires Partition(c, paths, datasets) && i < |datasets| && j < |datasets| && AllKnown(c, paths)
    requires p in paths && q in paths && c.anchor(p) == c.anchor(q) && c.signature(p) != c.signature(q)
    requires Has(datasets[i], p) && Has(datasets[j], q)
    ensures i == j <==> forall x :: x in paths && c.anchor(x) == c.anchor(p) ==> c.partNamed(x)
  {
    assert Inferred(c, paths, datasets[i]);
    var anchor :| Belongs(c, paths, datasets[i], anchor);
    BelongsToOne(c, paths, datasets[i], anchor, p);
    assert InBucket(c, paths, anchor, p) && InBucket(c, paths, anchor, q) && Mixed(c, paths, anchor);
    assert AllInspected(c, paths, anchor);
    if Splits(c, paths, anchor) {
      var sig :| Slice(c, paths, datasets[i], anchor, sig);
      assert i != j;
      assert !PartFiles(c, paths, anchor);
      var x :| InBucket(c, paths, anchor, x) && !c.partNamed(x);
    } else {
      assert Has(datasets[i], q);
      AlikeFilesTogether(c, datasets, i, j, q, q);
      assert PartFiles(c, paths, anchor);
      forall x | x in paths && c.anchor(x) == c.anchor(p) ensures c.partNamed(x) {
        assert InBucket(c, paths, anchor, x);
      }
    }
  }

  /** Files of one dataset have one anchor, and their id says which. */
  lemma OneDatasetOneAnchor(root: string, inspections: Inspections, digest: string -> string, paths: seq<string>,
                            datasets: seq<Dataset>, i: nat, p: string, q: string)
    requires Partition(ScanContext(root, inspections, digest), paths, datasets) && i < |datasets|
    requires Has(datasets[i], p) && Has(datasets[i], q)
    ensures Anchor(root, p) == Anchor(root, q)
    ensures StartsWith(datasets[i].id,
                       root + "::parquet::" + if Anchor(root, p) == "" then "default" else Anchor(root, p))
  {
    var c := ScanContext(root, inspections, digest);
    assert Inferred(c, paths, datasets[i]);
    var anchor :| Belongs(c, paths, datasets[i], anchor);
    BelongsToOne(c, paths, datasets[i], anchor, p);
    BelongsToOne(c, paths, datasets[i], anchor, q);
    assert c.anchor(p) == Anchor(root, p) && c.anchor(q) == Anchor(root, q);
    ScanIds(root, inspections, digest, paths, datasets[i], anchor);
  }

  lemma BelongsToOne(c: Context, paths: seq<string>, d: Dataset, anchor: string, p: string)
    requires Belongs(c, paths, d, anchor) && Has(d, p)
    ensures c.anchor(p) == anchor
  {
    if Splits(c, paths, anchor) {
      var sig :| Slice(c, paths, d, anchor, sig);
    }
    assert InBucket(c, paths, anchor, p);
  }

  lemma ScanIds(root: string, inspections: Inspections, digest: string -> string, paths: seq<string>, d: Dataset,
                anchor: string)
    requires Belongs(ScanContext(root, inspections, digest), paths, d, anchor)
    ensures StartsWith(d.id, root + "::parquet::" + if anchor == "" then "default" else anchor)
  {
    var c := ScanContext(root, inspections, digest);
    var sig := BelongsId(c, paths, d, anchor);
    assert c.id(anchor) == DatasetId(root, anchor);
    assert c.sliceId(anchor, sig) == DatasetId(root, anchor) + ("::sig" + digest(sig));
    IdText(root, anchor, "::sig" + digest(sig));
  }

  lemma BelongsId(c: Context, paths: seq<string>, d: Dataset, anchor: string) returns (sig: string)
    requires Belongs(c, paths, d, anchor)
    ensures d.id == c.id(anchor) || d.id == c.sliceId(anchor, sig)
  {
    sig := "";
    if Splits(c, paths, anchor) { sig :| Slice(c, paths, d, anchor, sig); }
  }

  lemma IdText(root: string, anchor: string, more: string)
    ensures var text := root + "::parquet::" + if anchor == "" then "default" else anchor;
      StartsWith(DatasetId(root, anchor), text) && StartsWith(DatasetId(root, anchor) + more, text)
  {
  }

  /** Each file of a dataset is listed with the partitions found on its path below the root. */
  lemma DatasetTells(root: string, inspections: Inspections, digest: string -> string, paths: seq<string>,
                     datasets: seq<Dataset>, i: nat, f: nat, below: Key)
    requires Partition(ScanContext(root, inspections, digest), paths, datasets) && i < |datasets|
    requires f < |datasets[i].files| && Components(datasets[i].files[f].path) == Components(root) + below
    ensures datasets[i].files[f].partitions == HiveSegments(below)
    ensures datasets[i].files[f].partitions != [] ==> datasets[i].layout == HiveDirectoryKeys
    ensures f == 0 && Components(datasets[i].files[0].path) in inspections ==>
              datasets[i].schema == Some(SchemaOf(inspections, datasets[i].files[0].path))
  {
    var c := ScanContext(root, inspections, digest);
    var d := datasets[i];
    assert Inferred(c, paths, d);
    var anchor :| Belongs(c, paths, d, anchor);
    BuiltTells(c, d.id, PathsOf(d), d.grouping);
    assert PathsOf(d)[f] == d.files[f].path;
    assert (Components(root) + below)[|Components(root)|..] == below;
  }
}
