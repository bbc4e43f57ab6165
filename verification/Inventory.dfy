/**
 The inventory of a dataset: the objects of all list pages, without the program's own files, sorted
 and free of repetitions.
 */
module Inventory {
  import opened Common
  import opened Text
  import opened Sorting
  import opened Locations
  import Paths

  datatype ObjectMetadata = ObjectMetadata(location: ObjectLocation, size: nat, etag: string)

  // ---------------------------------------------------------------- merging, sorting, deduplicating

  /** What the inventory looks at in an object. */
  datatype View = View(
    key: ObjectMetadata -> string,
    keep: ObjectMetadata -> bool,
    parquet: ObjectMetadata -> bool,
    published: ObjectMetadata -> bool)

  function Flat(pages: seq<seq<ObjectMetadata>>, n: nat): seq<ObjectMetadata>
    requires n <= |pages|
  {
    if n == 0 then [] else Flat(pages, n - 1) + pages[n-1]
  }

  ghost predicate HasParquet(v: View, raw: seq<ObjectMetadata>) {
    exists o :: o in raw && v.keep(o) && v.parquet(o)
  }

  /** Objects kept for their own key, and those of the committed version when no Parquet file is kept. */
  ghost predicate Listed(v: View, raw: seq<ObjectMetadata>, o: ObjectMetadata) {
    o in raw && (v.keep(o) || (!HasParquet(v, raw) && v.published(o)))
  }

  ghost predicate Increasing(s: seq<ObjectMetadata>, key: ObjectMetadata -> string) {
    forall i, j :: 0 <= i < j < |s| ==> Less(key(s[i]), key(s[j]))
  }

  ghost predicate HasKey(s: seq<ObjectMetadata>, key: ObjectMetadata -> string, k: string) {
    exists i :: 0 <= i < |s| && key(s[i]) == k
  }

  /** An inventory of `raw`: strictly increasing, only listed objects, and each listed key. */
  ghost predicate IsInventory(v: View, raw: seq<ObjectMetadata>, objects: seq<ObjectMetadata>) {
    && Increasing(objects, v.key)
    && (forall o :: o in objects ==> Listed(v, raw, o))
    && (forall o :: Listed(v, raw, o) ==> HasKey(objects, v.key, v.key(o)))
  }

  function KeyOrder(key: ObjectMetadata -> string): (ObjectMetadata, ObjectMetadata) -> bool {
    (a, b) => AtMost(key(a), key(b))
  }

  lemma KeyOrderIsTotal(key: ObjectMetadata -> string)
    ensures TotalPreorder(KeyOrder(key))
  {
    AtMostIsOrder();
  }

  method Retain(objects: seq<ObjectMetadata>, test: ObjectMetadata -> bool) returns (kept: seq<ObjectMetadata>)
    ensures forall o :: o in kept <==> o in objects && test(o)
  {
    kept := [];
    for i := 0 to |objects|
      invariant forall o :: o in kept <==> o in objects[..i] && test(o)
    {
      assert objects[..i+1] == objects[..i] + [objects[i]];
      if test(objects[i]) { kept := kept + [objects[i]]; }
    }
    assert objects[..|objects|] == objects;
  }

  /** Drop each object whose key is that of the object before it. */
  method Dedup(s: seq<ObjectMetadata>, key: ObjectMetadata -> string) returns (r: seq<ObjectMetadata>)
    requires SortedBy(s, KeyOrder(key))
    ensures Increasing(r, key)
    ensures forall o :: o in r ==> o in s
    ensures forall i :: 0 <= i < |s| ==> HasKey(r, key, key(s[i]))
  {
    r := [];
    for i := 0 to |s|
      invariant Increasing(r, key) && forall o :: o in r ==> o in s
      invariant forall j :: 0 <= j < i ==> HasKey(r, key, key(s[j]))
      invariant if i == 0 then r == [] else r != [] && key(r[|r|-1]) == key(s[i-1])
    {
      if r != [] && key(r[|r|-1]) == key(s[i]) {
        assert HasKey(r, key, key(s[i]));
      } else {
        ghost var was := r;
        r := r + [s[i]];
        DedupStep(was, s, key, i);
        assert forall k :: HasKey(was, key, k) ==> HasKey(r, key, k) by { KeysStay(was, s[i], key); }
        assert r[|r|-1] == s[i];
      }
    }
  }

  lemma KeysStay(s: seq<ObjectMetadata>, o: ObjectMetadata, key: ObjectMetadata -> string)
    ensures forall k :: HasKey(s, key, k) ==> HasKey(s + [o], key, k)
  {
    forall k | HasKey(s, key, k) ensures HasKey(s + [o], key, k) {
      var i :| 0 <= i < |s| && key(s[i]) == k;
      assert (s + [o])[i] == s[i];
    }
  }

  lemma DedupStep(r: seq<ObjectMetadata>, s: seq<ObjectMetadata>, key: ObjectMetadata -> string, i: nat)
    requires SortedBy(s, KeyOrder(key)) && Increasing(r, key) && i < |s|
    requires i == 0 ==> r == []
    requires i > 0 ==> r != [] && key(r[|r|-1]) == key(s[i-1]) && key(r[|r|-1]) != key(s[i])
    ensures Increasing(r + [s[i]], key)
  {
    if i > 0 {
      assert KeyOrder(key)(s[i-1], s[i]);
      forall j | 0 <= j < |r| ensures Less(key(r[j]), key(s[i])) {
        if j < |r| - 1 { LessTransitive(key(r[j]), key(r[|r|-1]), key(s[i])); }
      }
    }
  }

  method MergePages(pages: seq<seq<ObjectMetadata>>) returns (objects: seq<ObjectMetadata>)
    ensures objects == Flat(pages, |pages|)
  {
    objects := [];
    for i := 0 to |pages|
      invariant objects == Flat(pages, i)
    {
      objects := objects + pages[i];
    }
  }

  /** Merge the pages, retain, fall back on published data, sort, deduplicate. */
  method BuildInventory(v: View, pages: seq<seq<ObjectMetadata>>) returns (objects: seq<ObjectMetadata>)
    ensures IsInventory(v, Flat(pages, |pages|), objects)
  {
    var raw := MergePages(pages);
    objects := Retain(raw, v.keep);
    var hasParquet := exists o :: o in objects && v.parquet(o);
    assert hasParquet <==> HasParquet(v, raw);
    if !hasParquet {
      var published := Retain(raw, v.published);
      objects := objects + published;
    }
    assert forall o :: o in objects <==> Listed(v, raw, o);
    KeyOrderIsTotal(v.key);
    SortBySorts(objects, KeyOrder(v.key));
    var sorted := SortBy(objects, KeyOrder(v.key));
    SameElements(sorted, objects);
    ghost var listed := objects;
    objects := Dedup(sorted, v.key);
    forall o | Listed(v, raw, o) ensures HasKey(objects, v.key, v.key(o)) {
      assert o in sorted;
      var i :| 0 <= i < |sorted| && sorted[i] == o;
    }
  }

  // ---------------------------------------------------------------- canonicity

  /** Equal keys mean equal metadata. */
  ghost predicate Functional(v: View, raw: seq<ObjectMetadata>) {
    forall o, p :: Listed(v, raw, o) && Listed(v, raw, p) && v.key(o) == v.key(p) ==> o == p
  }

  ghost predicate SameObjects(a: seq<ObjectMetadata>, b: seq<ObjectMetadata>) {
    forall o :: o in a <==> o in b
  }

  lemma {:induction false} IncreasingIsUnique(s: seq<ObjectMetadata>, t: seq<ObjectMetadata>,
                                              key: ObjectMetadata -> string)
    requires Increasing(s, key) && Increasing(t, key) && SameObjects(s, t)
    ensures s == t
  {
    if s != [] { NonEmptyTogether(s, t); }
    if t != [] { NonEmptyTogether(t, s); }
    if s != [] {
      assert s[0] in t;
      var i :| 0 <= i < |t| && t[i] == s[0];
      assert t[0] in s;
      var j :| 0 <= j < |s| && s[j] == t[0];
      FirstIsFirst(s, t, key, i, j);
      forall o ensures o in s[1..] <==> o in t[1..] {
        TailObjects(s, key, o);
        TailObjects(t, key, o);
      }
      IncreasingIsUnique(s[1..], t[1..], key);
      assert s == [s[0]] + s[1..] && t == [t[0]] + t[1..];
    }
  }

  lemma NonEmptyTogether(s: seq<ObjectMetadata>, t: seq<ObjectMetadata>)
    requires SameObjects(s, t) && s != []
    ensures t != []
  {
    assert s[0] in t;
  }

  lemma FirstIsFirst(s: seq<ObjectMetadata>, t: seq<ObjectMetadata>, key: ObjectMetadata -> string, i: nat, j: nat)
    requires Increasing(s, key) && Increasing(t, key) && i < |t| && j < |s| && t[i] == s[0] && s[j] == t[0]
    ensures s[0] == t[0]
  {
    if i > 0 && j > 0 { LessAsymmetric(key(s[0]), key(s[j])); }
  }

  lemma TailObjects(s: seq<ObjectMetadata>, key: ObjectMetadata -> string, o: ObjectMetadata)
    requires Increasing(s, key) && s != []
    ensures o in s[1..] <==> o in s && o != s[0]
  {
    if o in s[1..] {
      var i :| 0 <= i < |s| - 1 && s[1..][i] == o;
      LessIrreflexive(key(o));
      assert Less(key(s[0]), key(s[i+1]));
    }
    if o in s && o != s[0] {
      var i :| 0 <= i < |s| && s[i] == o;
      assert s[1..][i-1] == o;
    }
  }

  /**
   The same objects, split into pages, ordered and repeated in any way, give the same inventory: one
   entry for each listed object.
   */
  lemma InventoryIsCanonical(v: View, a: seq<ObjectMetadata>, b: seq<ObjectMetadata>, s: seq<ObjectMetadata>,
                             t: seq<ObjectMetadata>)
    requires SameObjects(a, b) && Functional(v, a)
    requires IsInventory(v, a, s) && IsInventory(v, b, t)
    ensures s == t
    ensures forall o :: o in s <==> Listed(v, a, o)
  {
    assert HasParquet(v, a) <==> HasParquet(v, b);
    assert forall o :: Listed(v, a, o) <==> Listed(v, b, o);
    forall o ensures (o in s <==> Listed(v, a, o)) && (o in t <==> Listed(v, a, o)) {
    }
    IncreasingIsUnique(s, t, v.key);
  }

  // ---------------------------------------------------------------- keys

  const VERSIONS := ".parqonaut/versions/"
  const DATA := "data/"
  const PARQUET := ".parquet"

  /** What follows the first slash. */
  function AfterSlash(s: string): Option<string> {
    if s == "" then None else if s[0] == '/' then Some(s[1..]) else AfterSlash(s[1..])
  }

  function DropPrefix(s: string, prefix: string): Option<string> {
    if StartsWith(s, prefix) then Some(s[|prefix|..]) else None
  }

  /** What follows the version id and the data directory. */
  function AfterVersion(rest: string, data: string): Option<string> {
    match AfterSlash(rest)
    case None => None
    case Some(t) => DropPrefix(t, data)
  }

  function StripPublished(key: string): Option<string> {
    if StartsWith(key, VERSIONS) then AfterVersion(key[|VERSIONS|..], DATA) else None
  }

  function LogicalKey(dataset: DatasetLocation, location: ObjectLocation): Option<string> {
    match RelativeObjectKey(dataset, location)
    case None => None
    case Some(key) => Some(StripPublished(key).GetOr(key))
  }

  predicate BadSegment(segment: string) {
    segment == ".parqonaut" || segment == "_staging" || StartsWith(segment, ".parqonaut-staging-")
  }

  predicate HasBadSegment(key: string) {
    exists i :: 0 <= i < |Paths.Split(key, '/')| && BadSegment(Paths.Split(key, '/')[i])
  }

  /** The program's own metadata and staging. */
  predicate Excluded(key: string) {
    var k := TrimStart(key);
    k == "" || EndsWith(k, ".parqonaut.lock") || EndsWith(k, ".parqonaut-manifest.json") || HasBadSegment(k)
  }

  /** A segment that belongs to the program: its directory, its staging, or a numbered staging directory. */
  ghost predicate OwnSegment(segment: string) {
    segment == ".parqonaut" || segment == "_staging" || exists rest :: segment == ".parqonaut-staging-" + rest
  }

  ghost predicate EndsIn(key: string, tail: string) {
    exists head :: key == head + tail
  }

  lemma EndsInIff(key: string, tail: string)
    ensures EndsIn(key, tail) <==> EndsWith(key, tail)
  {
    if EndsWith(key, tail) { assert key == key[..|key|-|tail|] + tail; }
  }

  lemma OwnSegmentIff(segment: string)
    ensures OwnSegment(segment) <==> BadSegment(segment)
  {
    if StartsWith(segment, ".parqonaut-staging-") {
      assert segment == ".parqonaut-staging-" + segment[|".parqonaut-staging-"|..];
    }
    if rest :| segment == ".parqonaut-staging-" + rest { assert StartsWith(segment, ".parqonaut-staging-"); }
  }

  ghost predicate HasOwnSegment(key: string) {
    exists i :: 0 <= i < |Paths.Split(key, '/')| && OwnSegment(Paths.Split(key, '/')[i])
  }

  lemma HasOwnIff(key: string)
    ensures HasOwnSegment(key) <==> HasBadSegment(key)
  {
    var parts := Paths.Split(key, '/');
    forall i | 0 <= i < |parts| ensures OwnSegment(parts[i]) <==> BadSegment(parts[i]) { OwnSegmentIff(parts[i]); }
  }

  lemma SlashDropped(key: string)
    requires key != "" && key[0] == '/'
    ensures HasOwnSegment(key) <==> HasOwnSegment(key[1..])
  {
    var a, b := Paths.Split(key, '/'), Paths.Split(key[1..], '/');
    assert a == [""] + b;
    if i :| 0 <= i < |b| && OwnSegment(b[i]) { assert a[i+1] == b[i]; }
    if i :| 0 <= i < |a| && OwnSegment(a[i]) { assert i > 0 && b[i-1] == a[i]; }
  }

  lemma {:induction false} SegmentsOfTrimmed(key: string)
    ensures HasOwnSegment(TrimStart(key)) <==> HasOwnSegment(key)
  {
    if key != "" && key[0] == '/' {
      SlashDropped(key);
      SegmentsOfTrimmed(key[1..]);
    }
  }

  lemma {:induction false} OnlySlashes(key: string)
    ensures TrimStart(key) == "" <==> forall i :: 0 <= i < |key| ==> key[i] == '/'
  {
    if key != "" && key[0] == '/' { OnlySlashes(key[1..]); }
  }

  lemma {:induction false} EndOfTrimmed(key: string, tail: string)
    requires tail != "" && tail[0] != '/'
    ensures EndsWith(TrimStart(key), tail) <==> EndsIn(key, tail)
  {
    EndsInIff(key, tail);
    if key != "" && key[0] == '/' {
      EndOfTrimmed(key[1..], tail);
      EndsInIff(key[1..], tail);
      if EndsWith(key, tail) { assert |tail| < |key|; }
      if |tail| < |key| { assert key[|key|-|tail|..] == key[1..][|key|-1-|tail|..]; }
    }
  }

  /**
   A key is excluded exactly when it is nothing but slashes, ends as a lock or a manifest of the program does,
   or has a segment that belongs to the program, leading slashes or not.
   */
  lemma ExcludedIff(key: string)
    ensures Excluded(key) <==>
            || (forall i :: 0 <= i < |key| ==> key[i] == '/')
            || EndsIn(key, ".parqonaut.lock") || EndsIn(key, ".parqonaut-manifest.json")
            || HasOwnSegment(key)
  {
    var k := TrimStart(key);
    SegmentsOfTrimmed(key);
    HasOwnIff(k);
    OnlySlashes(key);
    EndOfTrimmed(key, ".parqonaut.lock");
    EndOfTrimmed(key, ".parqonaut-manifest.json");
  }

  function SortKey(location: ObjectLocation): string {
    match location
    case LocalObject(path) => path
    case S3Object(_, key) => key
  }

  predicate Keep(dataset: DatasetLocation, o: ObjectMetadata) {
    LogicalKey(dataset, o.location).Some? && !Excluded(LogicalKey(dataset, o.location).value)
  }

  predicate ParquetKey(dataset: DatasetLocation, o: ObjectMetadata) {
    LogicalKey(dataset, o.location).Some? && EndsWith(LogicalKey(dataset, o.location).value, PARQUET)
  }

  /** Data of version `id` as its name under the data directory reads. */
  predicate PublishedData(key: string, prefix: string) {
    StartsWith(key, prefix) && !Excluded(key[|prefix|..]) && EndsWith(key[|prefix|..], PARQUET)
  }

  function DataPrefix(version: string): string {
    VERSIONS + version + "/" + DATA
  }

  predicate Published(dataset: DatasetLocation, committed: Option<string>, o: ObjectMetadata) {
    && dataset.S3? && committed.Some?
    && RelativeObjectKey(dataset, o.location).Some?
    && PublishedData(RelativeObjectKey(dataset, o.location).value, DataPrefix(committed.value))
  }

  /** `committed` is the current version, if one is recorded, readable and committed. */
  function InventoryView(dataset: DatasetLocation, committed: Option<string>): View {
    View(
      (o: ObjectMetadata) => SortKey(o.location),
      o => Keep(dataset, o),
      o => ParquetKey(dataset, o),
      o => Published(dataset, committed, o))
  }

  /** `list_remote_inventory` over the pages the backend returned. */
  method ListRemoteInventory(dataset: DatasetLocation, pages: seq<seq<ObjectMetadata>>, committed: Option<string>)
    returns (objects: seq<ObjectMetadata>)
    ensures IsInventory(InventoryView(dataset, committed), Flat(pages, |pages|), objects)
  {
    objects := BuildInventory(InventoryView(dataset, committed), pages);
  }

  /** What the backend reports about a location is the same wherever it appears. */
  ghost predicate OneMetadata(raw: seq<ObjectMetadata>) {
    forall o, p :: o in raw && SameLocation(raw, o, p) ==> o == p
  }

  predicate SameLocation(raw: seq<ObjectMetadata>, o: ObjectMetadata, p: ObjectMetadata) {
    p in raw && o.location == p.location
  }

  /** Objects that can be listed are told apart by their sort key. */
  lemma ListedBySortKey(dataset: DatasetLocation, committed: Option<string>, raw: seq<ObjectMetadata>)
    ensures OneMetadata(raw) ==> Functional(InventoryView(dataset, committed), raw)
  {
    var v := InventoryView(dataset, committed);
    forall o, p | OneMetadata(raw) && Listed(v, raw, o) && Listed(v, raw, p) && v.key(o) == v.key(p) ensures o == p {
      assert RelativeObjectKey(dataset, o.location).Some? && RelativeObjectKey(dataset, p.location).Some?;
      assert SameLocation(raw, o, p);
    }
  }

  /**
   Two listings of one dataset that return the same objects `x` and `y`, however split into pages, ordered
   and repeated, have the same inventory.
   */
  lemma PagesDoNotMatter(dataset: DatasetLocation, committed: Option<string>, a: seq<seq<ObjectMetadata>>,
                         b: seq<seq<ObjectMetadata>>, x: seq<ObjectMetadata>, y: seq<ObjectMetadata>,
                         s: seq<ObjectMetadata>, t: seq<ObjectMetadata>)
    requires x == Flat(a, |a|) && y == Flat(b, |b|)
    requires OneMetadata(x) && SameObjects(x, y)
    requires IsInventory(InventoryView(dataset, committed), x, s)
    requires IsInventory(InventoryView(dataset, committed), y, t)
    ensures s == t
  {
    ListedBySortKey(dataset, committed, x);
    InventoryIsCanonical(InventoryView(dataset, committed), x, y, s, t);
  }
}
