/** Which current versions keep the program's own files out of the inventory. */
module InventoryExclusion {
  import opened Common
  import opened Text
  import opened Locations
  import opened Inventory
  import Paths

  // ---------------------------------------------------------------- segments

  lemma {:induction false} SplitConcat(a: string, b: string)
    ensures Paths.Split(a + "/" + b, '/') == Paths.Split(a, '/') + Paths.Split(b, '/')
  {
    var s := a + "/" + b;
    if a == "" {
      assert s[0] == '/' && s[1..] == b;
    } else {
      SplitConcat(a[1..], b);
      assert s[0] == a[0] && s[1..] == a[1..] + "/" + b;
    }
  }

  lemma BadOnTheLeft(x: seq<string>, y: seq<string>, i: nat)
    requires i < |x| && BadSegment(x[i])
    ensures exists k :: 0 <= k < |x + y| && BadSegment((x + y)[k])
  {
    assert (x + y)[i] == x[i];
  }

  lemma BadOnTheRight(x: seq<string>, y: seq<string>, i: nat)
    requires i < |y| && BadSegment(y[i])
    ensures exists k :: 0 <= k < |x + y| && BadSegment((x + y)[k])
  {
    assert (x + y)[|x| + i] == y[i];
  }

  /** A key has a bad segment exactly when one of the two parts around a slash has. */
  lemma BadSegments(a: string, b: string)
    ensures HasBadSegment(a + "/" + b) <==> HasBadSegment(a) || HasBadSegment(b)
  {
    var x, y := Paths.Split(a, '/'), Paths.Split(b, '/');
    SplitConcat(a, b);
    if i :| 0 <= i < |x| && BadSegment(x[i]) { BadOnTheLeft(x, y, i); }
    if i :| 0 <= i < |y| && BadSegment(y[i]) { BadOnTheRight(x, y, i); }
  }

  lemma {:induction false} TrimKeepsSegments(key: string)
    ensures HasBadSegment(TrimStart(key)) <==> HasBadSegment(key)
  {
    if key != "" && key[0] == '/' {
      TrimKeepsSegments(key[1..]);
      BadSegments("", key[1..]);
      assert key == "" + "/" + key[1..];
    }
  }

  lemma {:induction false} TrimKeepsEnd(key: string)
    requires EndsWith(key, PARQUET)
    ensures EndsWith(TrimStart(key), PARQUET)
  {
    if key[0] == '/' {
      assert key != PARQUET by { assert PARQUET[0] == '.'; }
      assert |key| > |PARQUET|;
      assert key[1..][|key|-1-|PARQUET|..] == key[|key|-|PARQUET|..];
      TrimKeepsEnd(key[1..]);
    }
  }

  /** A Parquet file is excluded only for a segment of its key. */
  lemma ExcludedParquet(key: string)
    requires EndsWith(key, PARQUET)
    ensures Excluded(key) <==> HasBadSegment(key)
  {
    var k := TrimStart(key);
    TrimKeepsEnd(key);
    TrimKeepsSegments(key);
    assert PARQUET[|PARQUET|-1] == 't';
  }

  // ---------------------------------------------------------------- the key of published data

  lemma {:induction false} AfterSlashExtends(r: string, x: string)
    requires AfterSlash(r).Some?
    ensures AfterSlash(r + x) == Some(AfterSlash(r).value + x)
  {
    if r[0] == '/' {
      assert (r + x)[1..] == r[1..] + x;
    } else {
      AfterSlashExtends(r[1..], x);
      assert (r + x)[1..] == r[1..] + x;
    }
  }

  lemma DropPrefixExtends(t: string, data: string, x: string)
    requires |data| <= |t|
    ensures DropPrefix(t + x, data) == match DropPrefix(t, data) { case None => None case Some(u) => Some(u + x) }
  {
    assert (t + x)[..|data|] == t[..|data|];
    if StartsWith(t, data) { assert (t + x)[|data|..] == t[|data|..] + x; }
  }

  /** What the key of a version's data directory reads as, once its first component is taken as the version. */
  function DataPath(version: string): Option<string> {
    AfterVersion(version + "/" + DATA, DATA)
  }

  /** After the first slash of `version/data/` comes the rest of the version, if it has any, and the data directory. */
  lemma {:induction false} AfterVersionSlash(version: string, data: string)
    ensures AfterSlash(version + "/" + data) ==
            match AfterSlash(version) { case None => Some(data) case Some(w) => Some(w + "/" + data) }
  {
    var s := version + "/" + data;
    if version == "" {
      assert s[0] == '/' && s[1..] == data;
    } else {
      assert s[0] == version[0] && s[1..] == version[1..] + "/" + data;
      AfterVersionSlash(version[1..], data);
    }
  }

  lemma PublishedKey(version: string, logical: string)
    ensures StripPublished(DataPrefix(version) + logical) ==
            match DataPath(version) { case None => None case Some(u) => Some(u + logical) }
  {
    var r := version + "/" + DATA;
    assert DataPrefix(version) + logical == VERSIONS + (r + logical);
    AfterVersionSlash(version, DATA);
    AfterSlashExtends(r, logical);
    DropPrefixExtends(AfterSlash(r).value, DATA, logical);
  }

  lemma DataPathEnds(version: string)
    requires DataPath(version).Some?
    ensures DataPath(version).value == "" || DataPath(version).value[|DataPath(version).value|-1] == '/'
  {
    AfterVersionSlash(version, DATA);
    var t := AfterSlash(version + "/" + DATA).value;
    var u := DataPath(version).value;
    assert t[|t|-1] == '/' by { assert DATA[|DATA|-1] == '/'; }
    if u != "" { assert u[|u|-1] == t[|t|-1]; }
  }

  lemma BadInPath(u: string, logical: string)
    requires u == "" || u[|u|-1] == '/'
    ensures HasBadSegment(u + logical) <==> HasBadSegment(u) || HasBadSegment(logical)
  {
    if u == "" {
      assert u + logical == logical;
    } else {
      var w := u[..|u|-1];
      assert u == w + "/" + "";
      assert u + logical == w + "/" + logical;
      BadSegments(w, logical);
      BadSegments(w, "");
    }
  }

  // ---------------------------------------------------------------- clean versions

  /**
   The data of the version is found under its own name: its first path component is followed by the data
   directory, with none of the program's own names on the way.
   */
  predicate CleanVersion(version: string) {
    DataPath(version).Some? && !HasBadSegment(DataPath(version).value)
  }

  /** A version id that is a single path component is clean. */
  lemma SingleComponentIsClean(version: string)
    requires '/' !in version
    ensures CleanVersion(version)
  {
    AfterVersionSlash(version, DATA);
    NoSlash(version);
    assert DataPath(version).value == "";
  }

  lemma {:induction false} NoSlash(s: string)
    requires '/' !in s
    ensures AfterSlash(s).None?
  {
    if s != "" { NoSlash(s[1..]); }
  }

  /** The fallback finds nothing that is not in the inventory already. */
  lemma CleanFallbackIsCovered(dataset: DatasetLocation, version: string, o: ObjectMetadata)
    requires CleanVersion(version) && Published(dataset, Some(version), o)
    ensures Keep(dataset, o) && ParquetKey(dataset, o)
  {
    var key := RelativeObjectKey(dataset, o.location).value;
    var prefix := DataPrefix(version);
    var logical := key[|prefix|..];
    assert key == prefix + logical;
    PublishedKey(version, logical);
    var u := DataPath(version).value;
    DataPathEnds(version);
    BadInPath(u, logical);
    ExcludedParquet(logical);
    EndExtends(u, logical, PARQUET);
    ExcludedParquet(u + logical);
    assert LogicalKey(dataset, o.location) == Some(u + logical);
  }

  ghost predicate HoldsExcluded(dataset: DatasetLocation, version: string, raw: seq<ObjectMetadata>,
                                o: ObjectMetadata)
  {
    Listed(InventoryView(dataset, Some(version)), raw, o) && !Keep(dataset, o)
  }

  /** Where an object with the given relative key lies. */
  function Place(dataset: DatasetLocation, key: string): ObjectLocation
    requires dataset.S3?
  {
    var p := TrimEnd(dataset.prefix);
    S3Object(dataset.bucket, if p == "" then key else p + "/" + key)
  }

  lemma NameIsPublished(version: string, name: string)
    requires EndsWith(name, PARQUET) && !HasBadSegment(name)
    ensures PublishedData(DataPrefix(version) + name, DataPrefix(version))
  {
    assert (DataPrefix(version) + name)[|DataPrefix(version)|..] == name;
    ExcludedParquet(name);
  }

  lemma EndExtends(u: string, name: string, end: string)
    requires EndsWith(name, end)
    ensures EndsWith(u + name, end)
  {
    assert (u + name)[|u + name| - |end|..] == name[|name| - |end|..];
  }

  lemma OwnDirectoryIsExcluded(tail: string)
    requires EndsWith(tail, PARQUET)
    ensures Excluded(".parqonaut" + "/" + tail)
  {
    Paths.SplitOne(".parqonaut", '/');
    assert BadSegment(Paths.Split(".parqonaut", '/')[0]);
    BadSegments(".parqonaut", tail);
    EndExtends(".parqonaut" + "/", tail, PARQUET);
    ExcludedParquet(".parqonaut" + "/" + tail);
  }

  lemma BadPathIsExcluded(u: string, name: string)
    requires EndsWith(name, PARQUET) && HasBadSegment(u) && (u == "" || u[|u|-1] == '/')
    ensures Excluded(u + name)
  {
    BadInPath(u, name);
    EndExtends(u, name, PARQUET);
    ExcludedParquet(u + name);
  }

  lemma OwnTail(version: string, name: string) returns (tail: string)
    requires EndsWith(name, PARQUET)
    ensures EndsWith(tail, PARQUET) && DataPrefix(version) + name == ".parqonaut" + "/" + tail
  {
    var rest := "versions/" + version + "/" + DATA;
    EndExtends(rest, name, PARQUET);
    tail := rest + name;
    assert VERSIONS == ".parqonaut" + "/" + "versions/";
  }

  /** The logical key of a file of an unclean version has a segment that excludes it. */
  lemma UncleanKey(version: string, name: string)
    requires !CleanVersion(version) && EndsWith(name, PARQUET)
    ensures Excluded(StripPublished(DataPrefix(version) + name).GetOr(DataPrefix(version) + name))
  {
    PublishedKey(version, name);
    if DataPath(version).Some? {
      DataPathEnds(version);
      BadPathIsExcluded(DataPath(version).value, name);
    } else {
      var tail := OwnTail(version, name);
      OwnDirectoryIsExcluded(tail);
    }
  }

  /** A one-segment name that is published under any version. */
  lemma PlainName() returns (name: string)
    ensures EndsWith(name, PARQUET) && !HasBadSegment(name)
  {
    name := "x" + PARQUET;
    Paths.SplitOne(name, '/');
    assert name[0] == 'x' && !BadSegment(name);
  }

  lemma UncleanVersionLeaks(dataset: DatasetLocation, version: string) returns (o: ObjectMetadata)
    requires dataset.S3? && !CleanVersion(version)
    ensures HoldsExcluded(dataset, version, [o], o)
  {
    var name := PlainName();
    NameIsPublished(version, name);
    UncleanKey(version, name);
    o := ObjectMetadata(Place(dataset, DataPrefix(version) + name), 0, "");
    assert (DataPrefix(version) + name)[0] == VERSIONS[0] == '.';
    PublishedButExcluded(dataset, version, DataPrefix(version) + name, o);
  }

  lemma PublishedButExcluded(dataset: DatasetLocation, version: string, key: string, o: ObjectMetadata)
    requires dataset.S3? && RelativeObjectKey(dataset, o.location) == Some(key)
    requires PublishedData(key, DataPrefix(version)) && Excluded(StripPublished(key).GetOr(key))
    ensures HoldsExcluded(dataset, version, [o], o)
  {
    assert LogicalKey(dataset, o.location) == Some(StripPublished(key).GetOr(key));
    assert !Keep(dataset, o) && Published(dataset, Some(version), o);
    assert !HasParquet(InventoryView(dataset, Some(version)), [o]);
  }

  /**
   Every entry of every inventory has a logical key that is not excluded exactly when the current
   version is clean.
   */
  lemma NothingExcludedIffClean(dataset: DatasetLocation, version: string)
    requires dataset.S3?
    ensures CleanVersion(version) <==> forall raw, o :: !HoldsExcluded(dataset, version, raw, o)
  {
    if CleanVersion(version) {
      forall raw, o ensures !HoldsExcluded(dataset, version, raw, o) {
        if Published(dataset, Some(version), o) { CleanFallbackIsCovered(dataset, version, o); }
      }
    } else {
      var o := UncleanVersionLeaks(dataset, version);
      assert HoldsExcluded(dataset, version, [o], o);
    }
  }

  /** Without a current version, and for a local dataset, only kept objects are listed. */
  lemma NothingExcludedWithoutVersion(dataset: DatasetLocation, committed: Option<string>, raw: seq<ObjectMetadata>,
                                      o: ObjectMetadata)
    requires committed.None? || dataset.Local?
    requires Listed(InventoryView(dataset, committed), raw, o)
    ensures Keep(dataset, o)
  {
  }

  // ---------------------------------------------------------------- what is listed

  /** An object is in the inventory exactly when it is listed, if a location has one metadata. */
  lemma InInventoryIff(dataset: DatasetLocation, committed: Option<string>, raw: seq<ObjectMetadata>,
                       objects: seq<ObjectMetadata>, o: ObjectMetadata)
    requires OneMetadata(raw) && IsInventory(InventoryView(dataset, committed), raw, objects)
    ensures o in objects <==> Listed(InventoryView(dataset, committed), raw, o)
  {
    ListedBySortKey(dataset, committed, raw);
    InventoryIsCanonical(InventoryView(dataset, committed), raw, raw, objects, objects);
  }

  /** Nothing that lies outside the dataset is in its inventory. */
  lemma OutsideNeverListed(dataset: DatasetLocation, committed: Option<string>, raw: seq<ObjectMetadata>,
                           objects: seq<ObjectMetadata>, o: ObjectMetadata)
    requires IsInventory(InventoryView(dataset, committed), raw, objects) && o in objects
    ensures Under(dataset, o.location)
  {
    assert Listed(InventoryView(dataset, committed), raw, o);
  }

  lemma KeyBelow(dataset: DatasetLocation, o: ObjectMetadata, rel: string)
    requires dataset.S3? && TrimEnd(dataset.prefix) != ""
    requires o.location == S3Object(dataset.bucket, TrimEnd(dataset.prefix) + "/" + rel)
    ensures RelativeObjectKey(dataset, o.location) == Some(rel)
  {
    var p := TrimEnd(dataset.prefix);
    assert (p + "/" + rel)[|p| + 1..] == rel && p + "/" <= p + "/" + rel;
  }

  /** Outside the directory of versions the inventory holds exactly the objects whose own key is not excluded. */
  lemma OrdinaryObjectListed(dataset: DatasetLocation, committed: Option<string>, raw: seq<ObjectMetadata>,
                             objects: seq<ObjectMetadata>, o: ObjectMetadata, rel: string)
    requires dataset.S3? && TrimEnd(dataset.prefix) != ""
    requires o.location == S3Object(dataset.bucket, TrimEnd(dataset.prefix) + "/" + rel)
    requires !StartsWith(rel, ".parqonaut/versions/")
    requires OneMetadata(raw) && IsInventory(InventoryView(dataset, committed), raw, objects)
    ensures o in objects <==> o in raw && !Excluded(rel)
  {
    KeyBelow(dataset, o, rel);
    InInventoryIff(dataset, committed, raw, objects, o);
    if committed.Some? {
      assert VERSIONS <= DataPrefix(committed.value);
      assert !StartsWith(rel, DataPrefix(committed.value));
    }
  }

  /** Of the data of a version it holds exactly the objects whose name under the data directory is not excluded. */
  lemma VersionedObjectListed(dataset: DatasetLocation, committed: Option<string>, raw: seq<ObjectMetadata>,
                              objects: seq<ObjectMetadata>, o: ObjectMetadata, version: string, name: string,
                              rel: string)
    requires dataset.S3? && TrimEnd(dataset.prefix) != ""
    requires rel == ".parqonaut/versions/" + version + "/data/" + name && '/' !in version
    requires o.location == S3Object(dataset.bucket, TrimEnd(dataset.prefix) + "/" + rel)
    requires committed.Some? ==> CleanVersion(committed.value)
    requires OneMetadata(raw) && IsInventory(InventoryView(dataset, committed), raw, objects)
    ensures o in objects <==> o in raw && !Excluded(name)
  {
    KeyBelow(dataset, o, rel);
    InInventoryIff(dataset, committed, raw, objects, o);
    assert rel == DataPrefix(version) + name;
    PublishedKey(version, name);
    AfterVersionSlash(version, DATA);
    NoSlash(version);
    assert DataPath(version) == Some("") && "" + name == name;
    assert Keep(dataset, o) <==> !Excluded(name);
    if committed.Some? && Published(dataset, committed, o) { CleanFallbackIsCovered(dataset, committed.value, o); }
  }
}
