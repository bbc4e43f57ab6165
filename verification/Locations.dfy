/** Dataset and object locations, and which objects lie under a dataset. */
module Locations {
  import opened Common
  import opened Text
  import opened Paths

  datatype DatasetLocation = Local(path: string) | S3(bucket: string, prefix: string)
  datatype ObjectLocation = LocalObject(path: string) | S3Object(bucket: string, key: string)

  function TrimStart(s: string): string {
    if s != "" && s[0] == '/' then TrimStart(s[1..]) else s
  }

  function TrimEnd(s: string): string {
    if s != "" && s[|s|-1] == '/' then TrimEnd(s[..|s|-1]) else s
  }

  /** The key of an object relative to a dataset, or nothing when it does not lie under it. */
  function RelativeObjectKey(dataset: DatasetLocation, obj: ObjectLocation): Option<string> {
    match (dataset, obj)
    case (Local(root), LocalObject(path)) =>
      if Components(root) <= Components(path)
      then Some(TrimStart(ShowPath(Components(path)[|Components(root)|..]))) else None
    case (S3(bucket, prefix), S3Object(b, key)) =>
      if bucket != b then None
      else
        var p := TrimEnd(prefix);
        if p == "" then Some(TrimStart(key))
        else if key == p then Some("")
        else if StartsWith(key, p + "/") then Some(key[|p| + 1..])
        else None
    case _ => None
  }

  predicate Under(dataset: DatasetLocation, obj: ObjectLocation) {
    RelativeObjectKey(dataset, obj).Some?
  }

  // ---------------------------------------------------------------- trimming

  lemma {:induction false} TrimEndIsPrefix(s: string)
    ensures TrimEnd(s) <= s
    ensures TrimEnd(s) != "" ==> TrimEnd(s)[|TrimEnd(s)|-1] != '/'
  {
    if s != "" && s[|s|-1] == '/' { TrimEndIsPrefix(s[..|s|-1]); }
  }

  /** A text that goes on after `a` drops the same leading slashes. */
  lemma {:induction false} TrimStartOfLonger(a: string, b: string)
    requires a <= b && a != "" && a[|a|-1] != '/'
    ensures TrimStart(a) != "" && TrimStart(a) <= TrimStart(b)
  {
    if a[0] == '/' {
      assert a[1..] <= b[1..];
      TrimStartOfLonger(a[1..], b[1..]);
    }
  }

  // ---------------------------------------------------------------- local keys

  /** Only the first component of a path can be a marker. */
  lemma SuffixIsInner(path: string, n: nat)
    requires 0 < n <= |Components(path)|
    ensures AllInner(Components(path)[n..])
  {
    ComponentsShape(path);
  }

  /** What a trimmed spelling leaves out: the root of an absolute path. */
  function Marker(path: Key): Key {
    if path != [] && path[0].RootDir? then [RootDir] else []
  }

  lemma {:induction false} TrimStartIdle(s: string)
    requires s == "" || s[0] != '/'
    ensures TrimStart(s) == s
  {
  }

  lemma TrimmedSpelling(path: Key)
    requires AllInner(path) || (path != [] && (path[0].RootDir? || path[0].CurDir?) && AllInner(path[1..]))
    ensures path == Marker(path) + Components(TrimStart(ShowPath(path)))
  {
    if AllInner(path) {
      InnerRoundTrip(path);
      TrimStartIdle(ShowPath(path));
      assert Marker(path) + path == path by { if path != [] { assert Inner(path[0]); } }
    } else {
      assert path == [path[0]] + path[1..];
      if path[0].CurDir? {
        CurDirRoundTrip(path[1..]);
        TrimStartIdle(ShowPath(path));
      } else {
        RootDirShown(path);
        InnerRoundTrip(path[1..]);
      }
    }
  }

  lemma RootDirShown(path: Key)
    requires path != [] && path[0].RootDir? && AllInner(path[1..])
    ensures TrimStart(ShowPath(path)) == ShowPath(path[1..])
  {
    if path[1..] == [] {
      assert path == [RootDir] && ShowAll([]) == [];
      assert ShowAll(path) == ["/"] + ShowAll(path[1..]);
      assert ShowPath(path) == "/";
      assert "/"[1..] == "" && TrimStart("") == "";
    } else {
      assert path == [RootDir] + path[1..];
      var shown := ShowPath(path[1..]);
      assert ShowPath(path) == "/" + "/" + shown;
      assert ShowPath(path)[1..] == "/" + shown && ("/" + shown)[1..] == shown;
      TrimStartIdle(shown);
    }
  }

  lemma RestShape(path: string, n: nat)
    requires n <= |Components(path)|
    ensures var rest := Components(path)[n..];
            AllInner(rest) || (rest != [] && (rest[0].RootDir? || rest[0].CurDir?) && AllInner(rest[1..]))
  {
    if n == 0 {
      ComponentsShape(path);
      assert Components(path)[0..] == Components(path);
    } else {
      SuffixIsInner(path, n);
    }
  }

  /** The key of a local object, appended to the dataset's path, names the object's path again. */
  lemma LocalKeyLocates(root: string, path: string)
    ensures Under(Local(root), LocalObject(path)) ==>
              var rest := Components(path)[|Components(root)|..];
              var key := RelativeObjectKey(Local(root), LocalObject(path)).value;
              Components(path) == Components(root) + (Marker(rest) + Components(key))
  {
    if Components(root) <= Components(path) {
      var rest := Components(path)[|Components(root)|..];
      RestShape(path, |Components(root)|);
      TrimmedSpelling(rest);
    }
  }

  /** So below a dataset that has a path of its own, different objects have different keys. */
  lemma LocalKeysTellApart(root: string, p: string, q: string)
    ensures Components(root) != [] && Under(Local(root), LocalObject(p)) && Under(Local(root), LocalObject(q)) &&
            RelativeObjectKey(Local(root), LocalObject(p)) == RelativeObjectKey(Local(root), LocalObject(q)) ==>
              Components(p) == Components(q)
  {
    if Components(root) != [] && Under(Local(root), LocalObject(p)) && Under(Local(root), LocalObject(q)) {
      LocalKeyLocates(root, p);
      LocalKeyLocates(root, q);
      NoMarker(p, |Components(root)|);
      NoMarker(q, |Components(root)|);
    }
  }

  lemma NoMarker(path: string, n: nat)
    requires 0 < n <= |Components(path)|
    ensures Marker(Components(path)[n..]) == []
  {
    SuffixIsInner(path, n);
    assert Components(path)[n..] != [] ==> Inner(Components(path)[n..][0]);
  }
}
