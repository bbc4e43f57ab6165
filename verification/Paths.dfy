/**
 File paths as the standard library reads them: a path is a text, but two paths are equal, ordered
 and looked up by their components. `a//b`, `a/./b` and `a/b/` name one path in three spellings.
 */
module Paths {
  import opened Text
  import opened Sorting

  datatype Component = RootDir | CurDir | ParentDir | Normal(name: string) {
    function Rank(): nat {
      match this
      case RootDir => 0
      case CurDir => 1
      case ParentDir => 2
      case Normal(_) => 3
    }

    function Show(): string {
      match this
      case RootDir => "/"
      case CurDir => "."
      case ParentDir => ".."
      case Normal(name) => name
    }
  }

  /** What paths are compared by. */
  type Key = seq<Component>

  function Split(text: string, sep: char): (parts: seq<string>)
    ensures |parts| > 0
  {
    if text == "" then [""]
    else
      var rest := Split(text[1..], sep);
      if text[0] == sep then [""] + rest else [[text[0]] + rest[0]] + rest[1..]
  }

  function Join(parts: seq<string>, sep: string): string {
    if parts == [] then "" else if |parts| == 1 then parts[0] else parts[0] + sep + Join(parts[1..], sep)
  }

  function Components(text: string): Key {
    var parts := Split(text, '/');
    (if StartsWith(text, "/") then [RootDir] else if parts[0] == "." then [CurDir] else []) + Named(parts)
  }

  function Named(parts: seq<string>): Key {
    if parts == [] then []
    else (if parts[0] == "" || parts[0] == "." then []
          else if parts[0] == ".." then [ParentDir]
          else [Normal(parts[0])]) + Named(parts[1..])
  }

  /** `strip_prefix` where it applies, the whole path otherwise. */
  function Relative(root: Key, file: Key): Key {
    if root <= file then file[|root|..] else file
  }

  /** `parent`, with no parent read as the empty path. */
  function Parent(path: Key): Key {
    if path == [] then [] else path[..|path|-1]
  }

  function FileName(path: Key): string {
    if path != [] && path[|path|-1].Normal? then path[|path|-1].name else ""
  }

  function ShowAll(path: Key): seq<string> {
    if path == [] then [] else [path[0].Show()] + ShowAll(path[1..])
  }

  /** The path spelled by its components. */
  function ShowPath(path: Key): string {
    Join(ShowAll(path), "/")
  }

  // ---------------------------------------------------------------- spelling

  /** A component that is not only a marker at the start. */
  predicate Inner(c: Component) {
    c.ParentDir? || (c.Normal? && c.name != "" && c.name != "." && c.name != ".." && '/' !in c.name)
  }

  ghost predicate AllInner(path: Key) {
    forall i :: 0 <= i < |path| ==> Inner(path[i])
  }

  lemma {:induction false} SplitParts(text: string, i: nat)
    requires i < |Split(text, '/')|
    ensures '/' !in Split(text, '/')[i]
  {
    if text != "" {
      var rest := Split(text[1..], '/');
      if text[0] == '/' {
        if i > 0 { SplitParts(text[1..], i - 1); }
      } else {
        SplitParts(text[1..], i);
        assert i > 0 ==> Split(text, '/')[i] == rest[i];
      }
    }
  }

  lemma {:induction false} NamedAreInner(parts: seq<string>)
    requires forall i :: 0 <= i < |parts| ==> '/' !in parts[i]
    ensures AllInner(Named(parts))
  {
    if parts != [] { NamedAreInner(parts[1..]); }
  }

  lemma {:induction false} SplitOne(text: string, sep: char)
    requires sep !in text
    ensures Split(text, sep) == [text]
  {
    if text != "" {
      assert text == [text[0]] + text[1..];
      SplitOne(text[1..], sep);
    }
  }

  lemma {:induction false} SplitFirst(a: string, b: string, sep: char)
    requires sep !in a
    ensures Split(a + [sep] + b, sep) == [a] + Split(b, sep)
  {
    var s := a + [sep] + b;
    if a == "" {
      assert s[0] == sep && s[1..] == b;
    } else {
      SplitFirst(a[1..], b, sep);
      assert s[0] == a[0] && s[1..] == a[1..] + [sep] + b;
      assert a == [a[0]] + a[1..];
    }
  }

  /** Splitting undoes joining. */
  lemma {:induction false} SplitJoined(parts: seq<string>, sep: char)
    requires parts != [] && forall p :: p in parts ==> sep !in p
    ensures Split(Join(parts, [sep]), sep) == parts
  {
    var rest := parts[1..];
    if rest == [] {
      SplitOne(parts[0], sep);
    } else {
      SplitJoined(rest, sep);
      JoinedStep(parts, [sep]);
      SplitFirst(parts[0], Join(rest, [sep]), sep);
      assert parts == [parts[0]] + rest;
    }
  }

  lemma JoinedStep(parts: seq<string>, sep: string)
    requires |parts| > 1
    ensures Join(parts, sep) == parts[0] + sep + Join(parts[1..], sep)
  {
  }

  /** A path of several components is shown one by one, with slashes. */
  lemma ShownStep(path: Key)
    requires |path| > 1
    ensures ShowPath(path) == path[0].Show() + "/" + ShowPath(path[1..])
  {
    assert ShowAll(path)[1..] == ShowAll(path[1..]);
  }

  /** Inner components are split off as they are shown. */
  lemma {:induction false} SplitShown(path: Key)
    requires AllInner(path) && path != []
    ensures Split(ShowPath(path), '/') == ShowAll(path)
  {
    if |path| == 1 {
      assert ShowAll(path[1..]) == [];
      SplitOne(path[0].Show(), '/');
    } else {
      var rest := path[1..];
      SplitShown(rest);
      ShownStep(path);
      SplitFirst(path[0].Show(), ShowPath(rest), '/');
    }
  }

  lemma {:induction false} NamedShown(path: Key)
    requires AllInner(path)
    ensures Named(ShowAll(path)) == path
  {
    if path != [] {
      NamedShown(path[1..]);
      assert path == [path[0]] + path[1..];
    }
  }

  lemma InnerRoundTrip(path: Key)
    requires AllInner(path)
    ensures Components(ShowPath(path)) == path
  {
    if path != [] {
      SplitShown(path);
      NamedShown(path);
    }
  }

  lemma NamedSkips(parts: seq<string>)
    ensures Named(["."] + parts) == Named(parts)
  {
    assert (["."] + parts)[1..] == parts;
  }

  lemma CurDirShown(path: Key)
    requires path != []
    ensures ShowPath([CurDir] + path) == "." + "/" + ShowPath(path)
  {
    ShownStep([CurDir] + path);
    assert ([CurDir] + path)[1..] == path;
  }

  lemma AfterCurDir(text: string, parts: seq<string>)
    requires parts == Split(text, '/')
    ensures Components("." + "/" + text) == [CurDir] + Named(parts)
  {
    SplitFirst(".", text, '/');
    NamedSkips(parts);
  }

  lemma CurDirRoundTrip(path: Key)
    requires AllInner(path)
    ensures Components(ShowPath([CurDir] + path)) == [CurDir] + path
  {
    if path == [] {
      assert [CurDir] + path == [CurDir] && ShowAll([CurDir][1..]) == [];
      assert ShowPath([CurDir]) == ".";
      SplitOne(".", '/');
    } else {
      SplitShown(path);
      NamedShown(path);
      CurDirShown(path);
      AfterCurDir(ShowPath(path), ShowAll(path));
    }
  }

  /** A path is inner components, perhaps after one marker. */
  lemma ComponentsShape(text: string)
    ensures var k := Components(text);
            AllInner(k) || (k != [] && (k[0].RootDir? || k[0].CurDir?) && AllInner(k[1..]))
  {
    var parts := Split(text, '/');
    forall i | 0 <= i < |parts| ensures '/' !in parts[i] { SplitParts(text, i); }
    NamedAreInner(parts);
    assert [] + Named(parts) == Named(parts);
    assert ([RootDir] + Named(parts))[1..] == Named(parts) && ([CurDir] + Named(parts))[1..] == Named(parts);
  }

  // ---------------------------------------------------------------- order

  predicate ComponentLess(a: Component, b: Component) {
    a.Rank() < b.Rank() || (a.Normal? && b.Normal? && Less(a.name, b.name))
  }

  predicate KeyLess(a: Key, b: Key) {
    |b| > 0 && (|a| == 0 || ComponentLess(a[0], b[0]) || (a[0] == b[0] && KeyLess(a[1..], b[1..])))
  }

  predicate KeyAtMost(a: Key, b: Key) {
    a == b || KeyLess(a, b)
  }

  predicate PathAtMost(a: string, b: string) {
    KeyAtMost(Components(a), Components(b))
  }

  /** The root comes first, then the current and the parent directory, then names in text order. */
  lemma ComponentLessIff(a: Component, b: Component)
    ensures ComponentLess(a, b) <==>
            || (a.RootDir? && !b.RootDir?) || (a.CurDir? && (b.ParentDir? || b.Normal?)) || (a.ParentDir? && b.Normal?)
            || (a.Normal? && b.Normal? && Less(a.name, b.name))
  {
  }

  /** At position `k`, the first where they differ, `a` is at its end or has the smaller component. */
  predicate KeyLessAt(a: Key, b: Key, k: nat) {
    k <= |a| && k < |b| && a[..k] == b[..k] && (k == |a| || ComponentLess(a[k], b[k]))
  }

  lemma ComponentIrreflexive(a: Component)
    ensures !ComponentLess(a, a)
  {
    if a.Normal? { LessIrreflexive(a.name); }
  }

  lemma {:induction false} KeyLessIff(a: Key, b: Key)
    ensures KeyLess(a, b) <==> exists k: nat :: KeyLessAt(a, b, k)
  {
    if |a| > 0 && |b| > 0 && a[0] == b[0] {
      ComponentIrreflexive(a[0]);
      KeyLessIff(a[1..], b[1..]);
      if k: nat :| KeyLessAt(a[1..], b[1..], k) {
        assert a[..k+1] == [a[0]] + a[1..][..k] && b[..k+1] == [b[0]] + b[1..][..k];
        assert KeyLessAt(a, b, k + 1);
      }
      if k: nat :| KeyLessAt(a, b, k) {
        assert k > 0;
        assert a[1..][..k-1] == a[..k][1..] && b[1..][..k-1] == b[..k][1..];
        assert KeyLessAt(a[1..], b[1..], k - 1);
      }
    } else {
      if KeyLess(a, b) { assert KeyLessAt(a, b, 0); }
      if k: nat :| KeyLessAt(a, b, k) {
        if k > 0 { assert a[..k][0] == b[..k][0]; }
      }
    }
  }

  lemma ComponentOrder(a: Component, b: Component, c: Component)
    ensures a == b || ComponentLess(a, b) || ComponentLess(b, a)
    ensures ComponentLess(a, b) && ComponentLess(b, c) ==> ComponentLess(a, c)
  {
    if a.Normal? && b.Normal? { LessTotal(a.name, b.name); }
    if a.Normal? && b.Normal? && c.Normal? && Less(a.name, b.name) && Less(b.name, c.name) {
      LessTransitive(a.name, b.name, c.name);
    }
  }

  lemma {:induction false} KeyTotal(a: Key, b: Key)
    ensures KeyAtMost(a, b) || KeyAtMost(b, a)
  {
    if |a| > 0 && |b| > 0 {
      ComponentOrder(a[0], b[0], b[0]);
      if a[0] == b[0] {
        KeyTotal(a[1..], b[1..]);
        if a[1..] == b[1..] { assert a == [a[0]] + a[1..] && b == [b[0]] + b[1..]; }
      }
    }
  }

  lemma {:induction false} KeyTransitive(a: Key, b: Key, c: Key)
    requires KeyLess(a, b) && KeyLess(b, c)
    ensures KeyLess(a, c)
  {
    if |a| > 0 {
      ComponentOrder(a[0], b[0], c[0]);
      if a[0] == b[0] && b[0] == c[0] && KeyLess(a[1..], b[1..]) && KeyLess(b[1..], c[1..]) {
        KeyTransitive(a[1..], b[1..], c[1..]);
      }
    }
  }

  /** Sorting by path is sorting by a total preorder: spellings of one path tie. */
  lemma PathOrder()
    ensures TotalPreorder(PathAtMost)
  {
    forall a, b ensures PathAtMost(a, b) || PathAtMost(b, a) { KeyTotal(Components(a), Components(b)); }
    forall a, b, c | PathAtMost(a, b) && PathAtMost(b, c) ensures PathAtMost(a, c) {
      KeyOrderStep(Components(a), Components(b), Components(c));
    }
  }

  lemma KeyOrderStep(a: Key, b: Key, c: Key)
    requires KeyAtMost(a, b) && KeyAtMost(b, c)
    ensures KeyAtMost(a, c)
  {
    if a != b && b != c { KeyTransitive(a, b, c); }
  }
}
