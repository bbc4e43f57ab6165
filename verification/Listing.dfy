/** Listing a local tree page by page, each page continued by the URI of its last entry. */
module Listing {
  import opened Common
  import opened Text
  import opened Sorting

  /** A file, or a directory with the prefix it is reported as. */
  datatype Entry = Entry(uri: string, isFile: bool, prefix: Option<string>)
  datatype Options = Options(recursive: bool, maxKeys: Option<nat>)
  datatype Page = Page(objects: seq<Entry>, prefixes: set<string>, truncated: bool, token: Option<string>)

  predicate ByUri(a: Entry, b: Entry) {
    AtMost(a.uri, b.uri)
  }

  lemma UriOrder()
    ensures TotalPreorder(ByUri)
  {
    AtMostIsOrder();
  }

  ghost predicate Ascending(entries: seq<Entry>) {
    forall i, j :: 0 <= i < j < |entries| ==> AtMost(entries[i].uri, entries[j].uri)
  }

  ghost predicate DistinctUris(entries: seq<Entry>) {
    forall i, j :: 0 <= i < j < |entries| ==> entries[i].uri != entries[j].uri
  }

  // ---------------------------------------------------------------- what a page is

  predicate IsObject(e: Entry, recursive: bool) {
    recursive || e.isFile
  }

  ghost function Objects(entries: seq<Entry>, recursive: bool): seq<Entry> {
    if entries == [] then []
    else
      var last := entries[|entries|-1];
      Objects(entries[..|entries|-1], recursive) + if IsObject(last, recursive) then [last] else []
  }

  ghost function Prefixes(entries: seq<Entry>, recursive: bool): set<string> {
    set e | e in entries && !IsObject(e, recursive) && e.prefix.Some? :: e.prefix.value
  }

  lemma {:induction false} ObjectsAppend(a: seq<Entry>, b: seq<Entry>, recursive: bool)
    ensures Objects(a + b, recursive) == Objects(a, recursive) + Objects(b, recursive)
  {
    if b == [] {
      assert a + b == a;
    } else {
      ObjectsAppend(a, b[..|b|-1], recursive);
      assert (a + b)[..|a + b|-1] == a + b[..|b|-1];
    }
  }

  /** A recursive listing reports every entry as an object; any other its files, and its directories as prefixes. */
  lemma {:induction false} ObjectsMeaning(entries: seq<Entry>, recursive: bool, e: Entry)
    ensures e in Objects(entries, recursive) <==> e in entries && (recursive || e.isFile)
    ensures recursive ==> Objects(entries, recursive) == entries && Prefixes(entries, recursive) == {}
    ensures !recursive && e in entries && !e.isFile && e.prefix.Some? ==> e.prefix.value in Prefixes(entries, recursive)
  {
    if entries != [] {
      ObjectsMeaning(entries[..|entries|-1], recursive, e);
      assert entries == entries[..|entries|-1] + [entries[|entries|-1]];
    }
  }

  lemma PrefixesAppend(a: seq<Entry>, b: seq<Entry>, recursive: bool)
    ensures Prefixes(a + b, recursive) == Prefixes(a, recursive) + Prefixes(b, recursive)
  {
    assert forall e :: e in a + b <==> e in a || e in b;
  }

  /** `start` is where a request with this token resumes: after the entry it names, or past the end. */
  ghost predicate ResumesAt(entries: seq<Entry>, token: Option<string>, start: nat) {
    match token
    case None => start == 0
    case Some(uri) =>
      if exists i :: 0 <= i < |entries| && entries[i].uri == uri
      then && 0 < start <= |entries| && entries[start-1].uri == uri
           && forall i :: 0 <= i < start - 1 ==> entries[i].uri != uri
      else start == |entries|
  }

  /** The position after the first entry with `uri` from `i` on, or the end. */
  function IndexAfter(entries: seq<Entry>, uri: string, i: nat): (start: nat)
    requires i <= |entries|
    ensures i <= start <= |entries|
    ensures (exists k :: i <= k < |entries| && entries[k].uri == uri) ==> i < start && entries[start-1].uri == uri
    ensures forall k :: i <= k < start - 1 ==> entries[k].uri != uri
    ensures (forall k :: i <= k < |entries| ==> entries[k].uri != uri) ==> start == |entries|
    decreases |entries| - i
  {
    if i == |entries| then i else if entries[i].uri == uri then i + 1 else IndexAfter(entries, uri, i + 1)
  }

  /** Where a request with this token resumes. */
  function StartOf(entries: seq<Entry>, token: Option<string>): (start: nat)
    ensures start <= |entries| && ResumesAt(entries, token, start)
  {
    if token.None? then 0 else IndexAfter(entries, token.value, 0)
  }

  function Stop(entries: seq<Entry>, start: nat, maxKeys: Option<nat>): (stop: nat)
    requires start <= |entries|
    ensures start <= stop <= |entries|
  {
    if maxKeys.Some? && maxKeys.value < |entries| - start then start + maxKeys.value else |entries|
  }

  /** The page of `entries[start..stop]`. */
  ghost predicate IsPage(entries: seq<Entry>, options: Options, start: nat, page: Page)
    requires start <= |entries|
  {
    var stop := Stop(entries, start, options.maxKeys);
    && page.objects == Objects(entries[start..stop], options.recursive)
    && page.prefixes == Prefixes(entries[start..stop], options.recursive)
    && page.truncated == (stop < |entries|)
    && page.token == if stop < |entries| && start < stop then Some(entries[stop-1].uri) else None
  }

  // ---------------------------------------------------------------- list

  method Resume(entries: seq<Entry>, token: Option<string>) returns (start: nat)
    ensures start == StartOf(entries, token)
  {
    if token.None? { return 0; }
    for i := 0 to |entries|
      invariant IndexAfter(entries, token.value, 0) == IndexAfter(entries, token.value, i)
    {
      if entries[i].uri == token.value { return i + 1; }
    }
    return |entries|;
  }

  method Collect(page: seq<Entry>, recursive: bool) returns (objects: seq<Entry>, prefixes: set<string>)
    ensures objects == Objects(page, recursive) && prefixes == Prefixes(page, recursive)
  {
    objects, prefixes := [], {};
    for i := 0 to |page|
      invariant objects == Objects(page[..i], recursive) && prefixes == Prefixes(page[..i], recursive)
    {
      assert page[..i+1] == page[..i] + [page[i]];
      assert page[..i+1][..i] == page[..i];
      PrefixesAppend(page[..i], [page[i]], recursive);
      if recursive || page[i].isFile {
        objects := objects + [page[i]];
      } else if page[i].prefix.Some? {
        prefixes := prefixes + {page[i].prefix.value};
      }
    }
    assert page[..|page|] == page;
  }

  method PageFrom(entries: seq<Entry>, options: Options, token: Option<string>) returns (page: Page)
    ensures IsPage(entries, options, StartOf(entries, token), page)
  {
    var start := Resume(entries, token);
    var stop := Stop(entries, start, options.maxKeys);
    var objects, prefixes := Collect(entries[start..stop], options.recursive);
    var truncated := stop < |entries|;
    var next := if truncated && start < stop then Some(entries[stop-1].uri) else None;
    page := Page(objects, prefixes, truncated, next);
  }

  /** `list` over the entries collected from the tree. */
  method List(tree: seq<Entry>, options: Options, token: Option<string>) returns (page: Page)
    ensures IsPage(SortBy(tree, ByUri), options, StartOf(SortBy(tree, ByUri), token), page)
    ensures Ascending(SortBy(tree, ByUri)) && multiset(SortBy(tree, ByUri)) == multiset(tree)
  {
    UriOrder();
    SortBySorts(tree, ByUri);
    page := PageFrom(SortBy(tree, ByUri), options, token);
  }

  // ---------------------------------------------------------------- following the tokens

  /** What has been gathered is the listing up to `stop`, and `page` is the last page of it. */
  ghost predicate Gathered(entries: seq<Entry>, options: Options, stop: nat, page: Page, objects: seq<Entry>,
                           prefixes: set<string>)
  {
    && stop <= |entries|
    && page.truncated == (stop < |entries|)
    && (stop < |entries| ==> stop > 0 && page.token == Some(entries[stop-1].uri))
    && objects == Objects(entries[..stop], options.recursive)
    && prefixes == Prefixes(entries[..stop], options.recursive)
  }

  lemma GatherPage(entries: seq<Entry>, options: Options, was: nat, page: Page, objects: seq<Entry>,
                   prefixes: set<string>)
    requires was <= |entries| && options.maxKeys != Some(0)
    requires objects == Objects(entries[..was], options.recursive)
    requires prefixes == Prefixes(entries[..was], options.recursive)
    requires IsPage(entries, options, was, page)
    ensures Gathered(entries, options, Stop(entries, was, options.maxKeys), page,
                     objects + page.objects, prefixes + page.prefixes)
    ensures was < |entries| ==> was < Stop(entries, was, options.maxKeys)
  {
    var stop := Stop(entries, was, options.maxKeys);
    assert entries[..stop] == entries[..was] + entries[was..stop];
    ObjectsAppend(entries[..was], entries[was..stop], options.recursive);
    PrefixesAppend(entries[..was], entries[was..stop], options.recursive);
  }

  lemma GatheredAll(entries: seq<Entry>, options: Options, stop: nat, page: Page, objects: seq<Entry>,
                    prefixes: set<string>)
    requires Gathered(entries, options, stop, page, objects, prefixes) && !page.truncated
    ensures objects == Objects(entries, options.recursive) && prefixes == Prefixes(entries, options.recursive)
  {
    assert entries[..|entries|] == entries;
  }

  /**
   Following the tokens of an unchanging tree ends, and the pages together are the whole listing in URI
   order: nothing is skipped and nothing repeated.
   */
  method ListAll(tree: seq<Entry>, options: Options) returns (objects: seq<Entry>, prefixes: set<string>)
    requires DistinctUris(tree) && options.maxKeys != Some(0)
    ensures objects == Objects(SortBy(tree, ByUri), options.recursive)
    ensures prefixes == Prefixes(SortBy(tree, ByUri), options.recursive)
  {
    ghost var entries := SortBy(tree, ByUri);
    SortKeepsUris(tree);
    var page := List(tree, options, None);
    ghost var stop := Stop(entries, 0, options.maxKeys);
    objects, prefixes := page.objects, page.prefixes;
    while page.truncated
      invariant Gathered(entries, options, stop, page, objects, prefixes)
      decreases |entries| - stop
    {
      ghost var token := page.token;
      page := List(tree, options, page.token);
      TokenResumes(entries, stop, token);
      GatherPage(entries, options, stop, page, objects, prefixes);
      stop := Stop(entries, stop, options.maxKeys);
      objects := objects + page.objects;
      prefixes := prefixes + page.prefixes;
    }
    GatheredAll(entries, options, stop, page, objects, prefixes);
  }

  lemma SortKeepsUris(tree: seq<Entry>)
    requires DistinctUris(tree)
    ensures DistinctUris(SortBy(tree, ByUri)) && |SortBy(tree, ByUri)| == |tree|
  {
    var s := SortBy(tree, ByUri);
    UriOrder();
    SortBySorts(tree, ByUri);
    SameElements(s, tree);
    assert Distinct(tree);
    DistinctFromMultiset(tree, s);
    forall i, j | 0 <= i < j < |s| ensures s[i].uri != s[j].uri {
      assert s[i] in tree && s[j] in tree && s[i] != s[j];
    }
  }

  /** With distinct URIs a page resumes exactly where the last one stopped. */
  lemma TokenResumes(entries: seq<Entry>, stop: nat, token: Option<string>)
    requires DistinctUris(entries) && 0 < stop < |entries| && token == Some(entries[stop-1].uri)
    ensures StartOf(entries, token) == stop
  {
    assert entries[stop-1].uri == token.value;
  }

  /** A limit of zero on a tree that is not empty asks for the same page for ever. */
  lemma ZeroLimitNeverProgresses(entries: seq<Entry>, options: Options, page: Page)
    requires options.maxKeys == Some(0) && entries != []
    requires IsPage(entries, options, 0, page)
    ensures page.truncated && page.token == None && page.objects == [] && page.prefixes == {}
    ensures StartOf(entries, page.token) == 0
  {
    assert entries[0..0] == [];
  }

  // ---------------------------------------------------------------- repeated URIs

  /** The request after the one from `start` resumes at `next`: where the token of its page says. */
  predicate Asks(entries: seq<Entry>, limit: nat, start: nat, next: nat)
    requires limit > 0
  {
    && start + limit < |entries|
    && next == StartOf(entries, Some(entries[start+limit-1].uri))
  }

  lemma AsksByToken(entries: seq<Entry>, options: Options, start: nat, page: Page)
    requires options.maxKeys.Some? && options.maxKeys.value > 0 && start <= |entries|
    requires IsPage(entries, options, start, page)
    ensures page.truncated <==> start + options.maxKeys.value < |entries|
    ensures page.truncated ==> Asks(entries, options.maxKeys.value, start, StartOf(entries, page.token))
  {
  }

  /** Requests made one after the other, each with the token of the page before. */
  predicate Requests(entries: seq<Entry>, limit: nat, starts: seq<nat>)
    requires limit > 0
  {
    && starts != [] && starts[0] == 0
    && forall i :: 0 <= i < |starts| - 1 ==> Asks(entries, limit, starts[i], starts[i+1])
  }

  /** Some number of requests gets the page that is not truncated. */
  ghost predicate Ends(entries: seq<Entry>, limit: nat)
    requires limit > 0
  {
    exists starts :: Requests(entries, limit, starts) && starts[|starts|-1] + limit >= |entries|
  }

  /** Some URI fills more than a page, before the last entry. */
  predicate Crowded(entries: seq<Entry>, limit: nat) {
    exists f :: 0 <= f < |entries| && CrowdedFrom(entries, limit, f)
  }

  predicate CrowdedFrom(entries: seq<Entry>, limit: nat, f: nat) {
    f + limit + 1 < |entries| && entries[f].uri == entries[f+limit].uri
  }

  lemma Between(entries: seq<Entry>, i: nat, j: nat, k: nat)
    requires SortedBy(entries, ByUri) && i <= j <= k < |entries| && entries[i].uri == entries[k].uri
    ensures entries[j].uri == entries[i].uri
  {
    assert (i == j || ByUri(entries[i], entries[j])) && (j == k || ByUri(entries[j], entries[k]));
    AtMostIsOrder();
  }

  lemma AsksBefore(entries: seq<Entry>, limit: nat, f: nat, start: nat, next: nat)
    requires limit > 0 && SortedBy(entries, ByUri) && CrowdedFrom(entries, limit, f)
    requires start <= f + 1 && Asks(entries, limit, start, next)
    ensures next <= f + 1
  {
    var last := start + limit - 1;
    if f <= last {
      Between(entries, f, last, f + limit);
      assert entries[f].uri == entries[last].uri;
    } else {
      assert entries[last].uri == entries[last].uri;
    }
  }

  /** A crowded URI is never got past. */
  lemma {:induction false} StaysBefore(entries: seq<Entry>, limit: nat, f: nat, starts: seq<nat>, i: nat)
    requires limit > 0 && SortedBy(entries, ByUri) && CrowdedFrom(entries, limit, f)
    requires Requests(entries, limit, starts) && i < |starts|
    ensures starts[i] <= f + 1
  {
    if i > 0 {
      StaysBefore(entries, limit, f, starts, i - 1);
      assert Asks(entries, limit, starts[i-1], starts[i]);
      AsksBefore(entries, limit, f, starts[i-1], starts[i]);
    }
  }

  /** Each request resumes after the first entry with its URI. */
  ghost predicate AfterFirst(entries: seq<Entry>, start: nat) {
    start <= |entries| && (start > 0 ==> forall i :: 0 <= i < start - 1 ==> entries[i].uri != entries[start-1].uri)
  }

  lemma AsksAhead(entries: seq<Entry>, limit: nat, start: nat, next: nat)
    requires limit > 0 && SortedBy(entries, ByUri) && !Crowded(entries, limit)
    requires AfterFirst(entries, start) && Asks(entries, limit, start, next)
    ensures start < next && AfterFirst(entries, next)
  {
    var last := start + limit - 1;
    assert entries[last].uri == entries[last].uri && entries[next-1].uri == entries[last].uri;
    if next <= start {
      Between(entries, next - 1, start - 1, last);
      assert CrowdedFrom(entries, limit, start - 1);
    }
  }

  lemma {:induction false} EndsFrom(entries: seq<Entry>, limit: nat, starts: seq<nat>, last: nat)
    requires limit > 0 && SortedBy(entries, ByUri) && !Crowded(entries, limit)
    requires Requests(entries, limit, starts) && last == starts[|starts|-1] && AfterFirst(entries, last)
    ensures Ends(entries, limit)
    decreases |entries| - last
  {
    if last + limit < |entries| {
      var next := StartOf(entries, Some(entries[last+limit-1].uri));
      assert Asks(entries, limit, last, next);
      AsksAhead(entries, limit, last, next);
      EndsFrom(entries, limit, starts + [next], next);
    }
  }

  /**
   For any limit: following the tokens of a sorted listing comes to an end exactly when no URI is repeated
   over more than a page, the last entry aside; otherwise it asks for that URI for ever.
   */
  lemma ListingEndsIff(entries: seq<Entry>, limit: nat)
    requires limit > 0 && SortedBy(entries, ByUri)
    ensures Ends(entries, limit) <==> !Crowded(entries, limit)
  {
    if f :| 0 <= f < |entries| && CrowdedFrom(entries, limit, f) {
      forall starts | Requests(entries, limit, starts) ensures starts[|starts|-1] + limit < |entries| {
        StaysBefore(entries, limit, f, starts, |starts| - 1);
      }
    } else {
      EndsFrom(entries, limit, [0], 0);
    }
  }
}
