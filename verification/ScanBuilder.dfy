/**
 The two report builders, local and remote: inspect every asset, infer datasets from the inspected
 Parquet files, link the records to them, count, and hand the report to the validator.
 */
module ScanBuilder {
  import opened Common
  import opened Sorting
  import opened Paths
  import opened ScanReport
  import opened DatasetInference
  import Text

  datatype CoreError =
    | MissingPath(path: string)
    | Unsupported(what: string)
    | Plugin(text: string)
    | Io(text: string)
    | NonUtf8Path(text: string)
    | ParquetRead(text: string)
    | Inspect(text: string)
    | ReportValidation(text: string)

  function Message(e: CoreError): string {
    match e
    case MissingPath(p) => "target path does not exist: " + p
    case Unsupported(w) => "unsupported target for local engine: " + w
    case Plugin(t) => t
    case Io(t) => "I/O error: " + t
    case NonUtf8Path(t) => "path is not valid UTF-8: " + t
    case ParquetRead(t) => "parquet error: " + t
    case Inspect(t) => "shallow inspect error: " + t
    case ReportValidation(t) => "report validation failed: " + t
  }

  function FailureOf(e: CoreError): FailureKind {
    match e
    case MissingPath(_) => IoError
    case Io(_) => IoError
    case NonUtf8Path(_) => IoError
    case ParquetRead(_) => FormatReadError
    case Inspect(_) => ProbeDecodeError
    case Unsupported(_) => UnsupportedFormat
    case ReportValidation(_) => InternalEngineError
    case Plugin(_) => InternalEngineError
  }

  /** Only an error passed through from a plugin can print as blank text. */
  lemma OnlyPluginErrorsAreBlank(e: CoreError)
    ensures Blank(Message(e)) <==> e.Plugin? && Blank(e.text)
  {
    if !e.Plugin? {
      var m := Message(e);
      assert |m| > 0 && (m[0] == 't' || m[0] == 'u' || m[0] == 'I' || m[0] == 'p' || m[0] == 's' || m[0] == 'r');
      assert !Space(m[0]);
    }
  }

  /** Which kind of failure an error is recorded as. */
  lemma FailureKinds(e: CoreError)
    ensures FailureOf(e) == IoError <==> e.MissingPath? || e.Io? || e.NonUtf8Path?
    ensures FailureOf(e) == FormatReadError <==> e.ParquetRead?
    ensures FailureOf(e) == ProbeDecodeError <==> e.Inspect?
    ensures FailureOf(e) == UnsupportedFormat <==> e.Unsupported?
    ensures FailureOf(e) == InternalEngineError <==> e.Plugin? || e.ReportValidation?
  {
  }

  datatype ResolvedAsset = ResolvedAsset(path: string, format: DataFormat, sizeBytes: nat)
  datatype Probe = Probe(metadata: string, hints: string)

  /** What the inspection of the `i`-th asset, in path order, comes to. */
  datatype Inspector = Inspector(
    parquet: nat -> Result<Inspection, CoreError>,
    text: nat -> Result<Probe, CoreError>,
    parquetHints: Inspection -> string)

  function NewRecord(a: ResolvedAsset): AssetRecord {
    AssetRecord(a.path, a.format, a.sizeBytes, Skipped, None, None, None, None, None)
  }

  predicate AssetAtMost(a: ResolvedAsset, b: ResolvedAsset) {
    PathAtMost(a.path, b.path)
  }

  /** Insert into the path-keyed map: a key already there keeps its first spelling. */
  function Register(m: Inspections, path: string, inspection: Inspection): Inspections {
    var k := Components(path);
    m[k := Entry(if k in m then m[k].path else path, inspection)]
  }

  // ---------------------------------------------------------------- records

  predicate InspectedParquet(rec: AssetRecord) {
    rec.status == Inspected && rec.format == Parquet
  }

  /** A record as inspection leaves it, before it is linked to a dataset. */
  ghost predicate FreshRecord(rec: AssetRecord) {
    && rec.datasetId.None?
    && match rec.status
       case Inspected => rec.failureKind.None? && rec.failureMessage.None?
       case Failed => rec.failureKind.Some? && rec.failureMessage.Some?
       case Skipped => rec.failureKind.None? && rec.failureMessage.None? && rec.probe.None?
  }

  /** The inspection map has exactly the paths of the inspected Parquet records, in one spelling each. */
  ghost predicate Registered(m: Inspections, records: seq<AssetRecord>) {
    && (forall i :: 0 <= i < |records| && InspectedParquet(records[i]) ==> Components(records[i].path) in m)
    && (forall k :: k in m ==> Components(m[k].path) == k && SpelledIn(records, m[k].path))
  }

  ghost predicate SpelledIn(records: seq<AssetRecord>, path: string) {
    exists i :: 0 <= i < |records| && InspectedParquet(records[i]) && records[i].path == path
  }

  /** The `i`-th asset is a Parquet file that could be inspected. */
  predicate InspectedAt(assets: seq<ResolvedAsset>, inspector: Inspector, i: nat) {
    i < |assets| && assets[i].format == Parquet && inspector.parquet(i).Ok?
  }

  /** `i` and `j` are the first and the last inspected Parquet file with path `k` among the first `n` assets. */
  ghost predicate Spellings(assets: seq<ResolvedAsset>, n: nat, inspector: Inspector, k: Key, i: nat, j: nat)
    requires n <= |assets|
  {
    && i <= j < n && InspectedAt(assets, inspector, i) && InspectedAt(assets, inspector, j)
    && Components(assets[i].path) == k && Components(assets[j].path) == k
    && forall x :: 0 <= x < n && InspectedAt(assets, inspector, x) && Components(assets[x].path) == k ==> i <= x <= j
  }

  /** The entry of a path has the spelling of its first file and the inspection of its last. */
  ghost predicate EntryOf(assets: seq<ResolvedAsset>, n: nat, inspector: Inspector, k: Key, e: Entry)
    requires n <= |assets|
  {
    exists i: nat, j: nat :: Spellings(assets, n, inspector, k, i, j)
      && e == Entry(assets[i].path, inspector.parquet(j).value)
  }

  ghost predicate MapOf(m: Inspections, assets: seq<ResolvedAsset>, n: nat, inspector: Inspector)
    requires n <= |assets|
  {
    && (forall k :: k in m ==> EntryOf(assets, n, inspector, k, m[k]))
    && (forall x :: 0 <= x < n && InspectedAt(assets, inspector, x) ==> Components(assets[x].path) in m)
  }

  lemma EntryStep(assets: seq<ResolvedAsset>, n: nat, inspector: Inspector, k: Key, e: Entry)
    requires n < |assets| && EntryOf(assets, n, inspector, k, e)
    ensures if InspectedAt(assets, inspector, n) && Components(assets[n].path) == k
            then EntryOf(assets, n + 1, inspector, k, Entry(e.path, inspector.parquet(n).value))
            else EntryOf(assets, n + 1, inspector, k, e)
  {
    var i: nat, j: nat :|
      Spellings(assets, n, inspector, k, i, j) && e == Entry(assets[i].path, inspector.parquet(j).value);
    if InspectedAt(assets, inspector, n) && Components(assets[n].path) == k {
      assert Spellings(assets, n + 1, inspector, k, i, n);
    } else {
      assert Spellings(assets, n + 1, inspector, k, i, j);
    }
  }

  lemma MapStep(m: Inspections, assets: seq<ResolvedAsset>, n: nat, inspector: Inspector)
    requires n < |assets| && MapOf(m, assets, n, inspector)
    ensures MapOf(Next(m, assets[n], n, inspector), assets, n + 1, inspector)
  {
    var t := Next(m, assets[n], n, inspector);
    forall k | k in t ensures EntryOf(assets, n + 1, inspector, k, t[k]) {
      if k in m {
        assert EntryOf(assets, n, inspector, k, m[k]);
        EntryStep(assets, n, inspector, k, m[k]);
      } else {
        assert Spellings(assets, n + 1, inspector, k, n, n);
      }
    }
  }

  /** The inspection map after the `i`-th asset. */
  function Next(m: Inspections, a: ResolvedAsset, i: nat, inspector: Inspector): Inspections {
    if a.format == Parquet && inspector.parquet(i).Ok? then Register(m, a.path, inspector.parquet(i).value) else m
  }

  lemma RegisterStep(m: Inspections, records: seq<AssetRecord>, a: ResolvedAsset, i: nat, inspector: Inspector,
                     rec: AssetRecord)
    requires Registered(m, records) && rec.path == a.path && rec.format == a.format
    requires a.format == Parquet ==> (rec.status == Inspected <==> inspector.parquet(i).Ok?)
    ensures Registered(Next(m, a, i, inspector), records + [rec])
  {
    var more := records + [rec];
    assert more[|records|] == rec;
    forall path | SpelledIn(records, path) ensures SpelledIn(more, path) {
      var j :| 0 <= j < |records| && InspectedParquet(records[j]) && records[j].path == path;
      assert more[j] == records[j];
    }
    assert InspectedParquet(rec) ==> SpelledIn(more, rec.path);
  }

  ghost function LocalRecord(a: ResolvedAsset, i: nat, inspector: Inspector): AssetRecord {
    var rec := NewRecord(a);
    match a.format
    case Unknown => rec
    case Parquet =>
      (match inspector.parquet(i)
       case Ok(_) => rec.(status := Inspected)
       case Err(e) => rec.(status := Failed, failureKind := Some(FailureOf(e)), failureMessage := Some(Message(e))))
    case _ =>
      (match inspector.text(i)
       case Ok(p) => rec.(status := Inspected, probe := Some(p.metadata), hints := Some(p.hints))
       case Err(e) => rec.(status := Failed, failureKind := Some(FailureOf(e)), failureMessage := Some(Message(e))))
  }

  ghost function RemoteRecord(a: ResolvedAsset, i: nat, inspector: Inspector): AssetRecord {
    var rec := NewRecord(a);
    if a.format != Parquet then rec
    else match inspector.parquet(i)
         case Ok(insp) => rec.(status := Inspected, hints := Some(inspector.parquetHints(insp)))
         case Err(e) => rec.(status := Failed, failureKind := Some(FormatReadError), failureMessage := Some(Message(e)))
  }

  predicate HasFailure(rec: AssetRecord, kind: FailureKind, e: CoreError) {
    rec.status == Failed && rec.failureKind == Some(kind) && rec.failureMessage == Some(Message(e)) && rec.probe.None?
  }

  /** What the record of a local asset says, by its format and what its inspection came to. */
  lemma LocalRecordTells(a: ResolvedAsset, i: nat, inspector: Inspector)
    ensures var r := LocalRecord(a, i, inspector);
      && r.path == a.path && r.format == a.format && r.sizeBytes == a.sizeBytes && r.datasetId.None?
      && (r.status == Skipped <==> a.format == Unknown)
      && (a.format == Parquet && inspector.parquet(i).Ok? ==> r.status == Inspected && r.probe.None? && r.hints.None?)
      && (a.format == Parquet && inspector.parquet(i).Err? ==>
            HasFailure(r, FailureOf(inspector.parquet(i).error), inspector.parquet(i).error))
      && (a.format != Parquet && a.format != Unknown && inspector.text(i).Ok? ==>
            && r.status == Inspected && r.probe == Some(inspector.text(i).value.metadata)
            && r.hints == Some(inspector.text(i).value.hints))
      && (a.format != Parquet && a.format != Unknown && inspector.text(i).Err? ==>
            HasFailure(r, FailureOf(inspector.text(i).error), inspector.text(i).error))
  {
  }

  /** Of remote objects only Parquet is opened, any failure is one of reading, and hints are kept. */
  lemma RemoteRecordTells(a: ResolvedAsset, i: nat, inspector: Inspector)
    ensures var r := RemoteRecord(a, i, inspector);
      && r.path == a.path && r.format == a.format && r.sizeBytes == a.sizeBytes && r.datasetId.None? && r.probe.None?
      && (r.status == Skipped <==> a.format != Parquet)
      && (a.format == Parquet && inspector.parquet(i).Ok? ==>
            r.status == Inspected && r.hints == Some(inspector.parquetHints(inspector.parquet(i).value)))
      && (a.format == Parquet && inspector.parquet(i).Err? ==>
            HasFailure(r, FormatReadError, inspector.parquet(i).error))
  {
  }

  lemma RecordsAreFresh(a: ResolvedAsset, i: nat, inspector: Inspector)
    ensures FreshRecord(LocalRecord(a, i, inspector)) && FreshRecord(RemoteRecord(a, i, inspector))
  {
  }

  method InspectLocalAsset(a: ResolvedAsset, i: nat, inspector: Inspector) returns (rec: AssetRecord)
    ensures rec == LocalRecord(a, i, inspector)
  {
    rec := NewRecord(a);
    match a.format {
      case Parquet =>
        match inspector.parquet(i) {
          case Ok(_) => rec := rec.(status := Inspected);
          case Err(e) =>
            rec := rec.(status := Failed, failureKind := Some(FailureOf(e)), failureMessage := Some(Message(e)));
        }
      case Unknown =>
      case _ =>
        match inspector.text(i) {
          case Ok(p) => rec := rec.(status := Inspected, probe := Some(p.metadata), hints := Some(p.hints));
          case Err(e) =>
            rec := rec.(status := Failed, failureKind := Some(FailureOf(e)), failureMessage := Some(Message(e)));
        }
    }
  }

  method InspectLocal(assets: seq<ResolvedAsset>, inspector: Inspector)
    returns (records: seq<AssetRecord>, inspections: Inspections)
    ensures |records| == |assets|
    ensures forall i :: 0 <= i < |assets| ==> records[i] == LocalRecord(assets[i], i, inspector)
    ensures Registered(inspections, records) && MapOf(inspections, assets, |assets|, inspector)
  {
    records, inspections := [], map[];
    for i := 0 to |assets|
      invariant |records| == i && Registered(inspections, records) && MapOf(inspections, assets, i, inspector)
      invariant forall j :: 0 <= j < i ==> records[j] == LocalRecord(assets[j], j, inspector)
    {
      var rec := InspectLocalAsset(assets[i], i, inspector);
      RegisterStep(inspections, records, assets[i], i, inspector, rec);
      MapStep(inspections, assets, i, inspector);
      inspections := Next(inspections, assets[i], i, inspector);
      records := records + [rec];
    }
  }

  method InspectRemoteAsset(a: ResolvedAsset, i: nat, inspector: Inspector) returns (rec: AssetRecord)
    ensures rec == RemoteRecord(a, i, inspector)
  {
    rec := NewRecord(a);
    if a.format == Parquet {
      match inspector.parquet(i) {
        case Ok(insp) => rec := rec.(status := Inspected, hints := Some(inspector.parquetHints(insp)));
        case Err(e) =>
          rec := rec.(status := Failed, failureKind := Some(FormatReadError), failureMessage := Some(Message(e)));
      }
    }
  }

  method InspectRemote(assets: seq<ResolvedAsset>, inspector: Inspector)
    returns (records: seq<AssetRecord>, inspections: Inspections)
    ensures |records| == |assets|
    ensures forall i :: 0 <= i < |assets| ==> records[i] == RemoteRecord(assets[i], i, inspector)
    ensures Registered(inspections, records) && MapOf(inspections, assets, |assets|, inspector)
  {
    records, inspections := [], map[];
    for i := 0 to |assets|
      invariant |records| == i && Registered(inspections, records) && MapOf(inspections, assets, i, inspector)
      invariant forall j :: 0 <= j < i ==> records[j] == RemoteRecord(assets[j], j, inspector)
    {
      var rec := InspectRemoteAsset(assets[i], i, inspector);
      RegisterStep(inspections, records, assets[i], i, inspector, rec);
      MapStep(inspections, assets, i, inspector);
      inspections := Next(inspections, assets[i], i, inspector);
      records := records + [rec];
    }
  }

  // ---------------------------------------------------------------- linking

  /** The paths of the map but for those of `todo` are listed, each once. */
  ghost predicate ListedBut(m: Inspections, paths: seq<string>, todo: set<Key>) {
    && todo <= m.Keys && Distinct(paths)
    && (forall p :: p in paths ==> Components(p) in m && m[Components(p)].path == p && Components(p) !in todo)
    && (forall k :: k in m && k !in todo ==> m[k].path in paths)
  }

  lemma ListedNext(m: Inspections, paths: seq<string>, todo: set<Key>, k: Key)
    requires ListedBut(m, paths, todo) && k in todo && Components(m[k].path) == k
    ensures ListedBut(m, paths + [m[k].path], todo - {k})
  {
    assert m[k].path !in paths;
  }

  /** The paths of the inspection map, in path order. */
  method OkPaths(m: Inspections) returns (paths: seq<string>)
    ensures forall p :: p in paths ==> Components(p) in m && m[Components(p)].path == p
    ensures forall k :: k in m && Components(m[k].path) == k ==> m[k].path in paths
    ensures SortedBy(paths, PathAtMost) && Distinct(paths)
    requires forall k :: k in m ==> Components(m[k].path) == k
  {
    var todo := m.Keys;
    paths := [];
    while todo != {}
      invariant ListedBut(m, paths, todo)
      decreases |todo|
    {
      var k :| k in todo;
      ListedNext(m, paths, todo, k);
      paths := paths + [m[k].path];
      todo := todo - {k};
    }
    SortPaths(paths);
    DistinctFromMultiset(paths, SortBy(paths, PathAtMost));
    paths := SortBy(paths, PathAtMost);
  }

  /** Every entry of the index comes from a file of the dataset it names, and every file has one. */
  ghost predicate Indexed(index: map<Key, string>, datasets: seq<Dataset>) {
    && (forall k :: k in index ==> FileOf(datasets, |datasets|, k, index[k]))
    && (forall i, p :: 0 <= i < |datasets| && Has(datasets[i], p) ==> Components(p) in index)
  }

  ghost predicate FileOf(datasets: seq<Dataset>, n: nat, k: Key, id: string)
    requires n <= |datasets|
  {
    exists i, p :: 0 <= i < n && Has(datasets[i], p) && Components(p) == k && datasets[i].id == id
  }

  /** `index` with the files of a dataset named `id` entered over it. */
  ghost predicate Entered(index: map<Key, string>, next: map<Key, string>, files: seq<string>, key: string -> Key,
                          id: string)
  {
    && (forall k :: k in index ==> k in next)
    && (forall f :: 0 <= f < |files| ==> key(files[f]) in next)
    && (forall k :: k in next ==>
          (k in index && next[k] == index[k]) || (next[k] == id && exists f :: 0 <= f < |files| && key(files[f]) == k))
  }

  method EnterFiles(index: map<Key, string>, files: seq<string>, key: string -> Key, id: string)
    returns (next: map<Key, string>)
    ensures Entered(index, next, files, key, id)
  {
    next := index;
    for f := 0 to |files|
      invariant Entered(index, next, files[..f], key, id)
    {
      assert files[..f+1][f] == files[f];
      assert forall g :: 0 <= g < f ==> files[..f+1][g] == files[..f][g];
      next := next[key(files[f]) := id];
    }
    assert files[..|files|] == files;
  }

  method IndexFiles(datasets: seq<Dataset>) returns (index: map<Key, string>)
    ensures Indexed(index, datasets)
  {
    index := map[];
    for i := 0 to |datasets|
      invariant forall k :: k in index ==> FileOf(datasets, i, k, index[k])
      invariant forall j, p :: 0 <= j < i && Has(datasets[j], p) ==> Components(p) in index
    {
      var next := EnterFiles(index, PathsOf(datasets[i]), Components, datasets[i].id);
      EnterStep(datasets, i, index, next);
      index := next;
    }
  }

  lemma EnterStep(datasets: seq<Dataset>, i: nat, index: map<Key, string>, next: map<Key, string>)
    requires i < |datasets| && Entered(index, next, PathsOf(datasets[i]), Components, datasets[i].id)
    requires forall k :: k in index ==> FileOf(datasets, i, k, index[k])
    ensures forall k :: k in next ==> FileOf(datasets, i + 1, k, next[k])
    ensures forall p :: Has(datasets[i], p) ==> Components(p) in next
  {
    var files := PathsOf(datasets[i]);
    forall k | k in next ensures FileOf(datasets, i + 1, k, next[k]) {
      if k in index && next[k] == index[k] {
        assert FileOf(datasets, i, k, index[k]);
      } else {
        var f :| 0 <= f < |files| && Components(files[f]) == k;
        assert Has(datasets[i], files[f]);
      }
    }
  }

  function LinkedRecord(rec: AssetRecord, index: map<Key, string>): AssetRecord {
    if InspectedParquet(rec) && Components(rec.path) in index
    then rec.(datasetId := Some(index[Components(rec.path)])) else rec
  }

  method LinkRecords(records: seq<AssetRecord>, index: map<Key, string>) returns (linked: seq<AssetRecord>)
    ensures |linked| == |records|
    ensures forall i :: 0 <= i < |records| ==> linked[i] == LinkedRecord(records[i], index)
  {
    linked := records;
    for i := 0 to |records|
      invariant |linked| == |records|
      invariant forall j :: 0 <= j < i ==> linked[j] == LinkedRecord(records[j], index)
      invariant forall j :: i <= j < |records| ==> linked[j] == records[j]
    {
      var rec := linked[i];
      if rec.status == Inspected && rec.format == Parquet && Components(rec.path) in index {
        linked := linked[i := rec.(datasetId := Some(index[Components(rec.path)]))];
      }
    }
  }

  // ---------------------------------------------------------------- the links are right

  /** Inference sees no difference between spellings of one path. */
  ghost predicate Congruent(c: Context) {
    forall p, q :: Components(p) == Components(q) ==> Alike(c, p, q)
  }

  lemma ScanContextIsCongruent(root: string, m: Inspections, digest: string -> string)
    ensures Congruent(ScanContext(root, m, digest))
    ensures forall p :: Known(ScanContext(root, m, digest), p) <==> Components(p) in m
  {
  }

  lemma IndexIsExact(c: Context, datasets: seq<Dataset>, index: map<Key, string>, i: nat, p: string)
    requires Congruent(c) && Apart(c, datasets) && Indexed(index, datasets)
    requires i < |datasets| && Has(datasets[i], p)
    ensures Components(p) in index && index[Components(p)] == datasets[i].id
  {
    var k := Components(p);
    assert FileOf(datasets, |datasets|, k, index[k]);
    var j, q :| 0 <= j < |datasets| && Has(datasets[j], q) && Components(q) == k && datasets[j].id == index[k];
    AlikeFilesTogether(c, datasets, i, j, p, q);
  }

  lemma {:induction false} ClaimFound(assets: seq<AssetRecord>, n: nat, path: string, id: string, j: nat)
    requires j < n <= |assets| && assets[j].path == path && assets[j].datasetId.Some?
    requires forall i :: 0 <= i < n && assets[i].path == path ==>
             assets[i].datasetId.None? || assets[i].datasetId == Some(id)
    ensures Claims(assets, n, path, id)
  {
    if assets[n-1].path == path && assets[n-1].datasetId.Some? {
      assert LastClaim(assets, n, path, id, n - 1);
    } else {
      ClaimFound(assets, n - 1, path, id, j);
      var i :| LastClaim(assets, n - 1, path, id, i);
      assert LastClaim(assets, n, path, id, i);
    }
  }

  /** What the builders have before linking: inspected records, their paths, the datasets of those. */
  ghost predicate Ready(c: Context, m: Inspections, records: seq<AssetRecord>, paths: seq<string>,
                        datasets: seq<Dataset>, index: map<Key, string>)
  {
    && Registered(m, records)
    && (forall i :: 0 <= i < |records| ==> FreshRecord(records[i]))
    && Congruent(c) && AllKnown(c, paths) && Partition(c, paths, datasets) && Indexed(index, datasets)
    && (forall p :: p in paths ==> SpelledIn(records, p))
    && (forall k :: k in m ==> m[k].path in paths)
  }

  ghost predicate IsLinked(records: seq<AssetRecord>, linked: seq<AssetRecord>, index: map<Key, string>) {
    |linked| == |records| && forall i :: 0 <= i < |records| ==> linked[i] == LinkedRecord(records[i], index)
  }

  lemma IndexedIsClaimed(records: seq<AssetRecord>, index: map<Key, string>, linked: seq<AssetRecord>, p: string,
                         k: Key)
    requires IsLinked(records, linked, index) && forall i :: 0 <= i < |records| ==> FreshRecord(records[i])
    requires k == Components(p) && k in index && SpelledIn(records, p)
    ensures Claims(linked, |linked|, p, index[k])
  {
    var j :| 0 <= j < |records| && InspectedParquet(records[j]) && records[j].path == p;
    assert linked[j] == LinkedRecord(records[j], index);
    forall i | 0 <= i < |linked| && linked[i].path == p
      ensures linked[i].datasetId.None? || linked[i].datasetId == Some(index[k])
    {
      assert linked[i] == LinkedRecord(records[i], index) && FreshRecord(records[i]);
    }
    ClaimFound(linked, |linked|, p, index[k], j);
  }

  lemma FileIsClaimed(c: Context, m: Inspections, records: seq<AssetRecord>, paths: seq<string>, datasets: seq<Dataset>,
                      index: map<Key, string>, linked: seq<AssetRecord>, d: nat, p: string)
    requires Ready(c, m, records, paths, datasets, index) && IsLinked(records, linked, index)
    requires d < |datasets| && Has(datasets[d], p)
    ensures Claims(linked, |linked|, p, datasets[d].id)
  {
    FilesAreTheInspected(c, paths, datasets, p);
    IndexIsExact(c, datasets, index, d, p);
    IndexedIsClaimed(records, index, linked, p, Components(p));
  }

  /** An inspected Parquet record names the dataset that holds its path; any other record names none. */
  ghost predicate RecordLinked(rec: AssetRecord, datasets: seq<Dataset>) {
    && (rec.datasetId.Some? <==> InspectedParquet(rec))
    && (rec.datasetId.Some? ==> FileOf(datasets, |datasets|, Components(rec.path), rec.datasetId.value))
  }

  lemma RecordIsLinked(c: Context, m: Inspections, records: seq<AssetRecord>, paths: seq<string>,
                       datasets: seq<Dataset>, index: map<Key, string>, i: nat)
    requires Ready(c, m, records, paths, datasets, index) && i < |records|
    ensures RecordLinked(LinkedRecord(records[i], index), datasets)
  {
    assert FreshRecord(records[i]);
    if InspectedParquet(records[i]) {
      var k := Components(records[i].path);
      assert m[k].path in paths;
      FilesAreTheInspected(c, paths, datasets, m[k].path);
      var d :| 0 <= d < |datasets| && Has(datasets[d], m[k].path);
      IndexIsExact(c, datasets, index, d, m[k].path);
    }
  }

  // ---------------------------------------------------------------- assembly

  predicate ByCode(a: Finding, b: Finding) {
    Text.AtMost(a.code, b.code)
  }

  function MakeReport(scanId: nat, assets: seq<AssetRecord>, datasets: seq<Dataset>, truncated: bool,
                      findings: seq<Finding>): Report
  {
    var n := |assets|;
    var failed := Count(assets, n, HasStatus(Failed));
    Report(
      scanId,
      scanId,
      Summary(n, n, Count(assets, n, HasStatus(Inspected)), failed, Count(assets, n, HasStatus(Skipped)),
              Count(assets, n, IsMember()), |datasets|, failed > 0 || truncated, truncated, |findings|),
      assets,
      datasets,
      findings)
  }

  /** If the inspection failed, its error text is not blank. */
  ghost predicate Readable(rec: AssetRecord) {
    rec.status == Failed && rec.failureMessage.Some? ==> !Blank(rec.failureMessage.value)
  }

  ghost predicate AllReadable(records: seq<AssetRecord>) {
    forall i :: 0 <= i < |records| ==> Readable(records[i])
  }

  /** A record `rec` of the report is the inspected record with its dataset filled in. */
  ghost predicate Completes(rec: AssetRecord, bare: AssetRecord, datasets: seq<Dataset>) {
    rec == bare.(datasetId := rec.datasetId) && RecordLinked(rec, datasets)
  }

  lemma ReportVerdict(c: Context, m: Inspections, records: seq<AssetRecord>, paths: seq<string>, datasets: seq<Dataset>,
                      index: map<Key, string>, linked: seq<AssetRecord>, scanId: nat, truncated: bool,
                      findings: seq<Finding>)
    requires Ready(c, m, records, paths, datasets, index) && IsLinked(records, linked, index)
    ensures Verdict(MakeReport(scanId, linked, datasets, truncated, findings))
            == if AllReadable(records) then Ok(()) else Err(AssetRecordInconsistent)
    ensures forall i :: 0 <= i < |records| ==> Completes(linked[i], records[i], datasets)
  {
    var report := MakeReport(scanId, linked, datasets, truncated, findings);
    forall i | 0 <= i < |records|
      ensures Completes(linked[i], records[i], datasets)
      ensures RecordOk(linked[i]) <==> Readable(records[i])
    {
      assert linked[i] == LinkedRecord(records[i], index) && FreshRecord(records[i]);
      RecordIsLinked(c, m, records, paths, datasets, index, i);
    }
    assert RecordsOk(linked) <==> AllReadable(records);
    forall d | 0 <= d < |datasets| ensures DatasetLinked(report, d) {
      forall f | 0 <= f < |datasets[d].files| ensures FileLinked(report, d, f) {
        assert PathsOf(datasets[d])[f] == datasets[d].files[f].path;
        FileIsClaimed(c, m, records, paths, datasets, index, linked, d, datasets[d].files[f].path);
      }
    }
    assert AllLinked(report);
    assert CountsOk(report);
  }

  /** The paths of the map, each once. */
  ghost predicate PathsOfMap(m: Inspections, paths: seq<string>) {
    Distinct(paths) && forall p :: p in paths <==> exists k :: k in m && m[k].path == p
  }

  /** The findings of the rules in order of their codes, those with one code in the order given. */
  ghost predicate FindingsOf(findings: seq<Finding>, rules: seq<Finding>) {
    && (forall i, j :: 0 <= i < j < |findings| ==> Text.AtMost(findings[i].code, findings[j].code))
    && forall code :: WithCode(findings, code) == WithCode(rules, code)
  }

  ghost function WithCode(findings: seq<Finding>, code: string): seq<Finding> {
    Select(findings, (f: Finding) => f.code == code)
  }

  lemma SortFindings(rules: seq<Finding>)
    ensures FindingsOf(SortBy(rules, ByCode), rules)
  {
    Text.AtMostIsOrder();
    SortBySorts(rules, ByCode);
    forall code ensures WithCode(SortBy(rules, ByCode), code) == WithCode(rules, code) {
      SortIsStable(rules, ByCode, (f: Finding) => f.code == code);
    }
  }

  /** Infer, link, count, validate: the part the two builders share. */
  method Assemble(scanId: nat, root: string, digest: string -> string, records: seq<AssetRecord>, m: Inspections,
                  truncated: bool, rules: seq<Finding>)
    returns (r: Result<Report, ValidationError>, ghost ok: seq<string>)
    requires Registered(m, records) && forall i :: 0 <= i < |records| ==> FreshRecord(records[i])
    ensures r.Ok? <==> AllReadable(records)
    ensures r.Err? ==> r.error == AssetRecordInconsistent
    ensures PathsOfMap(m, ok)
    ensures r.Ok? ==> Partition(ScanContext(root, m, digest), ok, r.value.datasets)
    ensures r.Ok? ==> IdsAscend(r.value.datasets)
    ensures r.Ok? ==> r.value.requestId == scanId && FindingsOf(r.value.findings, rules)
    ensures r.Ok? ==>
              && Consistent(r.value) && |r.value.assets| == |records| && r.value.summary.truncated == truncated
              && forall i :: 0 <= i < |records| ==> Completes(r.value.assets[i], records[i], r.value.datasets)
  {
    var paths := OkPaths(m);
    ok := paths;
    var c := ScanContext(root, m, digest);
    ScanContextIsCongruent(root, m, digest);
    var datasets := InferDatasets(c, paths);
    var index := IndexFiles(datasets);
    var linked := LinkRecords(records, index);
    var findings := SortBy(rules, ByCode);
    SortFindings(rules);
    var report := MakeReport(scanId, linked, datasets, truncated, findings);
    ReportVerdict(c, m, records, paths, datasets, index, linked, scanId, truncated, findings);
    var verdict := ValidateReport(report);
    r := if verdict.Ok? then Ok(report) else Err(verdict.error);
  }

  // ---------------------------------------------------------------- the builders

  /** Errors of the engine's own kinds always print as readable text. */
  lemma EngineErrorsAreReadable(a: ResolvedAsset, i: nat, inspector: Inspector)
    requires inspector.parquet(i).Err? ==> !inspector.parquet(i).error.Plugin?
    requires inspector.text(i).Err? ==> !inspector.text(i).error.Plugin?
    ensures Readable(LocalRecord(a, i, inspector)) && Readable(RemoteRecord(a, i, inspector))
  {
    if inspector.parquet(i).Err? { OnlyPluginErrorsAreBlank(inspector.parquet(i).error); }
    if inspector.text(i).Err? { OnlyPluginErrorsAreBlank(inspector.text(i).error); }
  }

  /** `ScanEngine::run` from its resolved plan: the report is valid unless an error text is blank. */
  method ScanLocal(scanId: nat, root: string, digest: string -> string, plan: seq<ResolvedAsset>, truncated: bool,
                   inspector: Inspector, rules: seq<Finding>)
    returns (r: Result<Report, ValidationError>, ghost sorted: seq<ResolvedAsset>, ghost m: Inspections,
             ghost ok: seq<string>)
    ensures multiset(sorted) == multiset(plan)
    ensures forall i, j :: 0 <= i < j < |sorted| ==> PathAtMost(sorted[i].path, sorted[j].path)
    ensures MapOf(m, sorted, |sorted|, inspector) && PathsOfMap(m, ok)
    ensures r.Ok? ==> Partition(ScanContext(root, m, digest), ok, r.value.datasets)
    ensures r.Ok? ==> IdsAscend(r.value.datasets)
    ensures r.Ok? ==> r.value.requestId == scanId && FindingsOf(r.value.findings, rules)
    ensures r.Ok? <==> forall i :: 0 <= i < |sorted| ==> Readable(LocalRecord(sorted[i], i, inspector))
    ensures r.Err? ==> r.error == AssetRecordInconsistent
    ensures r.Ok? ==>
              && Consistent(r.value) && |r.value.assets| == |sorted| && r.value.summary.truncated == truncated
              && forall i :: 0 <= i < |sorted| ==>
                   Completes(r.value.assets[i], LocalRecord(sorted[i], i, inspector), r.value.datasets)
  {
    var assets := SortBy(plan, AssetAtMost);
    SortAssets(plan);
    sorted := assets;
    var records, inspections := InspectLocal(assets, inspector);
    forall i | 0 <= i < |assets| ensures FreshRecord(records[i]) { RecordsAreFresh(assets[i], i, inspector); }
    m := inspections;
    r, ok := Assemble(scanId, root, digest, records, inspections, truncated, rules);
  }

  /** `scan_remote_dataset` from its listed objects; only Parquet objects are opened. */
  method ScanRemote(scanId: nat, root: string, digest: string -> string, objects: seq<ResolvedAsset>,
                    inspector: Inspector, rules: seq<Finding>)
    returns (r: Result<Report, ValidationError>, ghost sorted: seq<ResolvedAsset>, ghost m: Inspections,
             ghost ok: seq<string>)
    ensures multiset(sorted) == multiset(objects)
    ensures forall i, j :: 0 <= i < j < |sorted| ==> PathAtMost(sorted[i].path, sorted[j].path)
    ensures MapOf(m, sorted, |sorted|, inspector) && PathsOfMap(m, ok)
    ensures r.Ok? ==> Partition(ScanContext(root, m, digest), ok, r.value.datasets)
    ensures r.Ok? ==> IdsAscend(r.value.datasets)
    ensures r.Ok? ==> r.value.requestId == scanId && FindingsOf(r.value.findings, rules)
    ensures r.Ok? <==> forall i :: 0 <= i < |sorted| ==> Readable(RemoteRecord(sorted[i], i, inspector))
    ensures r.Err? ==> r.error == AssetRecordInconsistent
    ensures r.Ok? ==>
              && Consistent(r.value) && |r.value.assets| == |sorted| && !r.value.summary.truncated
              && forall i :: 0 <= i < |sorted| ==>
                   Completes(r.value.assets[i], RemoteRecord(sorted[i], i, inspector), r.value.datasets)
  {
    var assets := SortBy(objects, AssetAtMost);
    SortAssets(objects);
    sorted := assets;
    var records, inspections := InspectRemote(assets, inspector);
    forall i | 0 <= i < |assets| ensures FreshRecord(records[i]) { RecordsAreFresh(assets[i], i, inspector); }
    m := inspections;
    r, ok := Assemble(scanId, root, digest, records, inspections, false, rules);
  }

  lemma SortAssets(assets: seq<ResolvedAsset>)
    ensures multiset(SortBy(assets, AssetAtMost)) == multiset(assets)
    ensures SortedBy(SortBy(assets, AssetAtMost), AssetAtMost)
  {
    PathOrder();
    assert TotalPreorder(AssetAtMost);
    SortBySorts(assets, AssetAtMost);
  }
}
