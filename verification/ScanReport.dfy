/** The scan report, the validator of its cross-field invariants, and redaction before persistence. */
module ScanReport {
  import opened Common

  datatype DataFormat = Parquet | Csv | Json | Ndjson | Unknown
  datatype InspectionStatus = Inspected | Failed | Skipped
  datatype FailureKind = IoError | FormatReadError | ProbeDecodeError | UnsupportedFormat | InternalEngineError

  datatype AssetRecord = AssetRecord(
    path: string,
    format: DataFormat,
    sizeBytes: nat,
    status: InspectionStatus,
    failureKind: Option<FailureKind>,
    failureMessage: Option<string>,
    datasetId: Option<string>,
    probe: Option<string>,
    hints: Option<string>)

  datatype Field = Field(name: string, logicalType: string)
  datatype PartitionSegment = PartitionSegment(key: string, value: string)
  datatype DatasetFile = DatasetFile(path: string, partitions: seq<PartitionSegment>)
  datatype GroupingKind = SingleFile | PathAnchor | PathAnchorPartFilePattern | PathAnchorSchemaSplit
  datatype PartitionLayout = HiveDirectoryKeys | Unpartitioned

  datatype Dataset = Dataset(
    id: string,
    grouping: GroupingKind,
    layout: PartitionLayout,
    files: seq<DatasetFile>,
    schema: Option<seq<Field>>)

  datatype Evidence = Evidence(summary: string, payload: Option<string>)
  datatype Finding = Finding(code: string, evidence: seq<Evidence>)

  datatype Summary = Summary(
    discovered: nat,
    filesScanned: nat,
    inspected: nat,
    failed: nat,
    skipped: nat,
    datasetMembers: nat,
    datasetCount: nat,
    partial: bool,
    truncated: bool,
    findingsTotal: nat)

  datatype Report = Report(
    requestId: nat,
    metadataId: nat,
    summary: Summary,
    assets: seq<AssetRecord>,
    datasets: seq<Dataset>,
    findings: seq<Finding>)

  datatype ValidationError =
    | ScanIdMismatch
    | FindingCountMismatch
    | DatasetCountMismatch
    | PartialInspectionMismatch
    | DiscoveryCountMismatch
    | AssetInspectionMismatch
    | DatasetMembershipMismatch
    | AssetRecordInconsistent

  // ---------------------------------------------------------------- blank text

  /** The characters with the Unicode property White_Space. */
  predicate Space(c: char) {
    || '\U{0009}' <= c <= '\U{000D}'
    || c == '\U{0020}' || c == '\U{0085}' || c == '\U{00A0}' || c == '\U{1680}'
    || '\U{2000}' <= c <= '\U{200A}'
    || c == '\U{2028}' || c == '\U{2029}' || c == '\U{202F}' || c == '\U{205F}' || c == '\U{3000}'
  }

  /** By their code points. */
  lemma SpaceIff(c: char)
    ensures Space(c) <==>
            c as int in {0x9, 0xA, 0xB, 0xC, 0xD, 0x20, 0x85, 0xA0, 0x1680, 0x2000, 0x2001, 0x2002, 0x2003, 0x2004,
                         0x2005, 0x2006, 0x2007, 0x2008, 0x2009, 0x200A, 0x2028, 0x2029, 0x202F, 0x205F, 0x3000}
  {
  }

  function Trim(s: string): string {
    if s == "" then s
    else if Space(s[0]) then Trim(s[1..])
    else if Space(s[|s|-1]) then Trim(s[..|s|-1])
    else s
  }

  ghost predicate Blank(s: string) {
    forall i :: 0 <= i < |s| ==> Space(s[i])
  }

  /** Trimming leaves nothing exactly when every character is white space. */
  lemma {:induction false} TrimEmptyIffBlank(s: string)
    ensures Trim(s) == "" <==> Blank(s)
  {
    if s == "" {
    } else if Space(s[0]) {
      TrimEmptyIffBlank(s[1..]);
      assert s == [s[0]] + s[1..];
    } else if Space(s[|s|-1]) {
      TrimEmptyIffBlank(s[..|s|-1]);
      assert !Blank(s[..|s|-1]) by { assert !Space(s[..|s|-1][0]); }
    }
  }

  // ---------------------------------------------------------------- what a valid report is

  function Count(assets: seq<AssetRecord>, n: nat, want: AssetRecord -> bool): nat
    requires n <= |assets|
  {
    if n == 0 then 0 else Count(assets, n - 1, want) + if want(assets[n-1]) then 1 else 0
  }

  function HasStatus(status: InspectionStatus): AssetRecord -> bool {
    (a: AssetRecord) => a.status == status
  }

  function IsMember(): AssetRecord -> bool {
    (a: AssetRecord) => a.datasetId.Some?
  }

  lemma {:induction false} CountsAddUp(assets: seq<AssetRecord>, n: nat)
    requires n <= |assets|
    ensures Count(assets, n, HasStatus(Inspected)) + Count(assets, n, HasStatus(Failed))
            + Count(assets, n, HasStatus(Skipped)) == n
  {
    if n > 0 { CountsAddUp(assets, n - 1); }
  }

  ghost predicate RecordOk(a: AssetRecord) {
    match a.status
    case Inspected => a.failureKind.None? && a.failureMessage.None?
    case Failed => a.failureKind.Some? && a.failureMessage.Some? && !Blank(a.failureMessage.value)
    case Skipped => a.failureKind.None? && a.failureMessage.None? && a.probe.None? && a.datasetId.None?
  }

  ghost predicate RecordsOk(assets: seq<AssetRecord>) {
    forall i :: 0 <= i < |assets| ==> RecordOk(assets[i])
  }

  /** Position `i` is the last record of `path` that names a dataset, and it names `id`. */
  ghost predicate LastClaim(assets: seq<AssetRecord>, n: nat, path: string, id: string, i: nat)
    requires n <= |assets|
  {
    && i < n && assets[i].path == path && assets[i].datasetId == Some(id)
    && forall j :: i < j < n && assets[j].path == path ==> assets[j].datasetId.None?
  }

  ghost predicate Claims(assets: seq<AssetRecord>, n: nat, path: string, id: string)
    requires n <= |assets|
  {
    exists i :: LastClaim(assets, n, path, id, i)
  }

  ghost predicate FileLinked(report: Report, d: nat, f: nat)
    requires d < |report.datasets| && f < |report.datasets[d].files|
  {
    Claims(report.assets, |report.assets|, report.datasets[d].files[f].path, report.datasets[d].id)
  }

  ghost predicate DatasetLinked(report: Report, d: nat)
    requires d < |report.datasets|
  {
    forall f :: 0 <= f < |report.datasets[d].files| ==> FileLinked(report, d, f)
  }

  ghost predicate AllLinked(report: Report) {
    forall d :: 0 <= d < |report.datasets| ==> DatasetLinked(report, d)
  }

  ghost predicate CountsOk(report: Report) {
    var n := |report.assets|;
    && report.summary.inspected == Count(report.assets, n, HasStatus(Inspected))
    && report.summary.failed == Count(report.assets, n, HasStatus(Failed))
    && report.summary.skipped == Count(report.assets, n, HasStatus(Skipped))
    && report.summary.datasetMembers == Count(report.assets, n, IsMember())
  }

  ghost predicate PartialOk(s: Summary) {
    s.partial <==> s.failed > 0 || s.truncated
  }

  ghost predicate DiscoveryOk(report: Report) {
    report.summary.discovered == |report.assets| && report.summary.filesScanned == |report.assets|
  }

  ghost predicate Consistent(report: Report) {
    && report.metadataId == report.requestId
    && report.summary.findingsTotal == |report.findings|
    && report.summary.datasetCount == |report.datasets|
    && PartialOk(report.summary)
    && DiscoveryOk(report)
    && RecordsOk(report.assets)
    && CountsOk(report)
    && AllLinked(report)
  }

  /** The invariants in the order in which the validator reports them. */
  ghost function Verdict(report: Report): Result<(), ValidationError> {
    if report.metadataId != report.requestId then Err(ScanIdMismatch)
    else if report.summary.findingsTotal != |report.findings| then Err(FindingCountMismatch)
    else if report.summary.datasetCount != |report.datasets| then Err(DatasetCountMismatch)
    else if !PartialOk(report.summary) then Err(PartialInspectionMismatch)
    else if !DiscoveryOk(report) then Err(DiscoveryCountMismatch)
    else if !RecordsOk(report.assets) then Err(AssetRecordInconsistent)
    else if !CountsOk(report) then Err(AssetInspectionMismatch)
    else if !AllLinked(report) then Err(DatasetMembershipMismatch)
    else Ok(())
  }

  // ---------------------------------------------------------------- the validator

  method CheckRecord(a: AssetRecord) returns (ok: bool)
    ensures ok <==> RecordOk(a)
  {
    match a.status {
      case Failed =>
        if a.failureKind.None? { return false; }
        var msg := Trim(a.failureMessage.GetOr(""));
        TrimEmptyIffBlank(a.failureMessage.GetOr(""));
        ok := msg != "";
      case Inspected =>
        ok := a.failureMessage.None? && a.failureKind.None?;
      case Skipped =>
        ok := a.failureMessage.None? && a.failureKind.None? && a.probe.None? && a.datasetId.None?;
    }
  }

  method CountAssets(report: Report) returns (r: Result<(), ValidationError>)
    requires DiscoveryOk(report)
    ensures r == if !RecordsOk(report.assets) then Err(AssetRecordInconsistent)
                 else if !CountsOk(report) then Err(AssetInspectionMismatch)
                 else Ok(())
  {
    var inspected, failed, skipped, members := 0, 0, 0, 0;
    for i := 0 to |report.assets|
      invariant inspected == Count(report.assets, i, HasStatus(Inspected))
      invariant failed == Count(report.assets, i, HasStatus(Failed))
      invariant skipped == Count(report.assets, i, HasStatus(Skipped))
      invariant members == Count(report.assets, i, IsMember())
      invariant forall j :: 0 <= j < i ==> RecordOk(report.assets[j])
    {
      var a := report.assets[i];
      match a.status {
        case Inspected => inspected := inspected + 1;
        case Failed => failed := failed + 1;
        case Skipped => skipped := skipped + 1;
      }
      if a.datasetId.Some? { members := members + 1; }
      var ok := CheckRecord(a);
      if !ok { return Err(AssetRecordInconsistent); }
    }
    var s := report.summary;
    if inspected != s.inspected || failed != s.failed || skipped != s.skipped || members != s.datasetMembers {
      return Err(AssetInspectionMismatch);
    }
    CountsAddUp(report.assets, |report.assets|);
    if inspected + failed + skipped != s.discovered { return Err(AssetInspectionMismatch); }
    return Ok(());
  }

  ghost predicate Recorded(membership: map<string, string>, assets: seq<AssetRecord>, n: nat)
    requires n <= |assets|
  {
    && (forall p :: p in membership ==> Claims(assets, n, p, membership[p]))
    && (forall i :: 0 <= i < n && assets[i].datasetId.Some? ==> assets[i].path in membership)
  }

  lemma RecordedStep(m: map<string, string>, assets: seq<AssetRecord>, n: nat)
    requires n < |assets| && Recorded(m, assets, n)
    ensures Recorded(
              if assets[n].datasetId.Some? then m[assets[n].path := assets[n].datasetId.value] else m, assets, n + 1)
  {
    var a := assets[n];
    var t := if a.datasetId.Some? then m[a.path := a.datasetId.value] else m;
    forall p | p in t ensures Claims(assets, n + 1, p, t[p]) {
      if a.datasetId.Some? && p == a.path {
        assert LastClaim(assets, n + 1, p, t[p], n);
      } else {
        assert Claims(assets, n, p, m[p]);
        var i :| LastClaim(assets, n, p, m[p], i);
        assert LastClaim(assets, n + 1, p, t[p], i);
      }
    }
  }

  /** Looking a path up finds the dataset of its last claim, and only that one. */
  lemma RecordedDecides(m: map<string, string>, assets: seq<AssetRecord>, p: string, id: string)
    requires Recorded(m, assets, |assets|)
    ensures p in m && m[p] == id <==> Claims(assets, |assets|, p, id)
  {
    if Claims(assets, |assets|, p, id) {
      var i :| LastClaim(assets, |assets|, p, id, i);
      assert p in m;
      var j :| LastClaim(assets, |assets|, p, m[p], j);
    }
  }

  method CheckDataset(report: Report, d: nat, membership: map<string, string>) returns (ok: bool)
    requires d < |report.datasets| && Recorded(membership, report.assets, |report.assets|)
    ensures ok <==> DatasetLinked(report, d)
  {
    var ds := report.datasets[d];
    for f := 0 to |ds.files|
      invariant forall j :: 0 <= j < f ==> FileLinked(report, d, j)
    {
      RecordedDecides(membership, report.assets, ds.files[f].path, ds.id);
      if !(ds.files[f].path in membership && membership[ds.files[f].path] == ds.id) {
        assert !FileLinked(report, d, f);
        return false;
      }
      assert FileLinked(report, d, f);
    }
    return true;
  }

  method CheckMembership(report: Report) returns (ok: bool)
    ensures ok <==> AllLinked(report)
  {
    var membership: map<string, string> := map[];
    for i := 0 to |report.assets|
      invariant Recorded(membership, report.assets, i)
    {
      RecordedStep(membership, report.assets, i);
      if report.assets[i].datasetId.Some? {
        membership := membership[report.assets[i].path := report.assets[i].datasetId.value];
      }
    }
    for d := 0 to |report.datasets|
      invariant forall j :: 0 <= j < d ==> DatasetLinked(report, j)
    {
      ok := CheckDataset(report, d, membership);
      if !ok { return; }
    }
    return true;
  }

  /** `validate_report` accepts exactly the consistent reports and names the first broken invariant. */
  method ValidateReport(report: Report) returns (r: Result<(), ValidationError>)
    ensures r.Ok? <==> Consistent(report)
    ensures r == Verdict(report)
  {
    var s := report.summary;
    if report.metadataId != report.requestId { return Err(ScanIdMismatch); }
    if s.findingsTotal != |report.findings| { return Err(FindingCountMismatch); }
    if s.datasetCount != |report.datasets| { return Err(DatasetCountMismatch); }
    var expectPartial := s.failed > 0 || s.truncated;
    if s.partial != expectPartial { return Err(PartialInspectionMismatch); }
    var n := |report.assets|;
    if s.discovered != n || s.filesScanned != n || s.discovered != s.filesScanned {
      return Err(DiscoveryCountMismatch);
    }
    r := CountAssets(report);
    if r.Err? { return; }
    var linked := CheckMembership(report);
    if !linked { return Err(DatasetMembershipMismatch); }
    return Ok(());
  }

  // ---------------------------------------------------------------- redaction

  datatype RedactionPolicy = RedactionPolicy(
    stripHints: bool,
    stripProbe: bool,
    stripPayloads: bool,
    truncateTo: Option<nat>)

  function Truncated(msg: string, max: nat): string {
    if max < |msg| then msg[..max] else msg
  }

  function RedactedAsset(a: AssetRecord, policy: RedactionPolicy): AssetRecord {
    a.(hints := if policy.stripHints then None else a.hints,
       probe := if policy.stripProbe then None else a.probe,
       failureMessage := if policy.truncateTo.Some? && a.failureMessage.Some?
                         then Some(Truncated(a.failureMessage.value, policy.truncateTo.value))
                         else a.failureMessage)
  }

  function WithoutPayload(ev: Evidence): Evidence {
    ev.(payload := None)
  }

  function RedactedFinding(f: Finding, policy: RedactionPolicy): Finding {
    if policy.stripPayloads
    then f.(evidence := seq(|f.evidence|, i requires 0 <= i < |f.evidence| => WithoutPayload(f.evidence[i])))
    else f
  }

  function Redacted(report: Report, policy: RedactionPolicy): Report {
    var assets, findings := report.assets, report.findings;
    report.(assets := seq(|assets|, i requires 0 <= i < |assets| => RedactedAsset(assets[i], policy)),
            findings := seq(|findings|, i requires 0 <= i < |findings| => RedactedFinding(findings[i], policy)))
  }

  method StripEvidence(f: Finding) returns (r: Finding)
    ensures r.code == f.code && |r.evidence| == |f.evidence|
    ensures forall i :: 0 <= i < |f.evidence| ==> r.evidence[i] == WithoutPayload(f.evidence[i])
  {
    r := f;
    for i := 0 to |f.evidence|
      invariant r.code == f.code && |r.evidence| == |f.evidence|
      invariant forall j :: 0 <= j < i ==> r.evidence[j] == WithoutPayload(f.evidence[j])
      invariant forall j :: i <= j < |f.evidence| ==> r.evidence[j] == f.evidence[j]
    {
      r := r.(evidence := r.evidence[i := r.evidence[i].(payload := None)]);
    }
  }

  method RedactAsset(a: AssetRecord, policy: RedactionPolicy) returns (r: AssetRecord)
    ensures r == RedactedAsset(a, policy)
  {
    r := a;
    if policy.stripHints { r := r.(hints := None); }
    if policy.stripProbe { r := r.(probe := None); }
    if policy.truncateTo.Some? && r.failureMessage.Some? {
      var msg := r.failureMessage.value;
      var t := "";
      while |t| < policy.truncateTo.value && |t| < |msg|
        invariant |t| <= policy.truncateTo.value && |t| <= |msg| && t == msg[..|t|]
      {
        t := t + [msg[|t|]];
      }
      assert t == Truncated(msg, policy.truncateTo.value);
      r := r.(failureMessage := Some(t));
    }
  }

  /**
   What the policy may change of a record: hints and probe go exactly when their own switch is set, a message
   is cut off after the limit, and everything else stays.
   */
  ghost predicate AssetEdited(a: AssetRecord, b: AssetRecord, policy: RedactionPolicy) {
    && b == a.(hints := b.hints, probe := b.probe, failureMessage := b.failureMessage)
    && (if policy.stripHints then b.hints.None? else b.hints == a.hints)
    && (if policy.stripProbe then b.probe.None? else b.probe == a.probe)
    && (policy.truncateTo.None? || a.failureMessage.None? ==> b.failureMessage == a.failureMessage)
    && (policy.truncateTo.Some? && a.failureMessage.Some? ==>
          && b.failureMessage.Some? && b.failureMessage.value <= a.failureMessage.value
          && (|a.failureMessage.value| <= policy.truncateTo.value ==> b.failureMessage == a.failureMessage)
          && (|a.failureMessage.value| > policy.truncateTo.value ==>
                |b.failureMessage.value| == policy.truncateTo.value))
  }

  /** Of a finding only the payloads of its evidence may go, and they go exactly when their switch is set. */
  ghost predicate FindingEdited(f: Finding, g: Finding, policy: RedactionPolicy) {
    && g.code == f.code && |g.evidence| == |f.evidence|
    && forall i :: 0 <= i < |f.evidence| ==>
         && g.evidence[i].summary == f.evidence[i].summary
         && g.evidence[i].payload == if policy.stripPayloads then None else f.evidence[i].payload
  }

  /** `apply_redaction_policy` edits a copy of the report, record by record. */
  method ApplyRedactionPolicy(report: Report, policy: RedactionPolicy) returns (r: Report)
    ensures r == Redacted(report, policy)
    ensures r == report.(assets := r.assets, findings := r.findings)
    ensures |r.assets| == |report.assets| && |r.findings| == |report.findings|
    ensures forall i :: 0 <= i < |report.assets| ==> AssetEdited(report.assets[i], r.assets[i], policy)
    ensures forall i :: 0 <= i < |report.findings| ==> FindingEdited(report.findings[i], r.findings[i], policy)
  {
    r := report;
    for i := 0 to |report.assets|
      invariant r == report.(assets := r.assets) && |r.assets| == |report.assets|
      invariant forall j :: 0 <= j < i ==> r.assets[j] == RedactedAsset(report.assets[j], policy)
      invariant forall j :: i <= j < |report.assets| ==> r.assets[j] == report.assets[j]
    {
      var a := RedactAsset(r.assets[i], policy);
      r := r.(assets := r.assets[i := a]);
    }
    ghost var assets := r.assets;
    if policy.stripPayloads {
      for i := 0 to |report.findings|
        invariant r == report.(assets := assets, findings := r.findings) && |r.findings| == |report.findings|
        invariant forall j :: 0 <= j < i ==> r.findings[j] == RedactedFinding(report.findings[j], policy)
        invariant forall j :: i <= j < |report.findings| ==> r.findings[j] == report.findings[j]
      {
        var f := StripEvidence(r.findings[i]);
        assert f.evidence == RedactedFinding(r.findings[i], policy).evidence;
        r := r.(findings := r.findings[i := f]);
      }
    }
    assert r.assets == Redacted(report, policy).assets;
    assert r.findings == Redacted(report, policy).findings;
  }

  /** Some character within the limit is not white space. */
  ghost predicate StillReadable(a: AssetRecord, policy: RedactionPolicy) {
    policy.truncateTo.Some? && a.failureMessage.Some? ==>
      exists i :: 0 <= i < |a.failureMessage.value| && i < policy.truncateTo.value && !Space(a.failureMessage.value[i])
  }

  lemma {:induction false} RedactionKeepsCounts(report: Report, policy: RedactionPolicy, n: nat,
                                                want: AssetRecord -> bool)
    requires n <= |report.assets|
    requires forall a :: want(RedactedAsset(a, policy)) <==> want(a)
    ensures Count(Redacted(report, policy).assets, n, want) == Count(report.assets, n, want)
  {
    if n > 0 { RedactionKeepsCounts(report, policy, n - 1, want); }
  }

  lemma RedactionKeepsLinks(report: Report, policy: RedactionPolicy)
    ensures AllLinked(report) ==> AllLinked(Redacted(report, policy))
  {
    var t := Redacted(report, policy);
    if AllLinked(report) {
      forall d | 0 <= d < |t.datasets| ensures DatasetLinked(t, d) {
        assert DatasetLinked(report, d);
        forall f | 0 <= f < |t.datasets[d].files| ensures FileLinked(t, d, f) {
          assert FileLinked(report, d, f);
          var p, id := t.datasets[d].files[f].path, t.datasets[d].id;
          var i :| LastClaim(report.assets, |report.assets|, p, id, i);
          assert LastClaim(t.assets, |t.assets|, p, id, i);
        }
      }
    }
  }

  /**
   Redacting a valid report gives a valid report exactly when every failed asset keeps a readable
   character within the truncation limit.
   */
  lemma RedactionKeepsValidity(report: Report, policy: RedactionPolicy)
    requires Consistent(report)
    ensures Consistent(Redacted(report, policy)) <==>
            forall i :: 0 <= i < |report.assets| && report.assets[i].status == Failed ==>
                StillReadable(report.assets[i], policy)
  {
    var t := Redacted(report, policy);
    var n := |report.assets|;
    RedactionKeepsCounts(report, policy, n, HasStatus(Inspected));
    RedactionKeepsCounts(report, policy, n, HasStatus(Failed));
    RedactionKeepsCounts(report, policy, n, HasStatus(Skipped));
    RedactionKeepsCounts(report, policy, n, IsMember());
    RedactionKeepsLinks(report, policy);
    forall i | 0 <= i < n
      ensures RecordOk(t.assets[i]) <==> (report.assets[i].status == Failed ==> StillReadable(report.assets[i], policy))
    {
      assert RecordOk(report.assets[i]);
    }
    assert Consistent(t) <==> RecordsOk(t.assets);
  }

  /** Redacting twice is redacting once. */
  lemma RedactionIsIdempotent(report: Report, policy: RedactionPolicy)
    ensures Redacted(Redacted(report, policy), policy) == Redacted(report, policy)
  {
    var t := Redacted(report, policy);
    var u := Redacted(t, policy);
    forall i | 0 <= i < |t.findings| ensures u.findings[i] == t.findings[i] {
      assert u.findings[i].evidence == t.findings[i].evidence;
    }
    assert u.assets == t.assets;
    assert u.findings == t.findings;
  }
}
