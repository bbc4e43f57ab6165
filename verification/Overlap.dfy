/**
 The overlap test that keeps the datasets of a batch apart, checked against what the inventory
 means by an object lying under a dataset.
 */
module Overlap {
  import opened Common
  import opened Text
  import opened Paths
  import opened Locations

  predicate PathsOverlap(a: string, b: string) {
    Components(b) <= Components(a) || Components(a) <= Components(b)
  }

  function NormalizePrefix(prefix: string): string {
    TrimStart(TrimEnd(prefix))
  }

  predicate PrefixesOverlap(a: DatasetLocation, b: DatasetLocation)
    requires a.S3? && b.S3?
  {
    && a.bucket == b.bucket
    && (StartsWith(NormalizePrefix(a.prefix), NormalizePrefix(b.prefix))
        || StartsWith(NormalizePrefix(b.prefix), NormalizePrefix(a.prefix)))
  }

  predicate LocationsOverlap(a: DatasetLocation, b: DatasetLocation) {
    match (a, b)
    case (Local(p), Local(q)) => PathsOverlap(p, q)
    case (S3(_, _), S3(_, _)) => PrefixesOverlap(a, b)
    case _ => false
  }

  predicate UnderBoth(a: DatasetLocation, b: DatasetLocation, o: ObjectLocation) {
    Under(a, o) && Under(b, o)
  }

  ghost predicate ShareAnObject(a: DatasetLocation, b: DatasetLocation) {
    exists o :: UnderBoth(a, b, o)
  }

  // ---------------------------------------------------------------- two locations

  lemma OverlapIsSymmetric(a: DatasetLocation, b: DatasetLocation)
    ensures LocationsOverlap(a, b) == LocationsOverlap(b, a)
  {
  }

  /** A key under a prefix is the prefix or goes on after it with a slash. */
  predicate Extends(p: string, key: string) {
    p == "" || key == p || StartsWith(key, p + "/")
  }

  lemma PrefixesOfOneKey(p: string, q: string, key: string)
    requires Extends(p, key) && Extends(q, key) && p != "" && q != "" && |p| <= |q|
    ensures p <= q
  {
    assert p <= key && q <= key by {
      if key != p { assert p <= p + "/"; }
      if key != q { assert q <= q + "/"; }
    }
  }

  lemma NormalizedPrefixes(a: string, b: string)
    requires TrimEnd(a) != "" && TrimEnd(a) <= TrimEnd(b)
    ensures NormalizePrefix(a) <= NormalizePrefix(b)
  {
    TrimEndIsPrefix(a);
    TrimStartOfLonger(TrimEnd(a), TrimEnd(b));
  }

  /** Two locations that share an object are reported as overlapping. */
  lemma OverlapIsSound(a: DatasetLocation, b: DatasetLocation, o: ObjectLocation)
    requires Under(a, o) && Under(b, o)
    ensures LocationsOverlap(a, b)
  {
    if a.S3? {
      var p, q := TrimEnd(a.prefix), TrimEnd(b.prefix);
      if p != "" && q != "" {
        if |p| <= |q| {
          PrefixesOfOneKey(p, q, o.key);
          NormalizedPrefixes(a.prefix, b.prefix);
        } else {
          PrefixesOfOneKey(q, p, o.key);
          NormalizedPrefixes(b.prefix, a.prefix);
        }
      }
    }
  }

  /** On local paths the test is exact. */
  lemma LocalOverlapIsExact(p: string, q: string)
    ensures LocationsOverlap(Local(p), Local(q)) <==> ShareAnObject(Local(p), Local(q))
  {
    if LocationsOverlap(Local(p), Local(q)) {
      var o := LocalObject(if Components(p) <= Components(q) then q else p);
      assert UnderBoth(Local(p), Local(q), o);
    }
    if ShareAnObject(Local(p), Local(q)) {
      var o :| UnderBoth(Local(p), Local(q), o);
      OverlapIsSound(Local(p), Local(q), o);
    }
  }

  /** When two prefixes of one bucket really share an object. */
  lemma PrefixesShareIff(a: DatasetLocation, b: DatasetLocation)
    requires a.S3? && b.S3?
    ensures ShareAnObject(a, b) <==>
            && a.bucket == b.bucket
            && var p, q := TrimEnd(a.prefix), TrimEnd(b.prefix); Extends(p, q) || Extends(q, p)
  {
    var p, q := TrimEnd(a.prefix), TrimEnd(b.prefix);
    if a.bucket == b.bucket && (Extends(p, q) || Extends(q, p)) {
      var o := S3Object(a.bucket, if Extends(p, q) then q else p);
      assert UnderBoth(a, b, o);
    }
    if o :| UnderBoth(a, b, o) {
      if p != "" && q != "" { ComparablePrefixes(p, q, o.key); }
    }
  }

  lemma ComparablePrefixes(p: string, q: string, key: string)
    requires Extends(p, key) && Extends(q, key) && p != "" && q != ""
    ensures Extends(p, q) || Extends(q, p)
  {
    if |p| == |q| { PrefixesOfOneKey(p, q, key); }
  }

  // ---------------------------------------------------------------- what the test rejects for nothing

  function LeadingSlashes(s: string): nat {
    if s != "" && s[0] == '/' then 1 + LeadingSlashes(s[1..]) else 0
  }

  /** `q` goes on after `p`, but not with a slash. */
  predicate RunsOn(p: string, q: string) {
    p < q && q[|p|] != '/'
  }

  /**
   Two prefixes of one bucket that the test takes for nested although they are not: without their outer
   slashes one begins the other, but it is followed by something else than a slash, or the two do not
   begin with the same number of slashes, which belong to the key.
   */
  predicate Confusable(a: DatasetLocation, b: DatasetLocation) {
    && a.S3? && b.S3? && a.bucket == b.bucket
    && var p, q := TrimEnd(a.prefix), TrimEnd(b.prefix);
    && p != "" && q != ""
    && (TrimStart(p) <= TrimStart(q) || TrimStart(q) <= TrimStart(p))
    && (|| LeadingSlashes(p) != LeadingSlashes(q)
        || RunsOn(TrimStart(p), TrimStart(q))
        || RunsOn(TrimStart(q), TrimStart(p)))
  }

  /** Leading slashes must agree, and the rest is compared without them. */
  lemma {:induction false} ExtendsTrimmed(p: string, q: string)
    requires p != "" && q != "" && p[|p|-1] != '/' && q[|q|-1] != '/'
    ensures TrimStart(p) != ""
    ensures Extends(p, q) <==> LeadingSlashes(p) == LeadingSlashes(q) && Extends(TrimStart(p), TrimStart(q))
  {
    TrimStartOfLonger(p, p);
    if p[0] == '/' && q[0] == '/' {
      ExtendsTrimmed(p[1..], q[1..]);
      assert p == "/" + p[1..] && q == "/" + q[1..];
      assert (p + "/")[1..] == p[1..] + "/";
    } else if Extends(p, q) {
      assert p[0] == q[0];
    }
  }

  lemma BeginsIff(p: string, q: string)
    requires p != ""
    ensures p <= q <==> Extends(p, q) || RunsOn(p, q)
    ensures !(Extends(p, q) && RunsOn(p, q))
  {
    if p < q && q[|p|] == '/' { assert q[..|p| + 1] == p + "/"; }
    if StartsWith(q, p + "/") { assert (p + "/")[|p|] == '/'; }
  }

  /** The test rejects two locations that share nothing exactly when they are confusable; local ones never are. */
  lemma OverlapIsConservative(a: DatasetLocation, b: DatasetLocation)
    ensures LocationsOverlap(a, b) && !ShareAnObject(a, b) <==> Confusable(a, b)
  {
    if a.S3? && b.S3? {
      PrefixesShareIff(a, b);
      var p, q := TrimEnd(a.prefix), TrimEnd(b.prefix);
      if p != "" && q != "" {
        TrimEndIsPrefix(a.prefix);
        TrimEndIsPrefix(b.prefix);
        ExtendsTrimmed(p, q);
        ExtendsTrimmed(q, p);
        BeginsIff(TrimStart(p), TrimStart(q));
        BeginsIff(TrimStart(q), TrimStart(p));
      }
    } else if a.Local? && b.Local? {
      LocalOverlapIsExact(a.path, b.path);
    }
  }

  /** So the test answers whether an object is shared, or the locations are confusable; never both. */
  lemma OverlapIff(a: DatasetLocation, b: DatasetLocation)
    ensures LocationsOverlap(a, b) <==> ShareAnObject(a, b) || Confusable(a, b)
    ensures !(ShareAnObject(a, b) && Confusable(a, b))
  {
    OverlapIsConservative(a, b);
    if o :| UnderBoth(a, b, o) { OverlapIsSound(a, b, o); }
  }

  /** A prefix as a parsed URI has it, without slashes at either end. */
  predicate Bare(prefix: string) {
    prefix == "" || (prefix[0] != '/' && prefix[|prefix|-1] != '/')
  }

  /** For such prefixes it is exact unless one of them, not empty, runs on into the other. */
  lemma ParsedOverlapIsExactIff(a: DatasetLocation, b: DatasetLocation)
    requires a.S3? && b.S3? && Bare(a.prefix) && Bare(b.prefix)
    ensures (LocationsOverlap(a, b) <==> ShareAnObject(a, b)) <==>
            || a.bucket != b.bucket || a.prefix == "" || b.prefix == ""
            || (!RunsOn(a.prefix, b.prefix) && !RunsOn(b.prefix, a.prefix))
  {
    OverlapIff(a, b);
  }

  /** Both causes: another character than a slash, and a leading slash. */
  lemma RejectedForNothing(bucket: string)
    ensures Confusable(S3(bucket, "out"), S3(bucket, "out2")) && Confusable(S3(bucket, "/out"), S3(bucket, "out"))
  {
    assert TrimEnd("out") == "out" && TrimEnd("out2") == "out2" && TrimEnd("/out") == "/out";
    assert "/out"[1..] == "out";
    assert TrimStart("out") == "out" && TrimStart("out2") == "out2" && TrimStart("/out") == "out";
    assert "out2"[..3] == "out";
  }

  // ---------------------------------------------------------------- a batch

  datatype Spec = Spec(id: string, source: DatasetLocation, output: DatasetLocation)
  datatype Side = Source | Output
  datatype Conflict = Own(i: nat) | Cross(i: nat, left: Side, j: nat, right: Side)

  function At(spec: Spec, side: Side): DatasetLocation {
    if side == Source then spec.source else spec.output
  }

  /** The first of the four pairs of two datasets that overlaps. */
  function CrossOverlap(left: Spec, right: Spec): (r: Option<(Side, Side)>)
    ensures r.Some? ==> LocationsOverlap(At(left, r.value.0), At(right, r.value.1))
    ensures r.None? ==> forall s, t :: !LocationsOverlap(At(left, s), At(right, t))
  {
    if LocationsOverlap(left.source, right.source) then Some((Source, Source))
    else if LocationsOverlap(left.source, right.output) then Some((Source, Output))
    else if LocationsOverlap(left.output, right.source) then Some((Output, Source))
    else if LocationsOverlap(left.output, right.output) then Some((Output, Output))
    else None
  }

  function OwnConflict(specs: seq<Spec>, i: nat): (r: Option<Conflict>)
    requires i <= |specs|
    ensures r.None? <==> forall k :: i <= k < |specs| ==> !LocationsOverlap(specs[k].source, specs[k].output)
    ensures r.Some? ==> r.value.Own? && i <= r.value.i < |specs| && Overlapping(specs, r.value)
    decreases |specs| - i
  {
    if i == |specs| then None
    else if LocationsOverlap(specs[i].source, specs[i].output) then Some(Own(i))
    else OwnConflict(specs, i + 1)
  }

  function CrossConflict(specs: seq<Spec>, i: nat, j: nat): (r: Option<Conflict>)
    requires i < j <= |specs|
    ensures r.None? <==> forall l, s, t :: j <= l < |specs| ==> !LocationsOverlap(At(specs[i], s), At(specs[l], t))
    ensures r.Some? ==> r.value.Cross? && r.value.i == i && j <= r.value.j < |specs| && Overlapping(specs, r.value)
    decreases |specs| - j
  {
    if j == |specs| then None
    else
      var c := CrossOverlap(specs[i], specs[j]);
      if c.Some? then Some(Cross(i, c.value.0, j, c.value.1)) else CrossConflict(specs, i, j + 1)
  }

  function RowConflict(specs: seq<Spec>, i: nat): Option<Conflict>
    requires i < |specs|
  {
    CrossConflict(specs, i, i + 1)
  }

  function AnyCrossConflict(specs: seq<Spec>, i: nat): (r: Option<Conflict>)
    requires i <= |specs|
    ensures r.None? <==> forall k :: i <= k < |specs| ==> RowConflict(specs, k).None?
    ensures r.Some? ==> Overlapping(specs, r.value)
    decreases |specs| - i
  {
    if i == |specs| then None
    else
      var c := RowConflict(specs, i);
      if c.Some? then c else AnyCrossConflict(specs, i + 1)
  }

  predicate Overlapping(specs: seq<Spec>, c: Conflict) {
    match c
    case Own(i) => i < |specs| && LocationsOverlap(specs[i].source, specs[i].output)
    case Cross(i, s, j, t) => i < j < |specs| && LocationsOverlap(At(specs[i], s), At(specs[j], t))
  }

  /** `validate_batch_overlap`, naming the conflict it finds first. */
  function ValidateBatchOverlap(specs: seq<Spec>): (r: Result<(), Conflict>)
    ensures r.Err? ==> Overlapping(specs, r.error)
  {
    var own := OwnConflict(specs, 0);
    if own.Some? then Err(own.value)
    else
      var cross := AnyCrossConflict(specs, 0);
      if cross.Some? then Err(cross.value) else Ok(())
  }

  /** Accepted means that no two locations of the batch overlap. */
  lemma AcceptedIff(specs: seq<Spec>)
    ensures ValidateBatchOverlap(specs).Ok? <==>
            forall i, s, j, t :: 0 <= i <= j < |specs| && (i < j || s != t) ==>
                !LocationsOverlap(At(specs[i], s), At(specs[j], t))
  {
    if ValidateBatchOverlap(specs).Ok? {
      forall i, s, j, t | 0 <= i <= j < |specs| && (i < j || s != t)
        ensures !LocationsOverlap(At(specs[i], s), At(specs[j], t))
      {
        if i < j {
          assert RowConflict(specs, i).None?;
        } else {
          assert !LocationsOverlap(specs[i].source, specs[i].output);
          OverlapIsSymmetric(specs[i].source, specs[i].output);
        }
      }
    } else {
      var c := ValidateBatchOverlap(specs).error;
      if c.Own? { assert LocationsOverlap(At(specs[c.i], Source), At(specs[c.i], Output)); }
    }
  }

  /** Every object lies under at most one source or output of the batch. */
  ghost predicate Disjoint(specs: seq<Spec>) {
    forall i, s, j, t, o :: 0 <= i < |specs| && 0 <= j < |specs| && UnderBoth(At(specs[i], s), At(specs[j], t), o)
      ==> i == j && s == t
  }

  lemma AcceptedBatchIsDisjoint(specs: seq<Spec>)
    requires ValidateBatchOverlap(specs).Ok?
    ensures Disjoint(specs)
  {
    AcceptedIff(specs);
    forall i, s, j, t, o | 0 <= i < |specs| && 0 <= j < |specs| && UnderBoth(At(specs[i], s), At(specs[j], t), o)
      ensures i == j && s == t
    {
      OverlapIsSound(At(specs[i], s), At(specs[j], t), o);
      OverlapIsSymmetric(At(specs[i], s), At(specs[j], t));
    }
  }

  ghost predicate NothingShared(specs: seq<Spec>) {
    forall i, s, j, t :: 0 <= i <= j < |specs| && (i < j || s != t) ==> !ShareAnObject(At(specs[i], s), At(specs[j], t))
  }

  lemma DisjointIff(specs: seq<Spec>)
    ensures Disjoint(specs) <==> NothingShared(specs)
  {
    if Disjoint(specs) {
      forall i, s, j, t | 0 <= i <= j < |specs| && (i < j || s != t)
        ensures !ShareAnObject(At(specs[i], s), At(specs[j], t))
      {
        if o :| UnderBoth(At(specs[i], s), At(specs[j], t), o) { assert false; }
      }
    }
    if NothingShared(specs) {
      forall i, s, j, t, o | 0 <= i < |specs| && 0 <= j < |specs| && UnderBoth(At(specs[i], s), At(specs[j], t), o)
        ensures i == j && s == t
      {
        assert UnderBoth(At(specs[j], t), At(specs[i], s), o);
      }
    }
  }

  /**
   A batch of any locations is accepted exactly when that holds and no two of its locations are confusable:
   the exact price of the test.
   */
  lemma AcceptedIffDisjoint(specs: seq<Spec>)
    ensures ValidateBatchOverlap(specs).Ok? <==>
            && Disjoint(specs)
            && forall i, s, j, t :: 0 <= i <= j < |specs| && (i < j || s != t) ==>
               !Confusable(At(specs[i], s), At(specs[j], t))
  {
    AcceptedIff(specs);
    DisjointIff(specs);
    forall i, s, j, t | 0 <= i <= j < |specs| && (i < j || s != t)
      ensures LocationsOverlap(At(specs[i], s), At(specs[j], t)) <==>
              ShareAnObject(At(specs[i], s), At(specs[j], t)) || Confusable(At(specs[i], s), At(specs[j], t))
    {
      OverlapIff(At(specs[i], s), At(specs[j], t));
    }
  }

  /** A batch of local datasets is accepted exactly when it is disjoint. */
  lemma LocalBatchIsExact(specs: seq<Spec>)
    requires forall i :: 0 <= i < |specs| ==> specs[i].source.Local? && specs[i].output.Local?
    ensures ValidateBatchOverlap(specs).Ok? <==> Disjoint(specs)
  {
    AcceptedIffDisjoint(specs);
  }
}
