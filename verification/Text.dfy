/**
 Strings as Rust orders and tests them. UTF-8 keeps code point order, so comparing the bytes of two
 strings is comparing their characters from left to right.
 */
module Text {

  predicate Less(a: string, b: string) {
    |b| > 0 && (|a| == 0 || a[0] < b[0] || (a[0] == b[0] && Less(a[1..], b[1..])))
  }

  predicate AtMost(a: string, b: string) {
    a == b || Less(a, b)
  }

  /** At position `k`, the first where they differ, `a` is at its end or has the smaller character. */
  predicate LessAt(a: string, b: string, k: nat) {
    k <= |a| && k < |b| && a[..k] == b[..k] && (k == |a| || (a[k] as int) < (b[k] as int))
  }

  lemma {:induction false} LessIff(a: string, b: string)
    ensures Less(a, b) <==> exists k: nat :: LessAt(a, b, k)
  {
    if |a| > 0 && |b| > 0 && a[0] == b[0] {
      LessIff(a[1..], b[1..]);
      if k: nat :| LessAt(a[1..], b[1..], k) {
        assert a[..k+1] == [a[0]] + a[1..][..k] && b[..k+1] == [b[0]] + b[1..][..k];
        assert LessAt(a, b, k + 1);
      }
      if k: nat :| LessAt(a, b, k) {
        assert k > 0;
        assert a[1..][..k-1] == a[..k][1..] && b[1..][..k-1] == b[..k][1..];
        assert LessAt(a[1..], b[1..], k - 1);
      }
    } else {
      if Less(a, b) { assert LessAt(a, b, 0); }
      if k: nat :| LessAt(a, b, k) {
        if k > 0 { assert a[..k][0] == b[..k][0]; }
      }
    }
  }

  lemma {:induction false} LessIrreflexive(a: string)
    ensures !Less(a, a)
  {
    if |a| > 0 { LessIrreflexive(a[1..]); }
  }

  lemma {:induction false} LessTransitive(a: string, b: string, c: string)
    requires Less(a, b) && Less(b, c)
    ensures Less(a, c)
  {
    if |a| > 0 && a[0] == b[0] && b[0] == c[0] { LessTransitive(a[1..], b[1..], c[1..]); }
  }

  lemma {:induction false} LessTotal(a: string, b: string)
    ensures a == b || Less(a, b) || Less(b, a)
  {
    if |a| > 0 && |b| > 0 && a[0] == b[0] {
      LessTotal(a[1..], b[1..]);
      if a[1..] == b[1..] { assert a == [a[0]] + a[1..] && b == [b[0]] + b[1..]; }
    }
  }

  lemma LessAsymmetric(a: string, b: string)
    requires Less(a, b)
    ensures !Less(b, a) && a != b
  {
    LessIrreflexive(a);
    if Less(b, a) { LessTransitive(a, b, a); }
  }

  /** `AtMost` is a total order. */
  lemma AtMostIsOrder()
    ensures forall a, b :: AtMost(a, b) || AtMost(b, a)
    ensures forall a, b, c :: AtMost(a, b) && AtMost(b, c) ==> AtMost(a, c)
    ensures forall a, b :: AtMost(a, b) && AtMost(b, a) ==> a == b
  {
    forall a, b ensures AtMost(a, b) || AtMost(b, a) { LessTotal(a, b); }
    forall a, b, c | AtMost(a, b) && AtMost(b, c) ensures AtMost(a, c) {
      if a != b && b != c { LessTransitive(a, b, c); }
    }
    forall a, b | AtMost(a, b) && AtMost(b, a) ensures a == b {
      if a != b { LessAsymmetric(a, b); }
    }
  }

  predicate StartsWith(s: string, prefix: string) {
    prefix <= s
  }

  predicate EndsWith(s: string, suffix: string) {
    |suffix| <= |s| && s[|s|-|suffix|..] == suffix
  }
}
