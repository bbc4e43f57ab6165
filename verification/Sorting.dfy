/** The standard library's stable sort, as insertion from the right. */
module Sorting {

  ghost predicate TotalPreorder<T(!new)>(le: (T, T) -> bool) {
    && (forall a, b :: le(a, b) || le(b, a))
    && (forall a, b, c :: le(a, b) && le(b, c) ==> le(a, c))
  }

  ghost predicate SortedBy<T>(s: seq<T>, le: (T, T) -> bool) {
    forall i, j :: 0 <= i < j < |s| ==> le(s[i], s[j])
  }

  function Insert<T>(x: T, s: seq<T>, le: (T, T) -> bool): seq<T> {
    if s == [] || le(x, s[0]) then [x] + s else [s[0]] + Insert(x, s[1..], le)
  }

  function SortBy<T>(s: seq<T>, le: (T, T) -> bool): seq<T> {
    if s == [] then [] else Insert(s[0], SortBy(s[1..], le), le)
  }

  lemma {:induction false} InsertKeepsElements<T>(x: T, s: seq<T>, le: (T, T) -> bool)
    ensures multiset(Insert(x, s, le)) == multiset{x} + multiset(s)
  {
    if s != [] && !le(x, s[0]) {
      InsertKeepsElements(x, s[1..], le);
      assert s == [s[0]] + s[1..];
    }
  }

  lemma InsertElement<T>(x: T, s: seq<T>, le: (T, T) -> bool, k: nat)
    requires k < |Insert(x, s, le)|
    ensures Insert(x, s, le)[k] == x || Insert(x, s, le)[k] in s
  {
    InsertKeepsElements(x, s, le);
    assert Insert(x, s, le)[k] in multiset(Insert(x, s, le));
  }

  lemma {:induction false} InsertSorts<T(!new)>(x: T, s: seq<T>, le: (T, T) -> bool)
    requires TotalPreorder(le) && SortedBy(s, le)
    ensures SortedBy(Insert(x, s, le), le)
  {
    if s != [] && !le(x, s[0]) {
      var rest := Insert(x, s[1..], le);
      InsertSorts(x, s[1..], le);
      forall k | 0 <= k < |rest| ensures le(s[0], rest[k]) { InsertElement(x, s[1..], le, k); }
    }
  }

  /** Sorting permutes, and the result is in order. */
  lemma {:induction false} SortBySorts<T(!new)>(s: seq<T>, le: (T, T) -> bool)
    requires TotalPreorder(le)
    ensures multiset(SortBy(s, le)) == multiset(s)
    ensures SortedBy(SortBy(s, le), le)
  {
    if s != [] {
      SortBySorts(s[1..], le);
      InsertKeepsElements(s[0], SortBy(s[1..], le), le);
      InsertSorts(s[0], SortBy(s[1..], le), le);
      assert s == [s[0]] + s[1..];
    }
  }

  /** The elements that pass a test, in order. */
  ghost function Select<T>(s: seq<T>, keep: T -> bool): seq<T> {
    if s == [] then [] else (if keep(s[0]) then [s[0]] else []) + Select(s[1..], keep)
  }

  /** The elements of this kind all tie. */
  ghost predicate Ties<T(!new)>(s: seq<T>, le: (T, T) -> bool, same: T -> bool) {
    forall a, b :: a in s && b in s && same(a) && same(b) ==> le(a, b)
  }

  lemma {:induction false} InsertIsStable<T(!new)>(x: T, s: seq<T>, le: (T, T) -> bool, same: T -> bool)
    requires Ties([x] + s, le, same)
    ensures Select(Insert(x, s, le), same) == Select([x] + s, same)
  {
    assert ([x] + s)[1..] == s;
    if s != [] && !le(x, s[0]) {
      assert forall a :: a in [x] + s[1..] ==> a in [x] + s;
      InsertIsStable(x, s[1..], le, same);
      var rest := Insert(x, s[1..], le);
      assert ([s[0]] + rest)[1..] == rest && ([x] + s[1..])[1..] == s[1..];
      assert x in [x] + s && s[0] in [x] + s && !(same(x) && same(s[0]));
    }
  }

  /** Elements that tie with each other keep their order. */
  lemma {:induction false} SortIsStable<T(!new)>(s: seq<T>, le: (T, T) -> bool, same: T -> bool)
    requires Ties(s, le, same)
    ensures Select(SortBy(s, le), same) == Select(s, same)
  {
    if s != [] {
      var rest := SortBy(s[1..], le);
      SortKeepsElements(s[1..], le);
      SameElements(rest, s[1..]);
      SortIsStable(s[1..], le, same);
      assert forall a :: a in [s[0]] + rest ==> a in s;
      InsertIsStable(s[0], rest, le, same);
      assert ([s[0]] + rest)[1..] == rest;
    }
  }

  lemma {:induction false} SortKeepsElements<T>(s: seq<T>, le: (T, T) -> bool)
    ensures multiset(SortBy(s, le)) == multiset(s)
  {
    if s != [] {
      SortKeepsElements(s[1..], le);
      InsertKeepsElements(s[0], SortBy(s[1..], le), le);
      assert s == [s[0]] + s[1..];
    }
  }

  lemma SameElements<T>(s: seq<T>, t: seq<T>)
    requires multiset(s) == multiset(t)
    ensures |s| == |t|
    ensures forall x :: x in s <==> x in t
  {
    assert |multiset(s)| == |s| && |multiset(t)| == |t|;
    forall x ensures x in s <==> x in t {
      assert x in s <==> x in multiset(s);
      assert x in t <==> x in multiset(t);
    }
  }

  ghost predicate Distinct<T>(s: seq<T>) {
    forall i, j :: 0 <= i < j < |s| ==> s[i] != s[j]
  }

  lemma DistinctPrefix<T>(s: seq<T>, k: nat)
    requires Distinct(s) && k < |s|
    ensures s[k] !in s[..k]
  {
    assert forall i :: 0 <= i < k ==> s[..k][i] == s[i];
  }

  lemma {:induction false} DistinctIsSet<T>(s: seq<T>)
    ensures Distinct(s) <==> |set x | x in s| == |s|
    ensures |set x | x in s| <= |s|
  {
    if s == [] {
      assert (set x | x in s) == {};
    } else {
      var front := s[..|s|-1];
      var last := s[|s|-1];
      DistinctIsSet(front);
      assert s == front + [last];
      assert (set x | x in s) == (set x | x in front) + {last};
      if last in front {
        assert (set x | x in s) == (set x | x in front);
      } else {
        assert forall i :: 0 <= i < |front| ==> s[i] == front[i] && s[i] in front;
      }
    }
  }

  lemma SubsetSize<T>(a: set<T>, b: set<T>)
    requires a <= b
    ensures |a| <= |b|
    ensures |a| == |b| ==> a == b
  {
    assert b == a + (b - a);
    assert |b| == |a| + |b - a|;
  }

  /** Distinct elements occur exactly once. */
  lemma {:induction false} DistinctCounts<T>(s: seq<T>)
    requires Distinct(s)
    ensures forall x :: multiset(s)[x] == if x in s then 1 else 0
  {
    if s != [] {
      var front := s[..|s|-1];
      DistinctCounts(front);
      assert s == front + [s[|s|-1]];
      assert forall i :: 0 <= i < |front| ==> front[i] == s[i];
    }
  }

  lemma DistinctFromMultiset<T>(s: seq<T>, t: seq<T>)
    requires multiset(s) == multiset(t) && Distinct(s)
    ensures Distinct(t)
  {
    SameElements(s, t);
    DistinctIsSet(s);
    DistinctIsSet(t);
    assert (set x | x in s) == (set x | x in t);
  }

  /** No two elements tie. */
  ghost predicate Separates<T(!new)>(le: (T, T) -> bool, s: seq<T>) {
    forall a, b :: a in s && b in s && le(a, b) && le(b, a) ==> a == b
  }

  lemma HeadsAgree<T(!new)>(s: seq<T>, t: seq<T>, le: (T, T) -> bool)
    requires s != [] && t != [] && s[0] in t && t[0] in s
    requires SortedBy(s, le) && SortedBy(t, le) && Separates(le, s)
    ensures s[0] == t[0]
  {
    var k :| 0 <= k < |t| && t[k] == s[0];
    var m :| 0 <= m < |s| && s[m] == t[0];
  }

  lemma TailElements<T>(s: seq<T>)
    requires s != []
    ensures multiset(s[1..]) == multiset(s) - multiset{s[0]}
  {
    assert s == [s[0]] + s[1..];
  }

  /** What holds of two sequences with the same elements, both in order, holds of their tails. */
  lemma TailsAgree<T(!new)>(s: seq<T>, t: seq<T>, le: (T, T) -> bool)
    requires s != [] && t != [] && multiset(s) == multiset(t)
    requires SortedBy(s, le) && SortedBy(t, le) && Separates(le, s)
    ensures s[0] == t[0] && multiset(s[1..]) == multiset(t[1..])
    ensures SortedBy(s[1..], le) && SortedBy(t[1..], le) && Separates(le, s[1..])
  {
    SameElements(s, t);
    HeadsAgree(s, t, le);
    TailElements(s);
    TailElements(t);
  }

  /** Two sequences with the same elements, both sorted by an order that separates them, are equal. */
  lemma {:induction false} SortedIsUnique<T(!new)>(s: seq<T>, t: seq<T>, le: (T, T) -> bool)
    requires multiset(s) == multiset(t)
    requires SortedBy(s, le) && SortedBy(t, le) && Separates(le, s)
    ensures s == t
  {
    assert |multiset(s)| == |s| && |multiset(t)| == |t|;
    if s != [] {
      var a, b := s[1..], t[1..];
      TailsAgree(s, t, le);
      SortedIsUnique(a, b, le);
      assert s == [s[0]] + a && t == [t[0]] + b;
    }
  }
}
