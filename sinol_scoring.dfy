/**
 * Ordering of names in natural order and the distribution of a problem's total score over
 * its scored test groups.
 *
 * The natural-order key of the system is not part of this model: the order is a comparator
 * `before` given by the caller, and sorting by it is a stable insertion sort (Python's
 * `sorted` is stable): elements that tie keep the order they had in the input.
 */
module SinolScoring {
  import opened Text

  /**
   * `before` is a strict weak order, as comparing sort keys gives: irreflexive, transitive,
   * and "not before" is transitive too (ties between keys are an equivalence).
   */
  ghost predicate StrictWeakOrder(before: (string, string) -> bool)
  {
    && (forall a :: !before(a, a))
    && (forall a, b, c :: before(a, b) && before(b, c) ==> before(a, c))
    && (forall a, b, c :: !before(a, b) && !before(b, c) ==> !before(a, c))
  }

  /** No later element comes strictly before an earlier one. */
  predicate SortedBy(s: seq<string>, before: (string, string) -> bool)
  {
    forall i, j :: 0 <= i < j < |s| ==> !before(s[j], s[i])
  }

  /**
   * Puts `x` in front of the first element that does not come strictly before it, so `x` goes
   * ahead of the elements it ties with.
   */
  function Insert(x: string, s: seq<string>, before: (string, string) -> bool): (r: seq<string>)
    ensures multiset(r) == multiset(s) + multiset{x}
    ensures |r| == |s| + 1
  {
    if s == [] then [x]
    else if !before(s[0], x) then [x] + s
    else
      assert s == [s[0]] + s[1..];
      [s[0]] + Insert(x, s[1..], before)
  }

  /** `sorted(s, key=naturalsort_key)`. */
  function NaturalSorted(s: seq<string>, before: (string, string) -> bool): (r: seq<string>)
    ensures multiset(r) == multiset(s)
    ensures |r| == |s|
  {
    if s == [] then []
    else
      assert s == [s[0]] + s[1..];
      Insert(s[0], NaturalSorted(s[1..], before), before)
  }

  lemma {:induction false} InsertSorted(x: string, s: seq<string>, before: (string, string) -> bool)
    requires StrictWeakOrder(before) && SortedBy(s, before)
    ensures SortedBy(Insert(x, s, before), before)
  {
    if s != [] {
      if !before(s[0], x) {
        InsertFront(x, s, before);
      } else {
        InsertSorted(x, s[1..], before);
        assert !before(x, s[0]);
        InsertBehind(x, s, before);
      }
    }
  }

  /** An element that the head of a sorted sequence does not come before may go in front of it. */
  lemma InsertFront(x: string, s: seq<string>, before: (string, string) -> bool)
    requires StrictWeakOrder(before) && SortedBy(s, before) && s != [] && !before(s[0], x)
    ensures SortedBy([x] + s, before)
  {
    forall j | 0 <= j < |s| ensures !before(s[j], x) {
      assert !before(s[j], s[0]);
    }
    var r := [x] + s;
    forall i, j | 0 <= i < j < |r| ensures !before(r[j], r[i]) {
      assert r[j] == s[j - 1];
      if i > 0 {
        assert r[i] == s[i - 1];
      }
    }
  }

  /** Inserting behind a head that comes strictly before `x` keeps the head first. */
  lemma InsertBehind(x: string, s: seq<string>, before: (string, string) -> bool)
    requires SortedBy(s, before) && s != [] && before(s[0], x) && !before(x, s[0])
    requires SortedBy(Insert(x, s[1..], before), before)
    ensures SortedBy(Insert(x, s, before), before)
  {
    var r := Insert(x, s, before);
    var tail := Insert(x, s[1..], before);
    assert r == [s[0]] + tail;
    forall j | 0 < j < |r|
      ensures !before(r[j], s[0])
    {
      assert r[j] in multiset(tail);
      assert r[j] == x || r[j] in multiset(s[1..]);
      if r[j] != x {
        var k :| 0 <= k < |s[1..]| && s[1..][k] == r[j];
        assert s[k + 1] == r[j];
      }
    }
  }

  /** Given a strict weak order, the result really is sorted. */
  lemma {:induction false} NaturalSortedIsSorted(s: seq<string>, before: (string, string) -> bool)
    requires StrictWeakOrder(before)
    ensures SortedBy(NaturalSorted(s, before), before)
  {
    if s != [] {
      NaturalSortedIsSorted(s[1..], before);
      InsertSorted(s[0], NaturalSorted(s[1..], before), before);
    }
  }

  /** `a` occurs at some position of `r` ahead of a position holding `b`. */
  ghost predicate Precedes(r: seq<string>, a: string, b: string)
  {
    exists p, q :: 0 <= p < q < |r| && r[p] == a && r[q] == b
  }

  /** Where `Insert` puts `x`: in front of the first element that does not come strictly before it. */
  function InsertionPoint(x: string, s: seq<string>, before: (string, string) -> bool): (k: nat)
    ensures k <= |s|
    ensures forall j :: 0 <= j < k ==> before(s[j], x)
    ensures k < |s| ==> !before(s[k], x)
  {
    if s == [] || !before(s[0], x) then 0
    else 1 + InsertionPoint(x, s[1..], before)
  }

  /** `Insert` puts `x` at its insertion point; the elements ahead stay put and the others move up one. */
  lemma {:induction false} InsertSplices(x: string, s: seq<string>, before: (string, string) -> bool)
    ensures var k := InsertionPoint(x, s, before);
            var r := Insert(x, s, before);
            && r[k] == x
            && (forall j :: 0 <= j < k ==> r[j] == s[j])
            && (forall j :: k <= j < |s| ==> r[j + 1] == s[j])
  {
    if s != [] && before(s[0], x) {
      var t := s[1..];
      InsertSplices(x, t, before);
      assert s == [s[0]] + t;
      SpliceStep(x, s[0], t, Insert(x, t, before), InsertionPoint(x, t, before));
    }
  }

  /** Putting one element in front of both sequences moves the splice point up one. */
  lemma SpliceStep(x: string, head: string, t: seq<string>, rt: seq<string>, k: nat)
    requires k <= |t| && |rt| == |t| + 1 && rt[k] == x
    requires forall j :: 0 <= j < k ==> rt[j] == t[j]
    requires forall j :: k <= j < |t| ==> rt[j + 1] == t[j]
    ensures var s := [head] + t;
            var r := [head] + rt;
            && r[k + 1] == x
            && (forall j :: 0 <= j < k + 1 ==> r[j] == s[j])
            && (forall j :: k + 1 <= j < |s| ==> r[j + 1] == s[j])
  {
  }

  /** Inserting keeps the relative order of the elements already there. */
  lemma InsertKeepsOrder(x: string, s: seq<string>, before: (string, string) -> bool, a: string, b: string)
    requires Precedes(s, a, b)
    ensures Precedes(Insert(x, s, before), a, b)
  {
    var k := InsertionPoint(x, s, before);
    InsertSplices(x, s, before);
    var r := Insert(x, s, before);
    var p, q :| 0 <= p < q < |s| && s[p] == a && s[q] == b;
    var p' := if p < k then p else p + 1;
    var q' := if q < k then q else q + 1;
    assert r[p'] == a && r[q'] == b;
  }

  /** The inserted element goes ahead of every element it ties with. */
  lemma InsertAheadOfTies(x: string, s: seq<string>, before: (string, string) -> bool, j: nat)
    requires j < |s| && !before(s[j], x)
    ensures Precedes(Insert(x, s, before), x, s[j])
  {
    var k := InsertionPoint(x, s, before);
    InsertSplices(x, s, before);
    var r := Insert(x, s, before);
    assert r[k] == x && r[j + 1] == s[j];
  }

  /**
   * Stability: of two elements that tie (neither comes strictly before the other), the earlier
   * one in the input is also the earlier one in the result.
   */
  lemma {:induction false} NaturalSortedStable(s: seq<string>, before: (string, string) -> bool)
    ensures forall i, j :: 0 <= i < j < |s| && !before(s[i], s[j]) && !before(s[j], s[i]) ==>
              Precedes(NaturalSorted(s, before), s[i], s[j])
  {
    if s != [] {
      NaturalSortedStable(s[1..], before);
      var t := NaturalSorted(s[1..], before);
      forall i, j | 0 <= i < j < |s| && !before(s[i], s[j]) && !before(s[j], s[i])
        ensures Precedes(NaturalSorted(s, before), s[i], s[j])
      {
        if i == 0 {
          assert s[j] in multiset(t) by { assert s[1..][j - 1] == s[j]; }
          var m :| 0 <= m < |t| && t[m] == s[j];
          InsertAheadOfTies(s[0], t, before, m);
        } else {
          assert s[1..][i - 1] == s[i] && s[1..][j - 1] == s[j];
          InsertKeepsOrder(s[0], t, before, s[i], s[j]);
        }
      }
    }
  }

  /** `before` decides between any two different elements of `s`: no two of them tie. */
  predicate Separates(before: (string, string) -> bool, s: seq<string>)
  {
    forall x, y :: x in s && y in s && x != y ==> before(x, y) || before(y, x)
  }

  /** Two sorted sequences with the same elements, none repeated and none tied, are equal. */
  lemma {:induction false} SortedUnique(a: seq<string>, b: seq<string>, before: (string, string) -> bool)
    requires SortedBy(a, before) && SortedBy(b, before) && Distinct(a)
    requires multiset(a) == multiset(b) && Separates(before, a)
    ensures a == b
  {
    if a != [] {
      assert |b| == |a| by { assert |multiset(b)| == |multiset(a)|; }
      SortedHeads(a, b, before);
      SameTails(a, b);
      forall x, y | x in a[1..] && y in a[1..] && x != y ensures before(x, y) || before(y, x) {
        assert x in a && y in a;
      }
      SortedUnique(a[1..], b[1..], before);
      assert a == [a[0]] + a[1..] && b == [b[0]] + b[1..];
    }
  }

  /** Sorted sequences with the same elements, none tied, start with the same element. */
  lemma SortedHeads(a: seq<string>, b: seq<string>, before: (string, string) -> bool)
    requires SortedBy(a, before) && SortedBy(b, before) && a != [] && b != []
    requires multiset(a) == multiset(b) && Separates(before, a)
    ensures a[0] == b[0]
  {
    assert a[0] in multiset(b) && b[0] in multiset(a);
    var i :| 0 <= i < |a| && a[i] == b[0];
    var j :| 0 <= j < |b| && b[j] == a[0];
    assert i == 0 || !before(b[0], a[0]);
    assert j == 0 || !before(a[0], b[0]);
  }

  /** Equal multisets with equal heads have equal tails. */
  lemma SameTails(a: seq<string>, b: seq<string>)
    requires a != [] && b != [] && a[0] == b[0] && multiset(a) == multiset(b)
    ensures multiset(a[1..]) == multiset(b[1..])
  {
    assert a == [a[0]] + a[1..] && b == [b[0]] + b[1..];
    assert multiset(a) == multiset{a[0]} + multiset(a[1..]);
    assert multiset(b) == multiset{b[0]} + multiset(b[1..]);
    assert multiset(a[1..]) == multiset(a) - multiset{a[0]};
    assert multiset(b[1..]) == multiset(b) - multiset{b[0]};
  }

  /**
   * Sorting a repetition-free sequence whose elements the order separates gives the same result
   * whatever order the elements came in, for instance the iteration order of a Python set.
   */
  lemma NaturalSortedOrderFree(a: seq<string>, b: seq<string>, before: (string, string) -> bool)
    requires StrictWeakOrder(before) && Distinct(a) && multiset(a) == multiset(b) && Separates(before, a)
    ensures NaturalSorted(a, before) == NaturalSorted(b, before)
  {
    var sa := NaturalSorted(a, before);
    var sb := NaturalSorted(b, before);
    NaturalSortedIsSorted(a, before);
    NaturalSortedIsSorted(b, before);
    NaturalSortedDistinct(a, before);
    forall x, y | x in sa && y in sa && x != y ensures before(x, y) || before(y, x) {
      assert x in multiset(a) && y in multiset(a);
    }
    SortedUnique(sa, sb, before);
  }

  lemma SameElements(s: seq<string>, r: seq<string>)
    requires multiset(r) == multiset(s)
    ensures Elements(r) == Elements(s)
  {
    forall x ensures x in r <==> x in s {
      assert x in r <==> x in multiset(r);
      assert x in s <==> x in multiset(s);
    }
  }

  /** Sorting keeps a repetition-free sequence free of repetitions. */
  lemma {:induction false} NaturalSortedDistinct(s: seq<string>, before: (string, string) -> bool)
    requires Distinct(s)
    ensures Distinct(NaturalSorted(s, before))
  {
    if s != [] {
      NaturalSortedDistinct(s[1..], before);
      var t := NaturalSorted(s[1..], before);
      assert s[0] !in s[1..];
      assert s[0] !in multiset(t);
      InsertDistinct(s[0], t, before);
    }
  }

  lemma {:induction false} InsertDistinct(x: string, s: seq<string>, before: (string, string) -> bool)
    requires Distinct(s) && x !in s
    ensures Distinct(Insert(x, s, before))
  {
    if s != [] && before(s[0], x) {
      InsertDistinct(x, s[1..], before);
      var tail := Insert(x, s[1..], before);
      assert s[0] !in multiset(tail) by {
        assert s[0] != x && s[0] !in s[1..];
      }
      assert Insert(x, s, before) == [s[0]] + tail;
    }
  }

  // ---------------------------------------------------------------------------
  // Score distribution

  /** `total_score / num_groups` (Python 2 division; both operands are non-negative, so it agrees with Dafny's). */
  function BaseScore(total: nat, n: nat): nat
    requires n > 0
  {
    total / n
  }

  /** `total_score - num_groups * group_score`: how many groups get one extra point. */
  function ExtraCount(total: nat, n: nat): (r: nat)
    requires n > 0
    ensures r < n && n * BaseScore(total, n) + r == total
  {
    total - n * BaseScore(total, n)
  }

  /**
   * The score of group `g`, given the scored groups in natural order: the base score, plus one
   * when `g` is among the last `ExtraCount` groups.
   */
  function GroupScore(g: string, sorted: seq<string>, total: nat): nat
    requires |sorted| > 0
  {
    var n := |sorted|;
    var base := BaseScore(total, n);
    if g in sorted[n - ExtraCount(total, n)..] then base + 1 else base
  }

  lemma InSuffix(s: seq<string>, from: nat, x: string)
    requires from <= |s|
    ensures x in s[from..] <==> exists j :: from <= j < |s| && s[j] == x
  {
    if x in s[from..] {
      var i :| 0 <= i < |s| - from && s[from..][i] == x;
      assert s[from + i] == x;
    }
    if exists j :: from <= j < |s| && s[j] == x {
      var j :| from <= j < |s| && s[j] == x;
      assert s[from..][j - from] == x;
    }
  }

  /** The group at position `k` of the natural order gets the extra point exactly when it is among the last `ExtraCount` positions. */
  lemma GroupScoreAt(sorted: seq<string>, total: nat, k: nat)
    requires Distinct(sorted) && k < |sorted|
    ensures var n := |sorted|;
            GroupScore(sorted[k], sorted, total)
            == BaseScore(total, n) + (if k >= n - ExtraCount(total, n) then 1 else 0)
  {
    InSuffix(sorted, |sorted| - ExtraCount(total, |sorted|), sorted[k]);
  }

  /** Sum of the scores of the groups in `gs`. */
  function SumScores(gs: seq<string>, sorted: seq<string>, total: nat): nat
    requires |sorted| > 0
  {
    if gs == [] then 0 else GroupScore(gs[0], sorted, total) + SumScores(gs[1..], sorted, total)
  }

  lemma {:induction false} SumScoresSuffix(sorted: seq<string>, total: nat, k: nat)
    requires Distinct(sorted) && 0 < |sorted| && k <= |sorted|
    decreases |sorted| - k
    ensures SumScores(sorted[k..], sorted, total)
            == (|sorted| - k) * BaseScore(total, |sorted|)
               + (if k >= |sorted| - ExtraCount(total, |sorted|) then |sorted| - k else ExtraCount(total, |sorted|))
  {
    var n := |sorted|;
    var base := BaseScore(total, n);
    if k < n {
      SumScoresSuffix(sorted, total, k + 1);
      GroupScoreAt(sorted, total, k);
      assert sorted[k..][1..] == sorted[k + 1..];
      assert SumScores(sorted[k..], sorted, total)
             == GroupScore(sorted[k], sorted, total) + SumScores(sorted[k + 1..], sorted, total);
      assert (n - k) * base == base + (n - (k + 1)) * base;
    }
  }

  /** The scores of all scored groups add up to the problem's total score. */
  lemma ScoresSumToTotal(sorted: seq<string>, total: nat)
    requires Distinct(sorted) && |sorted| > 0
    ensures SumScores(sorted, sorted, total) == total
  {
    SumScoresSuffix(sorted, total, 0);
    assert sorted[0..] == sorted;
  }

  /** Every group gets the base score or one more; the last `ExtraCount` groups, and only they, get one more. */
  lemma ScoreBounds(sorted: seq<string>, total: nat)
    requires Distinct(sorted) && |sorted| > 0
    ensures forall k :: 0 <= k < |sorted| ==>
              (GroupScore(sorted[k], sorted, total) == total / |sorted| + 1
               <==> k >= |sorted| - total % |sorted|)
    ensures forall k :: 0 <= k < |sorted| ==>
              total / |sorted| <= GroupScore(sorted[k], sorted, total) <= total / |sorted| + 1
  {
    var n := |sorted|;
    assert ExtraCount(total, n) == total % n;
    forall k | 0 <= k < n
      ensures (GroupScore(sorted[k], sorted, total) == total / n + 1) <==> k >= n - total % n
      ensures total / n <= GroupScore(sorted[k], sorted, total) <= total / n + 1
    {
      GroupScoreAt(sorted, total, k);
    }
  }
}
