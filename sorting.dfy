/**
 * Python's `sorted` on a list of durations, and the order-statistic facts
 * that make `sorted(xs)[k]` the k-th smallest element of `xs`.
 */
module Sorting {

  ghost predicate Sorted(s: seq<nat>) {
    forall i, j :: 0 <= i < j < |s| ==> s[i] <= s[j]
  }

  /** Inserts `x` into a sorted sequence, before the first element that is not smaller. */
  function Insert(x: nat, s: seq<nat>): (r: seq<nat>)
    requires Sorted(s)
    ensures Sorted(r)
    ensures |r| == |s| + 1
    ensures r[0] == x || (s != [] && r[0] == s[0])
  {
    if s == [] then [x]
    else if x <= s[0] then
      ConsSorted(x, s);
      [x] + s
    else
      TailSorted(s);
      var t := Insert(x, s[1..]);
      ConsSorted(s[0], t);
      [s[0]] + t
  }

  /** A sorted sequence stays sorted when an element no larger than its head is put in front. */
  lemma ConsSorted(x: nat, t: seq<nat>)
    requires Sorted(t) && (t != [] ==> x <= t[0])
    ensures Sorted([x] + t)
  {
    var r := [x] + t;
    forall i, j | 0 <= i < j < |r| ensures r[i] <= r[j] {
      if i == 0 {
        assert r[j] == t[j - 1] && t[0] <= t[j - 1];
      } else {
        assert r[i] == t[i - 1] && r[j] == t[j - 1];
      }
    }
  }

  lemma TailSorted(s: seq<nat>)
    requires Sorted(s) && s != []
    ensures Sorted(s[1..])
  {
    forall i, j | 0 <= i < j < |s| - 1 ensures s[1..][i] <= s[1..][j] {
      assert s[1..][i] == s[i + 1] && s[1..][j] == s[j + 1];
    }
  }

  /** Insertion adds exactly one copy of `x`. */
  lemma {:induction false} InsertPermutes(x: nat, s: seq<nat>)
    requires Sorted(s)
    ensures multiset(Insert(x, s)) == multiset(s) + multiset{x}
  {
    if s != [] && x > s[0] {
      TailSorted(s);
      InsertPermutes(x, s[1..]);
      assert s == [s[0]] + s[1..];
      assert multiset(s) == multiset{s[0]} + multiset(s[1..]);
    }
  }

  /** `sorted(s)`: ascending, of the same length; `SortPermutes` shows it is a permutation of `s`. */
  function SortAsc(s: seq<nat>): (r: seq<nat>)
    ensures Sorted(r)
    ensures |r| == |s|
  {
    if s == [] then [] else Insert(s[0], SortAsc(s[1..]))
  }

  /** Sorting neither adds nor drops an element. */
  lemma {:induction false} SortPermutes(s: seq<nat>)
    ensures multiset(SortAsc(s)) == multiset(s)
  {
    if s != [] {
      SortPermutes(s[1..]);
      InsertPermutes(s[0], SortAsc(s[1..]));
      assert s == [s[0]] + s[1..];
      assert multiset(s) == multiset{s[0]} + multiset(s[1..]);
    }
  }

  /** The number of elements of `s` strictly below `p`. */
  function CountLess(s: seq<nat>, p: nat): (n: nat)
    ensures n <= |s|
  {
    if s == [] then 0 else (if s[0] < p then 1 else 0) + CountLess(s[1..], p)
  }

  /** The number of elements of `s` at most `p`. */
  function CountAtMost(s: seq<nat>, p: nat): (n: nat)
    ensures n <= |s|
  {
    if s == [] then 0 else (if s[0] <= p then 1 else 0) + CountAtMost(s[1..], p)
  }

  lemma {:induction false} CountsOfConcat(a: seq<nat>, b: seq<nat>, p: nat)
    ensures CountLess(a + b, p) == CountLess(a, p) + CountLess(b, p)
    ensures CountAtMost(a + b, p) == CountAtMost(a, p) + CountAtMost(b, p)
  {
    if a == [] {
      assert a + b == b;
    } else {
      assert (a + b)[0] == a[0];
      assert (a + b)[1..] == a[1..] + b;
      CountsOfConcat(a[1..], b, p);
    }
  }

  lemma {:induction false} InsertCounts(x: nat, s: seq<nat>, p: nat)
    requires Sorted(s)
    ensures CountLess(Insert(x, s), p) == CountLess([x], p) + CountLess(s, p)
    ensures CountAtMost(Insert(x, s), p) == CountAtMost([x], p) + CountAtMost(s, p)
  {
    if s == [] {
    } else if x <= s[0] {
      CountsOfConcat([x], s, p);
    } else {
      TailSorted(s);
      InsertCounts(x, s[1..], p);
      CountsOfConcat([s[0]], Insert(x, s[1..]), p);
    }
  }

  /** Sorting keeps the number of elements below, and at most, any bound. */
  lemma {:induction false} SortKeepsCounts(s: seq<nat>, p: nat)
    ensures CountLess(SortAsc(s), p) == CountLess(s, p)
    ensures CountAtMost(SortAsc(s), p) == CountAtMost(s, p)
  {
    if s != [] {
      SortKeepsCounts(s[1..], p);
      InsertCounts(s[0], SortAsc(s[1..]), p);
    }
  }

  lemma {:induction false} NoneBelow(s: seq<nat>, p: nat)
    requires forall i :: 0 <= i < |s| ==> p <= s[i]
    ensures CountLess(s, p) == 0
  {
    if s != [] {
      assert forall i :: 0 <= i < |s| - 1 ==> s[1..][i] == s[i + 1];
      NoneBelow(s[1..], p);
    }
  }

  /** When nothing from index k on lies below `p`, at most k elements lie below it. */
  lemma {:induction false} FewBelow(s: seq<nat>, p: nat, k: nat)
    requires forall i :: k <= i < |s| ==> p <= s[i]
    ensures CountLess(s, p) <= k
  {
    if s != [] {
      if k == 0 {
        NoneBelow(s, p);
      } else {
        assert forall i :: 0 <= i < |s| - 1 ==> s[1..][i] == s[i + 1];
        FewBelow(s[1..], p, k - 1);
      }
    }
  }

  /** When the first k + 1 elements are at most `p`, at least k + 1 elements are at most `p`. */
  lemma {:induction false} ManyAtMost(s: seq<nat>, p: nat, k: nat)
    requires k < |s| && forall i :: 0 <= i <= k ==> s[i] <= p
    ensures CountAtMost(s, p) >= k + 1
  {
    if k > 0 {
      assert forall i :: 0 <= i < |s| - 1 ==> s[1..][i] == s[i + 1];
      ManyAtMost(s[1..], p, k - 1);
    }
  }

  /** In a sorted sequence, at most k elements lie below t[k] and at least k + 1 lie at or below it. */
  lemma SortedOrderStatistic(t: seq<nat>, k: nat)
    requires Sorted(t) && k < |t|
    ensures CountLess(t, t[k]) <= k
    ensures CountAtMost(t, t[k]) >= k + 1
  {
    assert forall i :: k <= i < |t| ==> t[k] <= t[i];
    FewBelow(t, t[k], k);
    assert forall i :: 0 <= i <= k ==> t[i] <= t[k];
    ManyAtMost(t, t[k], k);
  }

  /** `sorted(s)[k]` is the k-th smallest element of `s` (counting from 0). */
  lemma KthSmallest(s: seq<nat>, k: nat)
    requires k < |s|
    ensures SortAsc(s)[k] in s
    ensures CountLess(s, SortAsc(s)[k]) <= k
    ensures CountAtMost(s, SortAsc(s)[k]) >= k + 1
  {
    var t := SortAsc(s);
    SortPermutes(s);
    assert t[k] in multiset(t);
    SortedOrderStatistic(t, k);
    SortKeepsCounts(s, t[k]);
  }
}
