/** Sequences without repetition, and subsequences. */
module Sequences {

  ghost predicate Distinct<T>(order: seq<T>) {
    forall a, b | 0 <= a < b < |order| :: order[a] != order[b]
  }

  function Without<T>(order: seq<T>, p: nat): (rest: seq<T>)
    requires p < |order|
    ensures |rest| == |order| - 1
  {
    order[..p] + order[p + 1..]
  }

  /** Any number of distinct small numbers is bounded by the range they come from. */
  lemma {:induction false} DistinctBound(order: seq<nat>, n: nat)
    requires Distinct(order) && forall k | 0 <= k < |order| :: order[k] < n
    ensures |order| <= n
  {
    if |order| > 0 {
      assert order[0] < n;
      if n - 1 in order {
        var p :| 0 <= p < |order| && order[p] == n - 1;
        var rest := Without(order, p);
        forall k | 0 <= k < |rest| ensures rest[k] < n - 1 {
          assert rest[k] == order[if k < p then k else k + 1];
        }
        DistinctBound(rest, n - 1);
      } else {
        DistinctBound(order, n - 1);
      }
    }
  }

  /** `sub` can be obtained from `full` by deleting elements. */
  ghost predicate Subsequence<T>(sub: seq<T>, full: seq<T>)
    decreases |full|
  {
    || sub == []
    || (full != [] && sub[0] == full[0] && Subsequence(sub[1..], full[1..]))
    || (full != [] && Subsequence(sub, full[1..]))
  }

  lemma {:induction false} SubsequenceTail<T>(sub: seq<T>, full: seq<T>)
    requires sub != [] && Subsequence(sub, full)
    ensures Subsequence(sub[1..], full)
    decreases |full|
  {
    if Subsequence(sub, full[1..]) {
      SubsequenceTail(sub, full[1..]);
    }
  }

  lemma {:induction false} SubsequenceWithout<T>(sub: seq<T>, full: seq<T>, k: nat)
    requires k < |sub| && Subsequence(sub, full)
    ensures Subsequence(Without(sub, k), full)
    decreases |full|
  {
    if Subsequence(sub, full[1..]) {
      SubsequenceWithout(sub, full[1..], k);
    } else if k == 0 {
      assert Without(sub, 0) == sub[1..];
      SubsequenceTail(sub, full);
    } else {
      SubsequenceWithout(sub[1..], full[1..], k - 1);
      assert Without(sub, k)[1..] == Without(sub[1..], k - 1);
    }
  }

  lemma {:induction false} SubsequenceSnoc<T>(sub: seq<T>, full: seq<T>, x: T)
    requires Subsequence(sub, full)
    ensures Subsequence(sub + [x], full + [x])
    decreases |full|
  {
    if full == [] {
      assert sub + [x] == [x] && full + [x] == [x];
    } else {
      assert (full + [x])[1..] == full[1..] + [x];
      if Subsequence(sub, full[1..]) {
        SubsequenceSnoc(sub, full[1..], x);
      } else {
        SubsequenceSnoc(sub[1..], full[1..], x);
        assert (sub + [x])[1..] == sub[1..] + [x];
      }
    }
  }
}
