/** Counting the elements of sequences and sets. */
module Counting {
  import opened Common

  /** Distinct numbers below n are at most n. */
  lemma DistinctBound(ids: seq<int>, n: nat)
    requires Distinct(ids)
    requires forall k {:trigger ids[k]} :: 0 <= k < |ids| ==> 0 < ids[k] < n
    ensures |ids| <= n
  {
    RangeSize(n);
    var range := set i {:trigger In(i, n)} | 0 < i < n && In(i, n);
    DistinctSize(ids);
    assert Elements(ids) <= range by {
      forall i | i in ids ensures i in range { assert In(i, n); }
    }
    SubsetSize(Elements(ids), range);
  }

  function Elements(ids: seq<int>): set<int> { set i | i in ids }

  predicate In(i: int, n: int) { i < n }

  lemma RangeSize(n: nat)
    ensures |set i {:trigger In(i, n)} | 0 < i < n && In(i, n)| <= n
  {
    if n > 0 {
      RangeSize(n - 1);
      var big := set i {:trigger In(i, n)} | 0 < i < n && In(i, n);
      var small := set i {:trigger In(i, n - 1)} | 0 < i < n - 1 && In(i, n - 1);
      assert big <= small + {n - 1} by {
        forall i | i in big ensures i in small + {n - 1} { assert In(i, n - 1) || i == n - 1; }
      }
      SubsetSize(big, small + {n - 1});
    }
  }

  lemma DistinctSize(ids: seq<int>)
    requires Distinct(ids)
    ensures |Elements(ids)| == |ids|
  {
    if |ids| > 0 {
      var rest := ids[1..];
      assert Distinct(rest) by {
        forall i, j | 0 <= i < j < |rest| ensures rest[i] != rest[j] { assert ids[i + 1] != ids[j + 1]; }
      }
      DistinctSize(rest);
      assert ids[0] !in rest;
      assert Elements(ids) == Elements(rest) + {ids[0]} by {
        assert ids == [ids[0]] + rest;
      }
    }
  }

  lemma SubsetSize<T>(a: set<T>, b: set<T>)
    requires a <= b
    ensures |a| <= |b|
  {
    assert b == a + (b - a);
  }
}
