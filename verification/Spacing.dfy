/** Events in sliding intervals. */
module Spacing {

  predicate Sorted(ts: seq<int>) {
    forall i, j :: 0 <= i < j < |ts| ==> ts[i] <= ts[j]
  }

  /** Any k + 1 events in a row take longer than len. */
  predicate Sparse(ts: seq<int>, k: nat, len: int) {
    forall i :: 0 <= i && i + k < |ts| ==> ts[i + k] - ts[i] > len
  }

  function CountIn(ts: seq<int>, lo: int, hi: int): nat {
    if ts == [] then 0 else CountIn(ts[..|ts| - 1], lo, hi) + if lo <= ts[|ts| - 1] <= hi then 1 else 0
  }

  lemma {:induction false} CountMore(ts: seq<int>, x: int, lo: int, hi: int)
    ensures CountIn(ts + [x], lo, hi) == CountIn(ts, lo, hi) + if lo <= x <= hi then 1 else 0
  {
    assert (ts + [x])[..|ts|] == ts;
  }

  lemma {:induction false} CountLast(ts: seq<int>, lo: int, hi: int, k: nat)
    requires k <= |ts| && forall i :: 0 <= i < |ts| - k ==> ts[i] < lo
    ensures CountIn(ts, lo, hi) <= k
    decreases |ts|
  {
    if ts != [] {
      CountLast(ts[..|ts| - 1], lo, hi, if k == 0 then 0 else k - 1);
    }
  }

  /** A closed interval of length len then holds at most k events. */
  lemma {:induction false} SparseCount(ts: seq<int>, k: nat, len: int, lo: int)
    requires Sorted(ts) && Sparse(ts, k, len)
    ensures CountIn(ts, lo, lo + len) <= k
    decreases |ts|
  {
    var n := |ts|;
    if n <= k {
      CountLast(ts, lo, lo + len, n);
    } else if ts[n - 1] > lo + len {
      SparseCount(ts[..n - 1], k, len, lo);
    } else {
      assert ts[n - 1 - k + k] - ts[n - 1 - k] > len;
      CountLast(ts, lo, lo + len, k);
    }
  }

  lemma SparseMore(ts: seq<int>, x: int, k: nat, len: int)
    requires Sorted(ts) && Sparse(ts, k, len) && (ts != [] ==> ts[|ts| - 1] <= x)
    requires if k == 0 then len < 0 else |ts| >= k ==> x - ts[|ts| - k] > len
    ensures Sorted(ts + [x]) && Sparse(ts + [x], k, len)
  {
  }
}
