/** Counting admissions in closed time intervals. */
module Windows {

  ghost predicate Sorted(a: seq<int>) {
    forall i, j :: 0 <= i <= j < |a| ==> a[i] <= a[j]
  }

  /** Any n+1 consecutive entries span more than w. */
  ghost predicate Spread(a: seq<int>, n: nat, w: int) {
    forall i: nat :: i + n < |a| ==> a[i] + w < a[i + n]
  }

  function CountIn(a: seq<int>, lo: int, hi: int): nat {
    if a == [] then 0
    else CountIn(a[..|a| - 1], lo, hi) + if lo <= a[|a| - 1] <= hi then 1 else 0
  }

  lemma {:induction false} CountSkipsEarly(a: seq<int>, lo: int, hi: int, k: nat)
    requires k <= |a| && forall i :: 0 <= i < k ==> a[i] < lo
    ensures CountIn(a, lo, hi) <= |a| - k
  {
    if a != [] {
      var n := |a| - 1;
      if k <= n {
        CountSkipsEarly(a[..n], lo, hi, k);
      } else {
        CountSkipsEarly(a[..n], lo, hi, n);
      }
    }
  }

  /** Spread entries: at most n of them fall into any closed interval of length w. */
  lemma {:induction false} SpreadBoundsCount(a: seq<int>, n: nat, w: int, lo: int)
    requires 0 < n && Sorted(a) && Spread(a, n, w)
    ensures CountIn(a, lo, lo + w) <= n
  {
    if a != [] {
      var m := |a| - 1;
      if lo <= a[m] <= lo + w {
        var k := if m < n then 0 else m + 1 - n;
        forall i | 0 <= i < k
          ensures a[i] < lo
        {
          var j := k - 1;
          assert j + n == m && a[j] + w < a[j + n];
          assert a[i] <= a[j];
        }
        CountSkipsEarly(a, lo, lo + w, k);
      } else {
        SpreadBoundsCount(a[..m], n, w, lo);
      }
    }
  }
}
