/** The per-endpoint limiter: configured prefixes sorted by length, and the bucket a path is sent to. */
module EndpointRouting {
  import opened Wrappers
  import opened EndpointConfig
  import GatewayLimiter

  // ---------- the exchange sort ----------

  predicate NotShorter(a: seq<EndpointLimit>, i: nat, j: nat)
    requires i < |a| && j < |a|
  {
    |a[j].prefix| <= |a[i].prefix|
  }

  /** The first n entries are in order and no later entry is longer than any of them. */
  ghost predicate SortedUpTo(a: seq<EndpointLimit>, n: nat)
    requires n <= |a|
  {
    forall i: nat, j: nat :: i < n && i < j < |a| ==> NotShorter(a, i, j)
  }

  ghost predicate Sorted(a: seq<EndpointLimit>) {
    SortedUpTo(a, |a|)
  }

  /** Entry i is at least as long as those between it and j. */
  ghost predicate LongestUpTo(a: seq<EndpointLimit>, i: nat, j: nat)
    requires i < |a| && j <= |a|
  {
    forall k: nat :: i < k < j ==> NotShorter(a, i, k)
  }

  function Swapped(a: seq<EndpointLimit>, i: nat, j: nat): (r: seq<EndpointLimit>)
    requires i < |a| && j < |a|
    ensures |r| == |a|
  {
    a[i := a[j]][j := a[i]]
  }

  lemma SwapKeepsSorted(a: seq<EndpointLimit>, i: nat, j: nat)
    requires i < j < |a| && SortedUpTo(a, i) && LongestUpTo(a, i, j) && |a[j].prefix| > |a[i].prefix|
    ensures SortedUpTo(Swapped(a, i, j), i) && LongestUpTo(Swapped(a, i, j), i, j + 1)
  {
    var b := Swapped(a, i, j);
    forall m: nat, n: nat | m < i && m < n < |b|
      ensures NotShorter(b, m, n)
    {
      assert NotShorter(a, m, if n == i then j else if n == j then i else n);
    }
    forall k: nat | i < k < j + 1
      ensures NotShorter(b, i, k)
    {
      if k < j {
        assert NotShorter(a, i, k);
      }
    }
  }

  lemma PassExtends(a: seq<EndpointLimit>, i: nat)
    requires i < |a| && SortedUpTo(a, i) && LongestUpTo(a, i, |a|)
    ensures SortedUpTo(a, i + 1)
  {
    forall m: nat, n: nat | m < i + 1 && m < n < |a|
      ensures NotShorter(a, m, n)
    {
      if m == i {
        assert NotShorter(a, i, n);
      }
    }
  }

  // ---------- permutations ----------

  function Count(a: seq<EndpointLimit>, e: EndpointLimit): nat {
    if a == [] then 0 else Count(a[..|a| - 1], e) + if a[|a| - 1] == e then 1 else 0
  }

  ghost predicate SameEntries(a: seq<EndpointLimit>, b: seq<EndpointLimit>) {
    |a| == |b| && forall e :: Count(a, e) == Count(b, e)
  }

  lemma {:induction false} CountUpdate(a: seq<EndpointLimit>, k: nat, v: EndpointLimit, e: EndpointLimit)
    requires k < |a|
    ensures Count(a[k := v], e) + (if a[k] == e then 1 else 0) == Count(a, e) + if v == e then 1 else 0
  {
    var n := |a| - 1;
    if k < n {
      CountUpdate(a[..n], k, v, e);
      assert a[k := v][..n] == a[..n][k := v];
    } else {
      assert a[k := v][..n] == a[..n];
    }
  }

  lemma SwapIsPermutation(a: seq<EndpointLimit>, i: nat, j: nat)
    requires i < j < |a|
    ensures SameEntries(a, Swapped(a, i, j))
  {
    forall e
      ensures Count(a, e) == Count(Swapped(a, i, j), e)
    {
      CountUpdate(a, i, a[j], e);
      CountUpdate(a[i := a[j]], j, a[i], e);
    }
  }

  lemma {:induction false} CountIsMembership(a: seq<EndpointLimit>, e: EndpointLimit)
    ensures 0 < Count(a, e) <==> e in a
  {
    if a != [] {
      var n := |a| - 1;
      CountIsMembership(a[..n], e);
      assert e in a <==> e in a[..n] || e == a[n];
    }
  }

  lemma SameEntriesSameMembers(a: seq<EndpointLimit>, b: seq<EndpointLimit>, e: EndpointLimit)
    requires SameEntries(a, b)
    ensures e in a <==> e in b
  {
    CountIsMembership(a, e);
    CountIsMembership(b, e);
  }

  method SortByLength(limits: array<EndpointLimit>)
    modifies limits
    ensures Sorted(limits[..]) && SameEntries(old(limits[..]), limits[..])
  {
    var i := 0;
    while i < limits.Length
      invariant i <= limits.Length
      invariant SortedUpTo(limits[..], i) && SameEntries(old(limits[..]), limits[..])
    {
      SelectLongest(limits, i);
      PassExtends(limits[..], i);
      i := i + 1;
    }
  }

  /** The sort's inner loop. */
  method SelectLongest(limits: array<EndpointLimit>, i: nat)
    requires i < limits.Length && SortedUpTo(limits[..], i)
    modifies limits
    ensures SortedUpTo(limits[..], i) && LongestUpTo(limits[..], i, limits.Length)
    ensures SameEntries(old(limits[..]), limits[..])
  {
    var j := i + 1;
    while j < limits.Length
      invariant i < j <= limits.Length
      invariant SortedUpTo(limits[..], i) && LongestUpTo(limits[..], i, j)
      invariant SameEntries(old(limits[..]), limits[..])
    {
      if |limits[j].prefix| > |limits[i].prefix| {
        Exchange(limits, i, j);
      } else {
        LongestNext(limits[..], i, j);
      }
      j := j + 1;
    }
  }

  lemma LongestNext(a: seq<EndpointLimit>, i: nat, j: nat)
    requires i < j < |a| && LongestUpTo(a, i, j) && |a[j].prefix| <= |a[i].prefix|
    ensures LongestUpTo(a, i, j + 1)
  {
  }

  method Exchange(limits: array<EndpointLimit>, i: nat, j: nat)
    requires i < j < limits.Length && SortedUpTo(limits[..], i) && LongestUpTo(limits[..], i, j)
    requires |limits[j].prefix| > |limits[i].prefix|
    modifies limits
    ensures SortedUpTo(limits[..], i) && LongestUpTo(limits[..], i, j + 1)
    ensures SameEntries(old(limits[..]), limits[..])
  {
    SwapKeepsSorted(limits[..], i, j);
    SwapIsPermutation(limits[..], i, j);
    ghost var b := Swapped(limits[..], i, j);
    limits[i], limits[j] := limits[j], limits[i];
    assert limits[..] == b;
  }

  // ---------- configuration ----------

  method ParseEndpointLimits(raw: string) returns (limits: seq<EndpointLimit>)
    ensures Sorted(limits) && SameEntries(Parsed(raw), limits)
  {
    var parsed := ParseLimits(raw);
    var a := new EndpointLimit[|parsed|](i requires 0 <= i < |parsed| => parsed[i]);
    assert a[..] == parsed;
    SortByLength(a);
    limits := a[..];
  }

  // ---------- routing ----------

  /** The entry the path belongs to: the first one in the sorted list. */
  function FirstMatch(limits: seq<EndpointLimit>, path: string): Option<EndpointLimit> {
    if limits == [] then None
    else if limits[0].prefix <= path then Some(limits[0])
    else FirstMatch(limits[1..], path)
  }

  predicate Covers(e: EndpointLimit, path: string) {
    e.prefix <= path
  }

  /** A configured entry whose prefix is the path's and which no other matching entry exceeds. */
  ghost predicate LongestMatch(limits: seq<EndpointLimit>, path: string, e: EndpointLimit) {
    && e in limits && Covers(e, path)
    && forall other :: other in limits && Covers(other, path) ==> |other.prefix| <= |e.prefix|
  }

  ghost predicate NoMatch(limits: seq<EndpointLimit>, path: string) {
    forall other :: other in limits ==> !Covers(other, path)
  }

  lemma {:induction false} FirstMatchIsLongest(limits: seq<EndpointLimit>, path: string)
    requires Sorted(limits)
    ensures match FirstMatch(limits, path)
            case Some(e) => LongestMatch(limits, path, e)
            case None => NoMatch(limits, path)
  {
    if limits != [] {
      if limits[0].prefix <= path {
        forall other | other in limits
          ensures |other.prefix| <= |limits[0].prefix|
        {
          var k :| 0 <= k < |limits| && limits[k] == other;
          if 0 < k {
            assert NotShorter(limits, 0, k);
          }
        }
      } else {
        TailIsSorted(limits);
        FirstMatchIsLongest(limits[1..], path);
      }
    }
  }

  lemma TailIsSorted(limits: seq<EndpointLimit>)
    requires limits != [] && Sorted(limits)
    ensures Sorted(limits[1..])
  {
    forall i: nat, j: nat | i < j < |limits[1..]|
      ensures NotShorter(limits[1..], i, j)
    {
      assert NotShorter(limits, i + 1, j + 1);
    }
  }

  /** Whatever order the configuration lists them in, a path goes to the longest configured prefix of it, and
      to none exactly when no configured prefix matches. */
  lemma RoutingIsLongestPrefix(configured: seq<EndpointLimit>, sorted: seq<EndpointLimit>, path: string)
    requires Sorted(sorted) && SameEntries(configured, sorted)
    ensures match FirstMatch(sorted, path)
            case Some(e) => LongestMatch(configured, path, e)
            case None => NoMatch(configured, path)
  {
    FirstMatchIsLongest(sorted, path);
    forall e
      ensures e in configured <==> e in sorted
    {
      SameEntriesSameMembers(configured, sorted, e);
    }
  }

  datatype Entry = Entry(prefix: string, bucket: GatewayLimiter.EndpointBucket)

  function LimitOf(e: Entry): EndpointLimit {
    EndpointLimit(e.prefix, e.bucket.limit)
  }

  function LimitsOf(buckets: seq<Entry>): seq<EndpointLimit> {
    seq(|buckets|, i requires 0 <= i < |buckets| => LimitOf(buckets[i]))
  }

  lemma LimitsOfSnoc(buckets: seq<Entry>, e: Entry)
    ensures LimitsOf(buckets + [e]) == LimitsOf(buckets) + [LimitOf(e)]
  {
  }

  lemma MatchNext(limits: seq<EndpointLimit>, i: nat, path: string)
    requires i < |limits|
    ensures FirstMatch(limits[i..], path) == if limits[i].prefix <= path then Some(limits[i])
            else FirstMatch(limits[i + 1..], path)
  {
    assert limits[i..][0] == limits[i] && limits[i..][1..] == limits[i + 1..];
  }

  class EndpointRateLimiter {
    var buckets: seq<Entry>
    const window: nat

    /** Sorts the caller's list in place, then makes one bucket per entry. */
    constructor (limits: array<EndpointLimit>, window: nat)
      modifies limits
      ensures this.window == window && LimitsOf(buckets) == limits[..]
      ensures Sorted(limits[..]) && SameEntries(old(limits[..]), limits[..])
    {
      this.window := window;
      buckets := [];
      new;
      SortByLength(limits);
      MakeBuckets(limits);
    }

    method MakeBuckets(limits: array<EndpointLimit>)
      requires buckets == []
      modifies this
      ensures LimitsOf(buckets) == limits[..]
    {
      var i := 0;
      while i < limits.Length
        invariant i <= limits.Length && LimitsOf(buckets) == limits[..i]
      {
        var bucket := new GatewayLimiter.EndpointBucket(limits[i].limit, window);
        LimitsOfSnoc(buckets, Entry(limits[i].prefix, bucket));
        buckets := buckets + [Entry(limits[i].prefix, bucket)];
        i := i + 1;
      }
      assert limits[..i] == limits[..];
    }

    /** The entry of the first bucket whose prefix the path has; with the list sorted, that of the longest. */
    method Match(path: string) returns (found: Option<Entry>)
      ensures match FirstMatch(LimitsOf(buckets), path)
              case Some(limit) => found.Some? && found.value in buckets && LimitOf(found.value) == limit
              case None => found.None?
    {
      var i := 0;
      ghost var limits := LimitsOf(buckets);
      assert limits[0..] == limits;
      while i < |buckets|
        invariant i <= |buckets| && FirstMatch(limits[i..], path) == FirstMatch(limits, path)
      {
        MatchNext(limits, i, path);
        if buckets[i].prefix <= path {
          return Some(buckets[i]);
        }
        i := i + 1;
      }
      return None;
    }
  }
}
