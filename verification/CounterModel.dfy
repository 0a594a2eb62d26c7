/** Metrics counters shared by threads: looked up under a read lock, created under a write lock after a second
    look, and incremented atomically through a pointer. */
module CounterModel {
  import opened Decimal

  // ---------- the protocol ----------

  /** A name in one of the counter maps, all of which the same lock protects. */
  datatype Key = Key(store: nat, name: string)

  /** Where a call of counter is: outside, told that the key is missing, or about to add through a pointer. */
  datatype Pc = Outside | Missing(key: Key) | Adding(key: Key, ptr: nat)

  datatype State = State(
    store: map<Key, nat>,
    cells: seq<int>,
    threads: seq<Pc>,
    started: seq<Key>,
    committed: seq<Key>)

  datatype Action =
    | ReadLocked(t: nat, key: Key)
    | WriteLocked(t: nat)
    | AtomicAdd(t: nat)

  function Start(threads: nat): State {
    State(map[], [], seq(threads, _ => Outside), [], [])
  }

  predicate Enabled(s: State, a: Action) {
    a.t < |s.threads| &&
    match a
    case ReadLocked(t, _) => s.threads[t].Outside?
    case WriteLocked(t) => s.threads[t].Missing?
    case AtomicAdd(t) => s.threads[t].Adding? && s.threads[t].ptr < |s.cells|
  }

  function Next(s: State, a: Action): State
    requires Enabled(s, a)
  {
    match a
    case ReadLocked(t, key) =>
      s.(threads := s.threads[t := if key in s.store then Adding(key, s.store[key]) else Missing(key)],
      started := s.started + [key])
    case WriteLocked(t) =>
      var key := s.threads[t].key;
      if key in s.store then s.(threads := s.threads[t := Adding(key, s.store[key])])
      else State(s.store[key := |s.cells|], s.cells + [1], s.threads[t := Outside], s.started, s.committed + [key])
    case AtomicAdd(t) =>
      var key, ptr := s.threads[t].key, s.threads[t].ptr;
      State(s.store, s.cells[ptr := Wrap64(s.cells[ptr] + 1)], s.threads[t := Outside], s.started, s.committed + [key])
  }

  // ---------- what every step keeps ----------

  ghost predicate Distinct(s: State) {
    forall a, b :: a in s.store && b in s.store && s.store[a] == s.store[b] ==> a == b
  }

  predicate Pending(s: State, t: nat)
    requires t < |s.threads|
  {
    s.threads[t].Adding? ==> s.threads[t].key in s.store && s.store[s.threads[t].key] == s.threads[t].ptr
  }

  ghost predicate AllPending(s: State) {
    forall t: nat :: t < |s.threads| ==> Pending(s, t)
  }

  function Count(log: seq<Key>, key: Key): nat {
    if log == [] then 0
    else if log[|log| - 1] == key then Count(log[..|log| - 1], key) + 1
    else Count(log[..|log| - 1], key)
  }

  /** The counter holds the number of finished calls; a missing one has none. */
  predicate Exact(s: State, key: Key) {
    if key in s.store then s.store[key] < |s.cells| && s.cells[s.store[key]] == Wrap64(Count(s.committed, key))
    else Count(s.committed, key) == 0
  }

  ghost predicate AllExact(s: State) {
    forall key :: Exact(s, key)
  }

  /** How many calls for the key are under way. */
  function InFlight(threads: seq<Pc>, key: Key): nat {
    if threads == [] then 0
    else
      var last := threads[|threads| - 1];
      if !last.Outside? && last.key == key then InFlight(threads[..|threads| - 1], key) + 1
      else InFlight(threads[..|threads| - 1], key)
  }

  predicate Balanced(s: State, key: Key) {
    Count(s.started, key) == Count(s.committed, key) + InFlight(s.threads, key)
  }

  ghost predicate AllBalanced(s: State) {
    forall key :: Balanced(s, key)
  }

  ghost predicate Invariant(s: State) {
    Distinct(s) && AllPending(s) && AllExact(s) && AllBalanced(s)
  }

  lemma CountSnoc(log: seq<Key>, last: Key, key: Key)
    ensures Count(log + [last], key) == if last == key then Count(log, key) + 1 else Count(log, key)
  {
    assert (log + [last])[..|log|] == log;
  }

  function Has(pc: Pc, key: Key): nat {
    if !pc.Outside? && pc.key == key then 1 else 0
  }

  lemma {:induction false} InFlightUpdate(threads: seq<Pc>, t: nat, pc: Pc, key: Key)
    requires t < |threads|
    ensures InFlight(threads[t := pc], key) + Has(threads[t], key) == InFlight(threads, key) + Has(pc, key)
  {
    var n := |threads| - 1;
    if t < n {
      InFlightUpdate(threads[..n], t, pc, key);
      assert threads[t := pc][..n] == threads[..n][t := pc];
    } else {
      assert threads[t := pc][..n] == threads[..n];
    }
  }

  lemma {:induction false} NobodyInFlight(threads: seq<Pc>, key: Key)
    requires forall t :: 0 <= t < |threads| ==> threads[t].Outside?
    ensures InFlight(threads, key) == 0
  {
    if threads != [] {
      NobodyInFlight(threads[..|threads| - 1], key);
    }
  }

  lemma WrapStep(n: int)
    ensures Wrap64(Wrap64(n) + 1) == Wrap64(n + 1)
  {
  }

  lemma SmallIsExact(n: int)
    ensures -0x8000_0000_0000_0000 <= n < 0x8000_0000_0000_0000 ==> Wrap64(n) == n
  {
  }

  lemma StartKeeps(threads: nat)
    ensures Invariant(Start(threads))
  {
    forall key
      ensures Balanced(Start(threads), key)
    {
      NobodyInFlight(Start(threads).threads, key);
    }
  }

  lemma BalanceKeeps(s: State, a: Action)
    requires AllBalanced(s) && Enabled(s, a)
    ensures AllBalanced(Next(s, a))
  {
    var s' := Next(s, a);
    forall key
      ensures Balanced(s', key)
    {
      assert Balanced(s, key);
      InFlightUpdate(s.threads, a.t, s'.threads[a.t], key);
      match a
      case ReadLocked(_, started) => CountSnoc(s.started, started, key);
      case WriteLocked(t) => CountSnoc(s.committed, s.threads[t].key, key);
      case AtomicAdd(t) => CountSnoc(s.committed, s.threads[t].key, key);
    }
  }

  lemma PendingKeeps(s: State, a: Action)
    requires AllPending(s) && Enabled(s, a)
    ensures AllPending(Next(s, a))
  {
    var s' := Next(s, a);
    forall t: nat | t < |s'.threads|
      ensures Pending(s', t)
    {
      assert Pending(s, t);
    }
  }

  /** A step that neither creates a counter nor adds to one. */
  lemma LookupKeeps(s: State, a: Action)
    requires Distinct(s) && AllExact(s) && Enabled(s, a) && Next(s, a).committed == s.committed
    ensures Distinct(Next(s, a)) && AllExact(Next(s, a))
  {
    var s' := Next(s, a);
    assert |s'.committed| == |s.committed|;
    assert s'.store == s.store && s'.cells == s.cells;
    forall key
      ensures Exact(s', key)
    {
      assert Exact(s, key);
    }
  }

  lemma CreateKeeps(s: State, a: Action)
    requires Distinct(s) && AllExact(s) && Enabled(s, a) && a.WriteLocked? && s.threads[a.t].key !in s.store
    ensures Distinct(Next(s, a)) && AllExact(Next(s, a))
  {
    var s', created := Next(s, a), s.threads[a.t].key;
    forall x, y | x in s'.store && y in s'.store && s'.store[x] == s'.store[y]
      ensures x == y
    {
      assert Exact(s, x) && Exact(s, y);
    }
    forall key
      ensures Exact(s', key)
    {
      assert Exact(s, key);
      CountSnoc(s.committed, created, key);
      SmallIsExact(1);
    }
  }

  lemma AddKeeps(s: State, a: Action)
    requires Distinct(s) && AllPending(s) && AllExact(s) && Enabled(s, a) && a.AtomicAdd?
    ensures Distinct(Next(s, a)) && AllExact(Next(s, a))
  {
    var s', added := Next(s, a), s.threads[a.t].key;
    assert Pending(s, a.t);
    forall key
      ensures Exact(s', key)
    {
      assert Exact(s, key);
      CountSnoc(s.committed, added, key);
      WrapStep(Count(s.committed, key));
    }
  }

  lemma NextKeeps(s: State, a: Action)
    requires Invariant(s) && Enabled(s, a)
    ensures Invariant(Next(s, a))
  {
    PendingKeeps(s, a);
    BalanceKeeps(s, a);
    if a.AtomicAdd? {
      AddKeeps(s, a);
    } else if a.WriteLocked? && s.threads[a.t].key !in s.store {
      CreateKeeps(s, a);
    } else {
      LookupKeeps(s, a);
    }
  }

  // ---------- every interleaving ----------

  predicate StepAt(states: seq<State>, actions: seq<Action>, i: nat)
    requires i < |actions| && |states| == |actions| + 1
  {
    Enabled(states[i], actions[i]) && states[i + 1] == Next(states[i], actions[i])
  }

  /** The states of some interleaving of the threads' actions. */
  ghost predicate Execution(states: seq<State>, actions: seq<Action>) {
    && |states| == |actions| + 1
    && states[0] == Start(|states[0].threads|)
    && forall i: nat :: i < |actions| ==> StepAt(states, actions, i)
  }

  lemma {:induction false} AlwaysInvariant(states: seq<State>, actions: seq<Action>, i: nat)
    requires Execution(states, actions) && i < |states|
    ensures Invariant(states[i])
  {
    if i == 0 {
      StartKeeps(|states[0].threads|);
    } else {
      AlwaysInvariant(states, actions, i - 1);
      assert StepAt(states, actions, i - 1);
      NextKeeps(states[i - 1], actions[i - 1]);
    }
  }

  /** What reading the counter gives, zero when it does not exist. */
  function Value(s: State, key: Key): int {
    if key in s.store && s.store[key] < |s.cells| then s.cells[s.store[key]] else 0
  }

  /** At every moment of every interleaving, races that create a key included, a counter's value is the number
      of calls that have finished, as an int64. */
  lemma NoLostUpdates(states: seq<State>, actions: seq<Action>, i: nat, key: Key)
    requires Execution(states, actions) && i < |states|
    ensures Value(states[i], key) == Wrap64(Count(states[i].committed, key))
  {
    AlwaysInvariant(states, actions, i);
    assert Exact(states[i], key);
    SmallIsExact(0);
  }

  ghost predicate Quiet(s: State) {
    forall t :: 0 <= t < |s.threads| ==> s.threads[t].Outside?
  }

  /** Once every call has returned, the value is the number of calls that were made. */
  lemma QuietValue(states: seq<State>, actions: seq<Action>, i: nat, key: Key)
    requires Execution(states, actions) && i < |states| && Quiet(states[i])
    ensures Value(states[i], key) == Wrap64(Count(states[i].started, key))
  {
    NoLostUpdates(states, actions, i, key);
    AlwaysInvariant(states, actions, i);
    assert Balanced(states[i], key);
    NobodyInFlight(states[i].threads, key);
  }

  /** No thread is ever stuck with a pointer that leads nowhere. */
  lemma AddingCanAdd(states: seq<State>, actions: seq<Action>, i: nat, t: nat)
    requires Execution(states, actions) && i < |states| && t < |states[i].threads| && states[i].threads[t].Adding?
    ensures Enabled(states[i], AtomicAdd(t))
  {
    AlwaysInvariant(states, actions, i);
    assert Pending(states[i], t) && Exact(states[i], states[i].threads[t].key);
  }

  /** A call that nobody disturbs takes two steps, leaves its thread free again and adds one to its own counter only,
      whether the counter exists or not. */
  lemma CallFinishes(s: State, t: nat, key: Key, other: Key) returns (s': State)
    requires Invariant(s) && t < |s.threads| && s.threads[t].Outside? && other != key
    ensures Enabled(s, ReadLocked(t, key))
    ensures var looked, last := Next(s, ReadLocked(t, key)), if key in s.store then AtomicAdd(t) else WriteLocked(t);
            Enabled(looked, last) && s' == Next(looked, last)
    ensures s'.threads == s.threads && s'.started == s.started + [key] && s'.committed == s.committed + [key]
    ensures Value(s', key) == Wrap64(Value(s, key) + 1) && Value(s', other) == Value(s, other)
  {
    var looked := Next(s, ReadLocked(t, key));
    assert Exact(s, key) && Exact(s, other);
    SmallIsExact(1);
    s' := Next(looked, if key in s.store then AtomicAdd(t) else WriteLocked(t));
    assert s'.threads == s.threads;
  }

  /** A thread that finds its counter created in the meantime, at its second look, adds to that one. */
  lemma LostRaceAdds(s: State, t: nat) returns (s': State)
    requires Invariant(s) && t < |s.threads| && s.threads[t].Missing? && s.threads[t].key in s.store
    ensures Enabled(s, WriteLocked(t)) && Enabled(Next(s, WriteLocked(t)), AtomicAdd(t))
    ensures s' == Next(Next(s, WriteLocked(t)), AtomicAdd(t))
    ensures s'.store == s.store && |s'.cells| == |s.cells| && s'.threads == s.threads[t := Outside]
    ensures Value(s', s.threads[t].key) == Wrap64(Value(s, s.threads[t].key) + 1)
  {
    var key := s.threads[t].key;
    assert Exact(s, key);
    s' := Next(Next(s, WriteLocked(t)), AtomicAdd(t));
  }

  // ---------- the histogram ----------

  function CountAtMost(obs: seq<real>, bound: real): nat {
    if obs == [] then 0
    else if obs[|obs| - 1] <= bound then CountAtMost(obs[..|obs| - 1], bound) + 1
    else CountAtMost(obs[..|obs| - 1], bound)
  }

  function Sum(obs: seq<real>): real {
    if obs == [] then 0.0 else Sum(obs[..|obs| - 1]) + obs[|obs| - 1]
  }

  lemma ObserveOne(obs: seq<real>, x: real, bound: real)
    ensures CountAtMost(obs + [x], bound) == if x <= bound then CountAtMost(obs, bound) + 1 else CountAtMost(obs, bound)
    ensures Sum(obs + [x]) == Sum(obs) + x
  {
    assert (obs + [x])[..|obs|] == obs;
  }

  predicate BucketHolds(counts: seq<int>, bounds: seq<real>, obs: seq<real>, i: nat)
    requires i < |counts| && i < |bounds|
  {
    counts[i] == CountAtMost(obs, bounds[i])
  }

  ghost predicate BucketsHold(counts: seq<int>, bounds: seq<real>, obs: seq<real>, from: nat, to: nat)
    requires to <= |counts| && to <= |bounds|
  {
    forall i: nat :: from <= i < to ==> BucketHolds(counts, bounds, obs, i)
  }

  function Bumped(counts: seq<int>, bounds: seq<real>, x: real, i: nat): (r: seq<int>)
    requires i < |counts| == |bounds|
    ensures |r| == |counts|
  {
    if x <= bounds[i] then counts[i := counts[i] + 1] else counts
  }

  lemma BucketStep(counts: seq<int>, bounds: seq<real>, obs: seq<real>, x: real, i: nat)
    requires i < |counts| == |bounds|
    requires BucketsHold(counts, bounds, obs + [x], 0, i) && BucketsHold(counts, bounds, obs, i, |bounds|)
    ensures BucketsHold(Bumped(counts, bounds, x, i), bounds, obs + [x], 0, i + 1)
    ensures BucketsHold(Bumped(counts, bounds, x, i), bounds, obs, i + 1, |bounds|)
  {
    var next := Bumped(counts, bounds, x, i);
    assert BucketHolds(counts, bounds, obs, i);
    ObserveOne(obs, x, bounds[i]);
    forall k: nat | k < i + 1
      ensures BucketHolds(next, bounds, obs + [x], k)
    {
      if k < i {
        assert BucketHolds(counts, bounds, obs + [x], k);
      }
    }
    forall k: nat | i + 1 <= k < |bounds|
      ensures BucketHolds(next, bounds, obs, k)
    {
      assert BucketHolds(counts, bounds, obs, k);
    }
  }

  class Histogram {
    const buckets: array<int>
    var sum: real
    var count: int
    /** every duration observed */
    ghost var obs: seq<real>

    ghost predicate Valid(bounds: seq<real>)
      reads this, buckets
    {
      && buckets.Length == |bounds| && count == |obs| && sum == Sum(obs)
      && BucketsHold(buckets[..], bounds, obs, 0, |bounds|)
    }

    constructor (bounds: seq<real>)
      ensures Valid(bounds) && obs == []
    {
      buckets := new int[|bounds|](_ => 0);
      sum, count, obs := 0.0, 0, [];
    }

    method Observe(seconds: real, bounds: seq<real>)
      requires Valid(bounds)
      modifies this, buckets
      ensures Valid(bounds) && obs == old(obs) + [seconds]
      ensures sum == old(sum) + seconds && count == old(count) + 1 == |obs| && sum == Sum(obs)
      ensures forall i :: 0 <= i < |bounds| ==> buckets[i] == CountAtMost(obs, bounds[i])
    {
      sum := sum + seconds;
      count := count + 1;
      ObserveOne(obs, seconds, 0.0);
      Increment(seconds, bounds);
      obs := obs + [seconds];
      forall i | 0 <= i < |bounds|
        ensures buckets[i] == CountAtMost(obs, bounds[i])
      {
        assert BucketHolds(buckets[..], bounds, obs, i);
      }
    }

    /** The loop over the bucket bounds. */
    method Increment(seconds: real, bounds: seq<real>)
      requires buckets.Length == |bounds| && BucketsHold(buckets[..], bounds, obs, 0, |bounds|)
      modifies buckets
      ensures BucketsHold(buckets[..], bounds, obs + [seconds], 0, |bounds|)
    {
      var i := 0;
      while i < |bounds|
        invariant i <= |bounds|
        invariant BucketsHold(buckets[..], bounds, obs + [seconds], 0, i)
        invariant BucketsHold(buckets[..], bounds, obs, i, |bounds|)
      {
        BucketStep(buckets[..], bounds, obs, seconds, i);
        ghost var next := Bumped(buckets[..], bounds, seconds, i);
        if seconds <= bounds[i] {
          buckets[i] := buckets[i] + 1;
        }
        assert buckets[..] == next;
        i := i + 1;
      }
    }
  }

  /** Buckets with larger bounds hold at least as much, and none more than there are observations. */
  lemma {:induction false} BucketsAreCumulative(obs: seq<real>, low: real, high: real)
    requires low <= high
    ensures CountAtMost(obs, low) <= CountAtMost(obs, high) <= |obs|
  {
    if obs != [] {
      BucketsAreCumulative(obs[..|obs| - 1], low, high);
    }
  }
}
