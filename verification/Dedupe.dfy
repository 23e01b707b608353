/**
  The bounded dedupe map of the fan-out handler (services/redisBusHandlers.js), against a FIFO window of
  accepted events.
 */
module Dedupe {
  import opened Sorting

  /** One map entry; a map lists its entries in insertion order, one per key. */
  datatype Entry = Entry(key: string, expiresAt: int)

  type Cache = seq<Entry>

  ghost predicate Differ(c: Cache, i: int, j: int) {
    0 <= i < j < |c| ==> c[i].key != c[j].key
  }

  ghost predicate DistinctKeys(c: Cache) {
    forall i, j :: Differ(c, i, j)
  }

  ghost predicate Later(c: Cache, i: int, j: int) {
    0 <= i < j < |c| ==> c[i].expiresAt <= c[j].expiresAt
  }

  ghost predicate ByExpiry(c: Cache) {
    forall i, j :: Later(c, i, j)
  }

  predicate Duplicate(c: Cache, key: string, now: int) {
    exists e :: e in c && e.key == key && e.expiresAt > now
  }

  function Live(c: Cache, now: int): Cache {
    Filter((e: Entry) => e.expiresAt > now, c)
  }

  function RemoveAt(c: Cache, i: nat): Cache
    requires i < |c|
  {
    c[..i] + c[i + 1..]
  }

  /** The scan for the smallest expiry; the first one wins a tie. */
  function Oldest(c: Cache): (k: nat)
    requires c != []
    ensures k < |c|
    ensures forall i | 0 <= i < |c| :: c[k].expiresAt <= c[i].expiresAt
    ensures forall i | 0 <= i < k :: c[k].expiresAt < c[i].expiresAt
  {
    if |c| == 1 then 0
    else
      var k := Oldest(c[..|c| - 1]);
      if c[|c| - 1].expiresAt < c[k].expiresAt then |c| - 1 else k
  }

  function EvictTo(c: Cache, max: nat): Cache
    decreases |c|
  {
    if |c| <= max then c else EvictTo(RemoveAt(c, Oldest(c)), max)
  }

  function Prune(c: Cache, now: int, max: nat): Cache {
    EvictTo(Live(c, now), max)
  }

  /** Map.set: an existing key keeps its place. */
  function Put(c: Cache, key: string, expiresAt: int): Cache {
    if c == [] then [Entry(key, expiresAt)]
    else if c[0].key == key then [Entry(key, expiresAt)] + c[1..]
    else [c[0]] + Put(c[1..], key, expiresAt)
  }

  // ----- The queue this refines -----

  function DropExpired(c: Cache, now: int): Cache {
    if c != [] && c[0].expiresAt <= now then DropExpired(c[1..], now) else c
  }

  function DropTo(c: Cache, max: nat): Cache {
    if |c| > max then c[|c| - max..] else c
  }

  lemma {:induction false} LiveIsDropExpired(c: Cache, now: int)
    requires ByExpiry(c)
    ensures Live(c, now) == DropExpired(c, now)
  {
    if c != [] {
      if c[0].expiresAt <= now {
        SliceOrdered(c, 1, |c|);
        LiveIsDropExpired(c[1..], now);
      } else {
        forall i | 0 <= i < |c| ensures c[i].expiresAt > now {
          assert Later(c, 0, i);
        }
        AllLive(c, now);
      }
    }
  }

  lemma SliceOrdered(c: Cache, from: nat, to: nat)
    requires ByExpiry(c) && from <= to <= |c|
    ensures ByExpiry(c[from..to])
    ensures to == |c| ==> ByExpiry(c[from..])
  {
    forall i, j ensures Later(c[from..to], i, j) {
      if 0 <= i < j < to - from { assert Later(c, from + i, from + j); }
    }
    assert to == |c| ==> c[from..] == c[from..to];
  }

  lemma {:induction false} AllLive(c: Cache, now: int)
    requires forall i | 0 <= i < |c| :: c[i].expiresAt > now
    ensures Live(c, now) == c
  {
    if c != [] {
      AllLive(c[1..], now);
      assert c == [c[0]] + c[1..];
    }
  }

  lemma OldestIsFirst(c: Cache)
    requires ByExpiry(c) && c != []
    ensures Oldest(c) == 0
  {
    assert Later(c, 0, Oldest(c));
  }

  lemma DropToTail(c: Cache, max: nat)
    requires |c| > max
    ensures DropTo(c[1..], max) == DropTo(c, max)
  {
    if |c| - 1 > max {
      assert c[1..][|c| - 1 - max..] == c[|c| - max..];
    }
  }

  lemma EvictHead(c: Cache, max: nat)
    requires ByExpiry(c) && |c| > max
    ensures EvictTo(c, max) == EvictTo(c[1..], max) && ByExpiry(c[1..])
  {
    OldestIsFirst(c);
    assert RemoveAt(c, 0) == c[1..];
    SliceOrdered(c, 1, |c|);
  }

  lemma {:induction false} EvictIsDropTo(c: Cache, max: nat)
    requires ByExpiry(c)
    ensures EvictTo(c, max) == DropTo(c, max)
    decreases |c|
  {
    if |c| > max {
      EvictHead(c, max);
      EvictIsDropTo(c[1..], max);
      DropToTail(c, max);
    }
  }

  lemma {:induction false} DropExpiredSuffix(c: Cache, now: int) returns (k: nat)
    ensures k <= |c| && DropExpired(c, now) == c[k..]
    ensures forall i | 0 <= i < k :: c[i].expiresAt <= now
    ensures k < |c| ==> c[k].expiresAt > now
  {
    k := 0;
    if c != [] && c[0].expiresAt <= now {
      var rest := DropExpiredSuffix(c[1..], now);
      k := rest + 1;
      assert c[1..][rest..] == c[k..];
      assert forall i | 0 < i < k :: c[i] == c[1..][i - 1];
    }
  }

  /**
    On a map in expiry order the two scans are a queue: drop the expired prefix, then drop the head down to the
    bound.
   */
  lemma PruneIsQueue(c: Cache, now: int, max: nat)
    requires ByExpiry(c)
    ensures Prune(c, now, max) == DropTo(DropExpired(c, now), max)
  {
    LiveIsDropExpired(c, now);
    var k := DropExpiredSuffix(c, now);
    SliceOrdered(c, k, |c|);
    EvictIsDropTo(c[k..], max);
    if |c| - k > max { assert c[k..][|c| - k - max..] == c[|c| - max..]; }
  }

  // ----- Arrivals -----

  /** One event: the clock when it is checked, when the map is pruned and when it is added. */
  datatype Arrival = Arrival(id: string, checked: int, pruned: int, added: int)

  /** `log` lists the accepted events with the expiry each was given. */
  datatype State = State(cache: Cache, log: seq<Entry>, clock: int)

  /** Check and add run in one piece, before the handler first waits. */
  function Step(st: State, a: Arrival, ttl: nat, max: nat): State {
    if Duplicate(st.cache, a.id, a.checked) then st.(clock := a.checked)
    else
      var expiresAt := a.added + ttl;
      State(Put(Prune(st.cache, a.pruned, max), a.id, expiresAt), st.log + [Entry(a.id, expiresAt)], a.added)
  }

  predicate InTime(st: State, a: Arrival) {
    st.clock <= a.checked <= a.pruned <= a.added
  }

  ghost predicate IsWindow(cache: Cache, log: seq<Entry>, max: nat) {
    |cache| <= |log| && |cache| <= max + 1 && cache == log[|log| - |cache|..]
  }

  /** What has left the map is expired or far back, with more than `max` different ids accepted after it. */
  ghost predicate IsGone(log: seq<Entry>, i: nat, clock: int, max: nat)
    requires i < |log|
  {
    log[i].expiresAt <= clock || (i + max + 2 <= |log| && DistinctKeys(log[i..i + max + 2]))
  }

  ghost predicate Gone(log: seq<Entry>, n: nat, clock: int, max: nat)
    requires n <= |log|
  {
    forall i: nat | i < n :: IsGone(log, i, clock, max)
  }

  /** The map is the newest stretch of the log. */
  ghost predicate Inv(st: State, ttl: nat, max: nat) {
    && IsWindow(st.cache, st.log, max) && DistinctKeys(st.cache)
    && ByExpiry(st.log) && (st.log != [] ==> st.log[|st.log| - 1].expiresAt <= st.clock + ttl)
    && Gone(st.log, |st.log| - |st.cache|, st.clock, max)
  }

  lemma {:induction false} PutAppends(c: Cache, key: string, expiresAt: int)
    requires forall i | 0 <= i < |c| :: c[i].key != key
    ensures Put(c, key, expiresAt) == c + [Entry(key, expiresAt)]
  {
    if c != [] {
      PutAppends(c[1..], key, expiresAt);
    }
  }

  /** What pruning leaves of the map: a suffix, cut by expiry or by the bound. */
  lemma PruneCuts(c: Cache, now: int, max: nat) returns (k: nat)
    requires ByExpiry(c)
    ensures k <= |c| && Prune(c, now, max) == c[k..] && |c| - k <= max
    ensures forall i | 0 <= i < k :: c[i].expiresAt <= now || i + max < |c|
    ensures forall i | k <= i < |c| :: c[i].expiresAt > now
  {
    PruneIsQueue(c, now, max);
    var d := DropExpiredSuffix(c, now);
    k := if |c| - d > max then |c| - max else d;
    assert DropTo(c[d..], max) == c[k..];
    forall i | k <= i < |c| ensures c[i].expiresAt > now {
      assert Later(c, d, i);
    }
  }

  lemma DistinctWith(c: Cache, e: Entry)
    requires DistinctKeys(c) && forall i | 0 <= i < |c| :: c[i].key != e.key
    ensures DistinctKeys(c + [e])
  {
    forall i, j ensures Differ(c + [e], i, j) {
      assert Differ(c, i, j);
    }
  }

  lemma DistinctSlice(c: Cache, from: nat, to: nat)
    requires DistinctKeys(c) && from <= to <= |c|
    ensures DistinctKeys(c[from..to])
    ensures to == |c| ==> DistinctKeys(c[from..])
  {
    forall i, j ensures Differ(c[from..to], i, j) {
      if 0 <= i < j < to - from { assert Differ(c, from + i, from + j); }
    }
    assert to == |c| ==> c[from..] == c[from..to];
  }

  /** An entry of the map that the accepted event does not find expired has another id. */
  lemma OtherKeys(c: Cache, a: Arrival)
    requires !Duplicate(c, a.id, a.checked) && a.checked <= a.pruned
    ensures forall i | 0 <= i < |c| && c[i].expiresAt > a.pruned :: c[i].key != a.id
  {
    forall i | 0 <= i < |c| && c[i].expiresAt > a.pruned ensures c[i].key != a.id {
      assert c[i] in c;
    }
  }

  /** An entry pushed out by the bound is followed by more than `max` accepted ids, all different. */
  lemma PushedOut(cache: Cache, log: seq<Entry>, e: Entry, max: nat, i: nat)
    requires |cache| <= |log| && cache == log[|log| - |cache|..] && DistinctKeys(cache)
    requires i + max < |cache| && forall j | i <= j < |cache| :: cache[j].key != e.key
    ensures var at := |log| - |cache| + i;
            at + max + 2 <= |log| + 1 && DistinctKeys((log + [e])[at..at + max + 2])
  {
    var at := |log| - |cache| + i;
    var tail := cache[i..];
    DistinctSlice(cache, i, |cache|);
    DistinctWith(tail, e);
    DistinctSlice(tail + [e], 0, max + 2);
    assert (log + [e])[at..at + max + 2] == (tail + [e])[0..max + 2];
  }

  lemma GoneStays(log: seq<Entry>, e: Entry, i: nat, clock: int, later: int, max: nat)
    requires i < |log| && IsGone(log, i, clock, max) && clock <= later
    ensures IsGone(log + [e], i, later, max)
  {
    if log[i].expiresAt > clock {
      assert (log + [e])[i..i + max + 2] == log[i..i + max + 2];
    }
  }

  lemma AcceptOrder(log: seq<Entry>, e: Entry)
    requires ByExpiry(log) && (log != [] ==> log[|log| - 1].expiresAt <= e.expiresAt)
    ensures ByExpiry(log + [e])
  {
    forall i, j ensures Later(log + [e], i, j) {
      assert Later(log, i, j) && Later(log, i, |log| - 1);
    }
  }

  /** The map after an accepted event: what pruning left, distinct from the new id, and the new entry. */
  lemma AcceptShape(cache: Cache, a: Arrival, expiresAt: int, max: nat) returns (k: nat)
    requires ByExpiry(cache) && DistinctKeys(cache) && !Duplicate(cache, a.id, a.checked) && a.checked <= a.pruned
    ensures k <= |cache| <= k + max
    ensures Put(Prune(cache, a.pruned, max), a.id, expiresAt) == cache[k..] + [Entry(a.id, expiresAt)]
    ensures DistinctKeys(cache[k..] + [Entry(a.id, expiresAt)])
    ensures forall i | 0 <= i < k :: cache[i].expiresAt <= a.pruned || i + max < |cache|
  {
    OtherKeys(cache, a);
    k := PruneCuts(cache, a.pruned, max);
    var kept := cache[k..];
    assert forall i | 0 <= i < |kept| :: kept[i] == cache[k + i];
    PutAppends(kept, a.id, expiresAt);
    DistinctSlice(cache, k, |cache|);
    DistinctWith(kept, Entry(a.id, expiresAt));
  }

  lemma AcceptGone(st: State, a: Arrival, e: Entry, ttl: nat, max: nat, k: nat)
    requires Inv(st, ttl, max) && InTime(st, a) && !Duplicate(st.cache, a.id, a.checked) && e.key == a.id
    requires k <= |st.cache| && forall i | 0 <= i < k :: st.cache[i].expiresAt <= a.pruned || i + max < |st.cache|
    ensures Gone(st.log + [e], |st.log| - |st.cache| + k, a.added, max)
  {
    var base := |st.log| - |st.cache|;
    SliceOrdered(st.log, base, |st.log|);
    OtherKeys(st.cache, a);
    forall i: nat | i < base + k ensures IsGone(st.log + [e], i, a.added, max) {
      if i < base {
        GoneStays(st.log, e, i, st.clock, a.added, max);
      } else if st.cache[i - base].expiresAt > a.pruned {
        forall j | i - base <= j < |st.cache| ensures st.cache[j].key != e.key {
          assert Later(st.cache, i - base, j);
        }
        PushedOut(st.cache, st.log, e, max, i - base);
      }
    }
  }

  lemma AcceptStep(st: State, a: Arrival, ttl: nat, max: nat, k: nat)
    requires !Duplicate(st.cache, a.id, a.checked) && k <= |st.cache|
    requires Put(Prune(st.cache, a.pruned, max), a.id, a.added + ttl) == st.cache[k..] + [Entry(a.id, a.added + ttl)]
    ensures var e := Entry(a.id, a.added + ttl);
            Step(st, a, ttl, max) == State(st.cache[k..] + [e], st.log + [e], a.added)
  {}

  lemma AcceptKeeps(st: State, a: Arrival, ttl: nat, max: nat)
    requires Inv(st, ttl, max) && InTime(st, a) && !Duplicate(st.cache, a.id, a.checked)
    ensures Inv(Step(st, a, ttl, max), ttl, max)
  {
    var e := Entry(a.id, a.added + ttl);
    InvOrdered(st, ttl, max);
    var k := AcceptShape(st.cache, a, e.expiresAt, max);
    AcceptStep(st, a, ttl, max, k);
    AcceptedInv(st, a, e, ttl, max, k);
  }

  lemma AcceptedInv(st: State, a: Arrival, e: Entry, ttl: nat, max: nat, k: nat)
    requires Inv(st, ttl, max) && InTime(st, a) && !Duplicate(st.cache, a.id, a.checked)
    requires k <= |st.cache| <= k + max && e == Entry(a.id, a.added + ttl)
    requires DistinctKeys(st.cache[k..] + [e])
    requires forall i | 0 <= i < k :: st.cache[i].expiresAt <= a.pruned || i + max < |st.cache|
    ensures Inv(State(st.cache[k..] + [e], st.log + [e], a.added), ttl, max)
  {
    AcceptGone(st, a, e, ttl, max, k);
    AcceptOrder(st.log, e);
    WindowMoves(st.cache, st.log, e, max, k);
  }

  lemma WindowMoves(cache: Cache, log: seq<Entry>, e: Entry, max: nat, k: nat)
    requires IsWindow(cache, log, max) && k <= |cache| <= k + max
    ensures IsWindow(cache[k..] + [e], log + [e], max)
  {
    var base := |log| - |cache|;
    assert log[base + k..] == cache[k..];
    assert cache[k..] + [e] == (log + [e])[base + k..];
  }

  lemma StepKeeps(st: State, a: Arrival, ttl: nat, max: nat)
    requires Inv(st, ttl, max) && InTime(st, a)
    ensures Inv(Step(st, a, ttl, max), ttl, max)
  {
    if Duplicate(st.cache, a.id, a.checked) {
      forall i: nat | i < |st.log| - |st.cache| ensures IsGone(st.log, i, a.checked, max) {
        assert IsGone(st.log, i, st.clock, max);
      }
    } else {
      AcceptKeeps(st, a, ttl, max);
    }
  }

  lemma GoneIsOld(log: seq<Entry>, n: nat, clock: int, max: nat)
    requires n <= |log| && Gone(log, n, clock, max)
    ensures forall i: nat | i < n :: log[i].expiresAt <= clock || i + max + 2 <= |log|
  {
    forall i: nat | i < n ensures log[i].expiresAt <= clock || i + max + 2 <= |log| {
      assert IsGone(log, i, clock, max);
    }
  }

  lemma WindowHolds(cache: Cache, log: seq<Entry>, max: nat)
    requires IsWindow(cache, log, max)
    ensures forall k | |log| - |cache| <= k < |log| :: log[k] in cache
  {
    forall k | |log| - |cache| <= k < |log| ensures log[k] in cache {
      assert log[k] == cache[k - (|log| - |cache|)];
    }
  }

  /** An event is refused exactly when its id was accepted less than the TTL ago, among the last max + 1 accepted. */
  lemma RefusedIff(st: State, id: string, now: int, ttl: nat, max: nat)
    requires Inv(st, ttl, max) && st.clock <= now
    ensures Duplicate(st.cache, id, now) <==>
            exists i: nat :: i < |st.log| <= i + max + 1 && st.log[i].key == id && st.log[i].expiresAt > now
  {
    var base := |st.log| - |st.cache|;
    if Duplicate(st.cache, id, now) {
      var e :| e in st.cache && e.key == id && e.expiresAt > now;
      var k :| 0 <= k < |st.cache| && st.cache[k] == e;
      assert st.log[base + k] == e;
    }
    GoneIsOld(st.log, base, st.clock, max);
    WindowHolds(st.cache, st.log, max);
  }

  /** A recently accepted id that is not refused is more than `max` different ids back. */
  lemma NotRefused(st: State, id: string, now: int, ttl: nat, max: nat, i: nat)
    requires Inv(st, ttl, max) && st.clock <= now && !Duplicate(st.cache, id, now)
    requires i < |st.log| && st.log[i].key == id && st.log[i].expiresAt > now
    ensures i + max + 2 <= |st.log| && DistinctKeys(st.log[i..i + max + 2])
  {
    WindowHolds(st.cache, st.log, max);
    assert IsGone(st.log, i, st.clock, max);
  }

  // ----- Every run -----

  function Execute(start: int, arrivals: seq<Arrival>, ttl: nat, max: nat): State {
    if arrivals == [] then State([], [], start)
    else Step(Execute(start, arrivals[..|arrivals| - 1], ttl, max), arrivals[|arrivals| - 1], ttl, max)
  }

  /** The clock never runs backwards. */
  predicate Monotone(start: int, arrivals: seq<Arrival>, ttl: nat, max: nat) {
    arrivals == []
    || (Monotone(start, arrivals[..|arrivals| - 1], ttl, max)
        && InTime(Execute(start, arrivals[..|arrivals| - 1], ttl, max), arrivals[|arrivals| - 1]))
  }

  lemma {:induction false} EveryRun(start: int, arrivals: seq<Arrival>, ttl: nat, max: nat)
    requires Monotone(start, arrivals, ttl, max)
    ensures Inv(Execute(start, arrivals, ttl, max), ttl, max)
  {
    if arrivals != [] {
      var front := arrivals[..|arrivals| - 1];
      EveryRun(start, front, ttl, max);
      StepKeeps(Execute(start, front, ttl, max), arrivals[|arrivals| - 1], ttl, max);
    }
  }

  /** The map stays in expiry order in every run, so the scans are the queue operations of PruneIsQueue. */
  lemma MapInExpiryOrder(start: int, arrivals: seq<Arrival>, ttl: nat, max: nat)
    requires Monotone(start, arrivals, ttl, max)
    ensures ByExpiry(Execute(start, arrivals, ttl, max).cache) && |Execute(start, arrivals, ttl, max).cache| <= max + 1
  {
    EveryRun(start, arrivals, ttl, max);
    InvOrdered(Execute(start, arrivals, ttl, max), ttl, max);
  }

  lemma {:induction false} EvictedLength(c: Cache, max: nat)
    ensures |EvictTo(c, max)| == if |c| <= max then |c| else max
    decreases |c|
  {
    if |c| > max {
      EvictedLength(RemoveAt(c, Oldest(c)), max);
    }
  }

  lemma OverBoundStep(st: State, a: Arrival, ttl: nat, max: nat)
    requires ByExpiry(st.cache) && a.checked <= a.pruned
    ensures var n := Step(st, a, ttl, max);
            if Duplicate(st.cache, a.id, a.checked) then n.cache == st.cache
            else |n.cache| > max <==> |Live(st.cache, a.pruned)| >= max
  {
    if !Duplicate(st.cache, a.id, a.checked) {
      OtherKeys(st.cache, a);
      PutPrunedLength(st.cache, a, a.added + ttl, max);
    }
  }

  /**
    When the map is over its bound. An accepted event leaves it there exactly when at least `max` entries were
    live at pruning time; a refused one leaves the map alone.
   */
  lemma OverBoundIff(start: int, arrivals: seq<Arrival>, a: Arrival, ttl: nat, max: nat)
    requires Monotone(start, arrivals, ttl, max) && InTime(Execute(start, arrivals, ttl, max), a)
    ensures var st := Execute(start, arrivals, ttl, max);
            var n := Step(st, a, ttl, max);
            if Duplicate(st.cache, a.id, a.checked) then n.cache == st.cache
            else |n.cache| > max <==> |Live(st.cache, a.pruned)| >= max
  {
    MapInExpiryOrder(start, arrivals, ttl, max);
    OverBoundStep(Execute(start, arrivals, ttl, max), a, ttl, max);
  }

  /** What is live, cut to the bound, and the new entry. */
  lemma PutPrunedLength(c: Cache, a: Arrival, expiresAt: int, max: nat)
    requires ByExpiry(c) && forall i | 0 <= i < |c| && c[i].expiresAt > a.pruned :: c[i].key != a.id
    ensures var live := |Live(c, a.pruned)|;
            |Put(Prune(c, a.pruned, max), a.id, expiresAt)| == (if live <= max then live else max) + 1
  {
    PrunedIsLive(c, a, max);
    EvictedLength(Live(c, a.pruned), max);
    PutLength(Prune(c, a.pruned, max), a.id, expiresAt);
  }

  lemma PrunedIsLive(c: Cache, a: Arrival, max: nat)
    requires ByExpiry(c) && forall i | 0 <= i < |c| && c[i].expiresAt > a.pruned :: c[i].key != a.id
    ensures forall e | e in Prune(c, a.pruned, max) :: e.key != a.id
  {
    var k := PruneCuts(c, a.pruned, max);
    forall e | e in c[k..] ensures e.key != a.id {
      var i :| 0 <= i < |c| - k && c[k..][i] == e;
      assert c[k + i] == e;
    }
  }

  lemma {:induction false} PutLength(c: Cache, key: string, expiresAt: int)
    ensures (forall e | e in c :: e.key != key) ==> |Put(c, key, expiresAt)| == |c| + 1
  {
    if c != [] {
      PutLength(c[1..], key, expiresAt);
      assert c[0] in c;
    }
  }

  /** The k-th of as many ids as needed. */
  function IdAt(k: nat): string {
    seq(k, i => 'x')
  }

  function Burst(n: nat): seq<Arrival> {
    seq(n, i requires 0 <= i < n => Arrival(IdAt(i), 0, 0, 0))
  }

  function BurstCache(n: nat, ttl: nat): Cache {
    seq(n, i requires 0 <= i < n => Entry(IdAt(i), ttl))
  }

  lemma BurstStep(st: State, n: nat, ttl: nat, max: nat)
    requires n <= max && ttl > 0 && st.cache == BurstCache(n, ttl) && st.clock == 0
    ensures var a := Arrival(IdAt(n), 0, 0, 0);
            InTime(st, a) && Step(st, a, ttl, max).cache == BurstCache(n + 1, ttl) && Step(st, a, ttl, max).clock == 0
  {
    var c := st.cache;
    forall i | 0 <= i < |c| ensures c[i].key != IdAt(n) {
      assert |c[i].key| == i;
    }
    AllLive(c, 0);
    PutAppends(c, IdAt(n), ttl);
    assert BurstCache(n + 1, ttl) == c + [Entry(IdAt(n), ttl)];
  }

  /** Different ids within one millisecond: the map takes one entry more than its bound. */
  lemma {:induction false} BurstRun(n: nat, ttl: nat, max: nat)
    requires n <= max + 1 && ttl > 0
    ensures Monotone(0, Burst(n), ttl, max)
    ensures Execute(0, Burst(n), ttl, max).cache == BurstCache(n, ttl) && Execute(0, Burst(n), ttl, max).clock == 0
  {
    if n > 0 {
      BurstRun(n - 1, ttl, max);
      assert Burst(n)[..n - 1] == Burst(n - 1) && Burst(n)[n - 1] == Arrival(IdAt(n - 1), 0, 0, 0);
      BurstStep(Execute(0, Burst(n - 1), ttl, max), n - 1, ttl, max);
    }
  }

  lemma BoundExceeded(ttl: nat, max: nat)
    requires ttl > 0
    ensures Monotone(0, Burst(max + 1), ttl, max) && |Execute(0, Burst(max + 1), ttl, max).cache| == max + 1
  {
    BurstRun(max + 1, ttl, max);
  }

  lemma InvOrdered(st: State, ttl: nat, max: nat)
    requires Inv(st, ttl, max)
    ensures ByExpiry(st.cache) && |st.cache| <= max + 1
  {
    SliceOrdered(st.log, |st.log| - |st.cache|, |st.log|);
  }

  ghost predicate Apart(log: seq<Entry>, ttl: nat, max: nat, i: nat, j: nat)
    requires i < j < |log|
  {
    || log[j].expiresAt - log[i].expiresAt >= ttl
    || (i + max + 2 <= j && DistinctKeys(log[i..i + max + 2]))
  }

  lemma ApartStays(log: seq<Entry>, e: Entry, ttl: nat, max: nat, i: nat, j: nat)
    requires i < j < |log| && Apart(log, ttl, max, i, j)
    ensures Apart(log + [e], ttl, max, i, j)
  {
    if i + max + 2 <= j { assert (log + [e])[i..i + max + 2] == log[i..i + max + 2]; }
  }

  lemma AcceptedIsApart(st: State, a: Arrival, ttl: nat, max: nat, i: nat)
    requires Inv(st, ttl, max) && InTime(st, a) && !Duplicate(st.cache, a.id, a.checked)
    requires i < |st.log| && st.log[i].key == a.id
    ensures Apart(st.log + [Entry(a.id, a.added + ttl)], ttl, max, i, |st.log|)
  {
    var log := st.log + [Entry(a.id, a.added + ttl)];
    if st.log[i].expiresAt > a.checked {
      NotRefused(st, a.id, a.checked, ttl, max, i);
      assert log[i..i + max + 2] == st.log[i..i + max + 2];
    }
  }

  lemma StepLog(st: State, a: Arrival, ttl: nat, max: nat)
    ensures Step(st, a, ttl, max).log ==
              if Duplicate(st.cache, a.id, a.checked) then st.log else st.log + [Entry(a.id, a.added + ttl)]
  {}

  /**
    Two accepted events with one id are a TTL apart, or more than `max` accepted ids, all different, lie
    between them.
   */
  lemma {:induction false} AcceptedApart(start: int, arrivals: seq<Arrival>, ttl: nat, max: nat, i: nat, j: nat)
    requires Monotone(start, arrivals, ttl, max)
    requires i < j < |Execute(start, arrivals, ttl, max).log|
    requires Execute(start, arrivals, ttl, max).log[i].key == Execute(start, arrivals, ttl, max).log[j].key
    ensures Apart(Execute(start, arrivals, ttl, max).log, ttl, max, i, j)
  {
    if arrivals != [] {
      var front, a := arrivals[..|arrivals| - 1], arrivals[|arrivals| - 1];
      var st := Execute(start, front, ttl, max);
      EveryRun(start, front, ttl, max);
      StepLog(st, a, ttl, max);
      if j < |st.log| {
        AcceptedApart(start, front, ttl, max, i, j);
        ApartStays(st.log, Entry(a.id, a.added + ttl), ttl, max, i, j);
      } else {
        AcceptedIsApart(st, a, ttl, max, i);
      }
    }
  }
}
