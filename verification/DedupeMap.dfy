/** The dedupe object of the fan-out handler, pruned in place by scanning. */
module DedupeMaps {
  import opened Wrappers
  import opened Dedupe

  /** Map.get. */
  function Lookup(c: Cache, key: string): Option<int> {
    if c == [] then None else if c[0].key == key then Some(c[0].expiresAt) else Lookup(c[1..], key)
  }

  /** With one entry per key, the one found decides. */
  lemma {:induction false} LookupDecides(c: Cache, key: string, now: int)
    requires DistinctKeys(c)
    ensures Duplicate(c, key, now) <==> Lookup(c, key).Some? && Lookup(c, key).value > now
  {
    if c != [] {
      assert c == [c[0]] + c[1..];
      if c[0].key == key {
        forall e | e in c[1..] ensures e.key != key {
          var i :| 0 <= i < |c[1..]| && c[1..][i] == e;
          assert Differ(c, 0, i + 1);
        }
        assert c[0] in c;
      } else {
        DistinctSlice(c, 1, |c|);
        LookupDecides(c[1..], key, now);
      }
    }
  }

  lemma LiveHead(kept: Cache, rest: Cache, now: int)
    requires rest != []
    ensures kept + Live(rest, now) ==
              if rest[0].expiresAt > now then kept + [rest[0]] + Live(rest[1..], now) else kept + Live(rest[1..], now)
  {}

  lemma Middle(kept: Cache, rest: Cache)
    requires rest != []
    ensures (kept + rest)[|kept|] == rest[0]
    ensures RemoveAt(kept + rest, |kept|) == kept + rest[1..]
    ensures kept + [rest[0]] + rest[1..] == kept + rest
  {}

  lemma Refuses(st: State, a: Arrival, ttl: nat, max: nat)
    requires Duplicate(st.cache, a.id, a.checked)
    ensures Step(st, a, ttl, max) == st.(clock := a.checked)
  {}

  lemma Accepts(st: State, a: Arrival, ttl: nat, max: nat)
    requires !Duplicate(st.cache, a.id, a.checked)
    ensures Step(st, a, ttl, max) ==
              State(Put(Prune(st.cache, a.pruned, max), a.id, a.added + ttl),
                    st.log + [Entry(a.id, a.added + ttl)], a.added)
  {}

  lemma OneEntryPerKey(st: State, ttl: nat, max: nat)
    requires Inv(st, ttl, max)
    ensures DistinctKeys(st.cache)
  {}

  class DedupeMap {
    const ttlMs: nat
    const maxSize: nat
    var entries: Cache
    ghost var log: seq<Entry>
    ghost var clock: int

    ghost function Value(): State
      reads this
    {
      State(entries, log, clock)
    }

    constructor (ttlMs: nat, maxSize: nat, now: int)
      ensures Value() == Execute(now, [], ttlMs, maxSize) && this.ttlMs == ttlMs && this.maxSize == maxSize
    {
      this.ttlMs, this.maxSize := ttlMs, maxSize;
      entries, log, clock := [], [], now;
    }

    method DropExpiredEntries(now: int)
      modifies this`entries
      ensures entries == Live(old(entries), now)
    {
      ghost var kept: Cache, rest := [], entries;
      var i := 0;
      while i < |entries|
        invariant entries == kept + rest && i == |kept| && kept + Live(rest, now) == Live(old(entries), now)
        decreases |rest|
      {
        Middle(kept, rest);
        LiveHead(kept, rest, now);
        if entries[i].expiresAt <= now {
          entries := RemoveAt(entries, i);
        } else {
          i := i + 1;
          kept := kept + [rest[0]];
        }
        rest := rest[1..];
      }
    }

    method OldestEntry() returns (oldest: Option<nat>)
      ensures oldest == if entries == [] then None else Some(Oldest(entries))
    {
      oldest := None;
      for i := 0 to |entries|
        invariant oldest == if i == 0 then None else Some(Oldest(entries[..i]))
      {
        assert entries[..i + 1][..i] == entries[..i];
        if oldest == None || entries[i].expiresAt < entries[oldest.value].expiresAt {
          oldest := Some(i);
        }
      }
      assert entries[..|entries|] == entries;
    }

    /** Drops expired entries, then the oldest ones until the map is within its bound. */
    method PruneDedupeMap(now: int)
      modifies this`entries
      ensures entries == Prune(old(entries), now, maxSize)
    {
      DropExpiredEntries(now);
      ghost var live := entries;
      while |entries| > maxSize
        invariant EvictTo(entries, maxSize) == EvictTo(live, maxSize)
      {
        var oldest := OldestEntry();
        if oldest == None { break; }
        entries := RemoveAt(entries, oldest.value);
      }
    }

    method IsDuplicate(messageId: string, now: int) returns (r: bool)
      requires DistinctKeys(entries)
      ensures r == Duplicate(entries, messageId, now)
    {
      LookupDecides(entries, messageId, now);
      var expiresAt := Lookup(entries, messageId);
      r := expiresAt.Some? && expiresAt.value > now;
    }

    method Add(messageId: string, pruned: int, added: int)
      modifies this`entries
      ensures entries == Put(Prune(old(entries), pruned, maxSize), messageId, added + ttlMs)
    {
      PruneDedupeMap(pruned);
      entries := Put(entries, messageId, added + ttlMs);
    }

    /** Check and add, in one piece. */
    method Admit(a: Arrival) returns (accepted: bool)
      requires DistinctKeys(entries)
      modifies this
      ensures Value() == Step(old(Value()), a, ttlMs, maxSize) && accepted == !Duplicate(old(entries), a.id, a.checked)
    {
      var duplicate := IsDuplicate(a.id, a.checked);
      if duplicate {
        Refuses(Value(), a, ttlMs, maxSize);
        clock := a.checked;
        return false;
      }
      Accepts(Value(), a, ttlMs, maxSize);
      Add(a.id, a.pruned, a.added);
      log, clock := log + [Entry(a.id, a.added + ttlMs)], a.added;
      accepted := true;
    }

    /** The handler up to its first wait: an event of this instance or a repeated one goes no further. */
    method OnChatMessage(instanceId: string, originInstanceId: string, a: Arrival) returns (accepted: bool)
      requires Inv(Value(), ttlMs, maxSize) && InTime(Value(), a)
      modifies this
      ensures Inv(Value(), ttlMs, maxSize)
      ensures originInstanceId == instanceId ==> !accepted && Value() == old(Value())
      ensures originInstanceId != instanceId ==>
                Value() == Step(old(Value()), a, ttlMs, maxSize)
                  && accepted == !Duplicate(old(entries), a.id, a.checked)
    {
      if originInstanceId == instanceId { return false; }
      OneEntryPerKey(Value(), ttlMs, maxSize);
      StepKeeps(Value(), a, ttlMs, maxSize);
      accepted := Admit(a);
    }
  }
}
