/** The time-boxed cache of src/lib/kbo-data.ts (`getCachedData`): one map from
    key to the last produced value and the time it was stored, consulted
    before a producer is run. The clock is read twice by the source (once to
    test freshness, once after the producer finished to stamp the entry); both
    readings are parameters here. */
module KboCache {
  import opened Common

  /** Five minutes, in milliseconds. */
  const CACHE_DURATION: int := 5 * 60 * 1000

  /** A stored value and the time it was stored. */
  datatype Entry<T> = Entry(data: T, timestamp: int)

  /** Whether an entry stored at `timestamp` may still be served at `now`: strictly less than
      five minutes old. */
  predicate Fresh(timestamp: int, now: int) {
    now - timestamp < CACHE_DURATION
  }

  /** The value the cache serves for key at time now without running the producer, if any. */
  function Lookup<T>(entries: map<string, Entry<T>>, key: string, now: int): (r: Option<T>)
    ensures r.Some? <==> key in entries && Fresh(entries[key].timestamp, now)
    ensures r.Some? ==> r.value == entries[key].data
  {
    if key in entries && Fresh(entries[key].timestamp, now) then Some(entries[key].data) else None
  }

  /** An entry stored at time t is served from t up to, but not including, t + 5 minutes:
      at exactly five minutes it has expired. */
  lemma FreshWindow(t: int, now: int)
    requires t <= now
    ensures Fresh(t, now) <==> now < t + 300000
    ensures !Fresh(t, t + 300000)
    ensures Fresh(t, t + 299999)
  {
  }

  /** Storing under one key leaves what is served for every other key unchanged. */
  lemma LookupOtherKey<T>(entries: map<string, Entry<T>>, key: string, e: Entry<T>, other: string, now: int)
    requires other != key
    ensures Lookup(entries[key := e], other, now) == Lookup(entries, other, now)
  {
  }

  /** What was just stored is served until it expires. */
  lemma LookupAfterStore<T>(entries: map<string, Entry<T>>, key: string, data: T, storedAt: int, now: int)
    requires storedAt <= now
    ensures Lookup(entries[key := Entry(data, storedAt)], key, now)
      == if now < storedAt + CACHE_DURATION then Some(data) else None
  {
  }

  /** The module-level `cache` map. `produced` records, for the proofs, the keys whose
      producer has been run, in order. */
  class Cache<T> {
    var entries: map<string, Entry<T>>
    ghost var produced: seq<string>

    /** `new Map()`: nothing stored, nothing produced. */
    constructor()
      ensures entries == map[] && produced == []
    {
      entries := map[];
      produced := [];
    }

    /** Whether key would be served from the cache at time now. */
    predicate IsFresh(key: string, now: int)
      reads this
    {
      Lookup(entries, key, now).Some?
    }

    /** `getCachedData(key, fetchFn)`: a fresh entry is returned without running the
        producer; otherwise the producer runs once, its value is stored under key with the
        time `storedAt` of the second clock reading, and returned. Other keys are untouched. */
    method GetCachedData(key: string, fetchFn: () -> T, now: int, storedAt: int) returns (data: T)
      modifies this
      ensures old(IsFresh(key, now)) ==>
        data == old(entries[key].data) && entries == old(entries) && produced == old(produced)
      ensures !old(IsFresh(key, now)) ==>
        data == fetchFn() && entries == old(entries)[key := Entry(data, storedAt)]
        && produced == old(produced) + [key]
      ensures forall k :: k != key ==> (k in entries <==> k in old(entries))
      ensures forall k :: k != key && k in entries ==> entries[k] == old(entries[k])
    {
      var cached := Lookup(entries, key, now);
      if cached.Some? {
        return cached.value;
      }
      data := fetchFn();
      entries := entries[key := Entry(data, storedAt)];
      produced := produced + [key];
    }
  }

  /** Two reads of the same key less than five minutes apart, the first one a miss: the
      producer runs once and both reads return its value. */
  method ReadTwiceWithin<T>(c: Cache<T>, key: string, fetchFn: () -> T, t1: int, t2: int)
    returns (first: T, second: T)
    requires !c.IsFresh(key, t1)
    requires t1 <= t2 < t1 + CACHE_DURATION
    modifies c
    ensures first == fetchFn() && second == first
    ensures c.produced == old(c.produced) + [key]
  {
    first := c.GetCachedData(key, fetchFn, t1, t1);
    second := c.GetCachedData(key, fetchFn, t2, t2);
  }

  /** A read exactly five minutes after a value was produced and stored runs the producer
      again. */
  method ReadAfterExpiry<T>(c: Cache<T>, key: string, fetchFn: () -> T, t1: int)
    returns (first: T, second: T)
    requires !c.IsFresh(key, t1)
    modifies c
    ensures c.produced == old(c.produced) + [key, key]
    ensures first == fetchFn() && second == fetchFn()
  {
    first := c.GetCachedData(key, fetchFn, t1, t1);
    second := c.GetCachedData(key, fetchFn, t1 + CACHE_DURATION, t1 + CACHE_DURATION);
  }
}
