/** The response cache: an ordered dictionary with lazy expiry, and its operational counters. */
module LruCache {
  import opened Options

  /** A stored dictionary: "size" and "timestamp" may be missing. */
  datatype Entry = Entry(response: string, size: Option<int>, timestamp: Option<real>) {
    function Size(): int {
      if size.Some? then size.value else 0
    }
    function Timestamp(): real {
      if timestamp.Some? then timestamp.value else 0.0
    }
  }

  /** What is fixed when a cache is made. */
  datatype Config = Config(enabled: bool, capacity: nat, ttl: real, maxObjectSize: int)

  datatype Stats = Stats(hits: nat, misses: nat, evictions: nat, stores: nat, currentEntries: int, currentBytes: int)

  const NO_STATS := Stats(0, 0, 0, 0, 0, 0)

  function AtLeastZero(n: int): int {
    if n > 0 then n else 0
  }

  function Stored(s: Stats, size: int): Stats {
    s.(stores := s.stores + 1, currentEntries := s.currentEntries + 1, currentBytes := s.currentBytes + size)
  }

  function Removed(s: Stats, size: int): Stats {
    s.(currentEntries := AtLeastZero(s.currentEntries - 1), currentBytes := AtLeastZero(s.currentBytes - size))
  }

  class CacheStats {
    var hits: nat
    var misses: nat
    var evictions: nat
    var stores: nat
    var currentEntries: int
    var currentBytes: int

    ghost function View(): Stats
      reads this
    {
      Stats(hits, misses, evictions, stores, currentEntries, currentBytes)
    }

    constructor ()
      ensures View() == NO_STATS
    {
      hits, misses, evictions, stores, currentEntries, currentBytes := 0, 0, 0, 0, 0, 0;
    }

    method RecordHit()
      modifies this
      ensures View() == old(View()).(hits := old(hits) + 1)
    {
      hits := hits + 1;
    }

    method RecordMiss()
      modifies this
      ensures View() == old(View()).(misses := old(misses) + 1)
    {
      misses := misses + 1;
    }

    method RecordEviction(size: int)
      modifies this
      ensures View() == Removed(old(View()), size).(evictions := old(evictions) + 1)
    {
      evictions := evictions + 1;
      currentEntries := AtLeastZero(currentEntries - 1);
      currentBytes := AtLeastZero(currentBytes - size);
    }

    method RecordStore(size: int)
      modifies this
      ensures View() == Stored(old(View()), size)
    {
      stores := stores + 1;
      currentEntries := currentEntries + 1;
      currentBytes := currentBytes + size;
    }

    method RecordRemove(size: int)
      modifies this
      ensures View() == Removed(old(View()), size)
    {
      currentEntries := AtLeastZero(currentEntries - 1);
      currentBytes := AtLeastZero(currentBytes - size);
    }
  }

  function Evicted(s: Stats, size: int): Stats {
    Removed(s, size).(evictions := s.evictions + 1)
  }

  // ----- the ordered dictionary as a value, and the three operations on it -----

  datatype Key = Key(verb: string, host: string, port: int, path: string)

  /** `order` lists the keys of `entries`, least recently used first. */
  datatype Cache = Cache(order: seq<Key>, entries: map<Key, Entry>, stats: Stats)

  const EMPTY := Cache([], map[], NO_STATS)

  predicate Distinct(order: seq<Key>) {
    order == [] || (order[0] !in order[1..] && Distinct(order[1..]))
  }

  ghost predicate WellFormed(c: Cache) {
    Distinct(c.order) && forall k :: k in c.entries <==> k in c.order
  }

  function Without(order: seq<Key>, k: Key): seq<Key> {
    if order == [] then []
    else if order[0] == k then order[1..]
    else [order[0]] + Without(order[1..], k)
  }

  /** An absent key is appended. */
  function MoveToEnd(order: seq<Key>, k: Key): seq<Key> {
    Without(order, k) + [k]
  }

  predicate Expired(config: Config, e: Entry, now: real) {
    now - e.Timestamp() > config.ttl
  }

  function Missed(s: Stats): Stats {
    s.(misses := s.misses + 1)
  }

  function Get(config: Config, c: Cache, k: Key, now: real): (Cache, Option<Entry>) {
    if !config.enabled then (c, None)
    else if k !in c.entries then (c.(stats := Missed(c.stats)), None)
    else if Expired(config, c.entries[k], now) then
      (Cache(Without(c.order, k), c.entries - {k}, Missed(Evicted(c.stats, c.entries[k].Size()))), None)
    else
      (c.(order := MoveToEnd(c.order, k), stats := c.stats.(hits := c.stats.hits + 1)), Some(c.entries[k]))
  }

  function SizeOf(entries: map<Key, Entry>, k: Key): int {
    if k in entries then entries[k].Size() else 0
  }

  /** Drops the oldest keys until the dictionary fits. */
  function Evict(config: Config, c: Cache): Cache
    decreases |c.order|
  {
    if |c.order| <= config.capacity then c
    else
      var oldest := c.order[0];
      Evict(config, Cache(c.order[1..], c.entries - {oldest}, Evicted(c.stats, SizeOf(c.entries, oldest))))
  }

  predicate Admitted(config: Config, value: Entry) {
    config.enabled && value.Size() <= config.maxObjectSize
  }

  /** The value as stored: a missing timestamp is the time of the call. */
  function Stamped(value: Entry, now: real): Entry {
    if value.timestamp.Some? then value else value.(timestamp := Some(now))
  }

  function Insert(c: Cache, k: Key, value: Entry): Cache {
    var s := if k in c.entries then Removed(c.stats, c.entries[k].Size()) else c.stats;
    Cache(MoveToEnd(c.order, k), c.entries[k := value], Stored(s, value.Size()))
  }

  function Put(config: Config, c: Cache, k: Key, value: Entry, now: real): Cache {
    if Admitted(config, value) then Evict(config, Insert(c, k, Stamped(value, now))) else c
  }

  // ----- facts about the order -----

  lemma {:induction false} WithoutAbsent(order: seq<Key>, k: Key)
    requires k !in order
    ensures Without(order, k) == order
  {
    if order != [] {
      WithoutAbsent(order[1..], k);
    }
  }

  lemma {:induction false} WithoutMembers(order: seq<Key>, k: Key)
    requires Distinct(order)
    ensures Distinct(Without(order, k))
    ensures forall x :: x in Without(order, k) <==> x in order && x != k
    ensures |Without(order, k)| == if k in order then |order| - 1 else |order|
  {
    if order != [] {
      assert forall x :: x in order <==> x == order[0] || x in order[1..];
      if order[0] != k {
        WithoutMembers(order[1..], k);
        var rest := Without(order[1..], k);
        assert Without(order, k)[1..] == rest;
        assert forall x :: x in Without(order, k) <==> x == order[0] || x in rest;
      }
    }
  }

  lemma {:induction false} DistinctAppend(order: seq<Key>, k: Key)
    requires Distinct(order) && k !in order
    ensures Distinct(order + [k])
  {
    if order == [] {
      assert [k][1..] == [];
    } else {
      assert (order + [k])[1..] == order[1..] + [k];
      assert order[0] in order;
      DistinctAppend(order[1..], k);
    }
  }

  lemma MoveToEndMembers(order: seq<Key>, k: Key)
    requires Distinct(order)
    ensures Distinct(MoveToEnd(order, k))
    ensures forall x :: x in MoveToEnd(order, k) <==> x in order || x == k
    ensures |MoveToEnd(order, k)| == if k in order then |order| else |order| + 1
  {
    WithoutMembers(order, k);
    DistinctAppend(Without(order, k), k);
  }

  lemma GetKeepsWellFormed(config: Config, c: Cache, k: Key, now: real)
    requires WellFormed(c)
    ensures var c' := Get(config, c, k, now).0;
            WellFormed(c') && |c'.order| <= |c.order|
  {
    WithoutMembers(c.order, k);
    MoveToEndMembers(c.order, k);
  }

  lemma InsertKeepsWellFormed(c: Cache, k: Key, value: Entry)
    requires WellFormed(c)
    ensures WellFormed(Insert(c, k, value))
    ensures |Insert(c, k, value).order| <= |c.order| + 1
  {
    MoveToEndMembers(c.order, k);
  }

  /** What is left after eviction is the newest end of the order. */
  lemma {:induction false} EvictKeepsNewest(config: Config, c: Cache)
    requires WellFormed(c)
    ensures var c' := Evict(config, c);
            && WellFormed(c') && |c'.order| <= config.capacity
            && (var drop := if |c.order| <= config.capacity then 0 else |c.order| - config.capacity;
                c'.order == c.order[drop..])
            && (forall k :: k in c'.entries ==> k in c.entries && c'.entries[k] == c.entries[k])
    decreases |c.order|
  {
    if |c.order| > config.capacity {
      var oldest := c.order[0];
      var rest := Cache(c.order[1..], c.entries - {oldest}, Evicted(c.stats, SizeOf(c.entries, oldest)));
      assert forall k :: k in c.order <==> k == oldest || k in rest.order;
      assert WellFormed(rest);
      EvictKeepsNewest(config, rest);
    }
  }

  lemma PutKeepsWellFormed(config: Config, c: Cache, k: Key, value: Entry, now: real)
    requires WellFormed(c) && |c.order| <= config.capacity
    ensures var c' := Put(config, c, k, value, now);
            WellFormed(c') && |c'.order| <= config.capacity
  {
    if Admitted(config, value) {
      InsertKeepsWellFormed(c, k, Stamped(value, now));
      EvictKeepsNewest(config, Insert(c, k, Stamped(value, now)));
    }
  }

  /** The newest entry is never the victim. */
  lemma PutIsResident(config: Config, c: Cache, k: Key, e: Entry, now: real)
    requires WellFormed(c) && Admitted(config, e) && e.timestamp.Some? && config.capacity >= 1
    ensures var c' := Put(config, c, k, e, now);
            k in c'.entries && c'.entries[k] == e
  {
    var full := Insert(c, k, e);
    InsertKeepsWellFormed(c, k, e);
    EvictKeepsNewest(config, full);
    var c' := Evict(config, full);
    assert full.order[|full.order| - 1] == k;
    assert c'.order[|c'.order| - 1] == k;
  }

  // ----- the cache, changed in place -----

  class LRUCache {
    const config: Config
    var order: seq<Key>
    var entries: map<Key, Entry>
    var stats: CacheStats

    ghost function View(): Cache
      reads this, stats
    {
      Cache(order, entries, stats.View())
    }

    ghost predicate Valid()
      reads this, stats
    {
      WellFormed(View()) && |order| <= config.capacity
    }

    constructor (config: Config)
      ensures Valid() && this.config == config && View() == EMPTY && fresh(stats)
    {
      this.config := config;
      order := [];
      entries := map[];
      stats := new CacheStats();
    }

    method Lookup(key: Key, now: real) returns (found: Option<Entry>)
      requires Valid()
      modifies this, stats
      ensures Valid() && stats == old(stats)
      ensures (View(), found) == Get(config, old(View()), key, now)
    {
      GetKeepsWellFormed(config, View(), key, now);
      if !config.enabled {
        return None;
      }
      if key !in entries {
        stats.RecordMiss();
        return None;
      }
      var entry := entries[key];
      var age := now - entry.Timestamp();
      if age > config.ttl {
        var size := entry.Size();
        order := Without(order, key);
        entries := entries - {key};
        stats.RecordEviction(size);
        stats.RecordMiss();
        return None;
      }
      order := MoveToEnd(order, key);
      stats.RecordHit();
      return Some(entry);
    }

    /** Overwrites or appends one entry. */
    method SetItem(key: Key, value: Entry)
      requires Distinct(order) && (key in entries <==> key in order)
      modifies this, stats
      ensures stats == old(stats)
      ensures View() == Insert(old(View()), key, value)
    {
      if key in entries {
        stats.RecordRemove(entries[key].Size());
        order := MoveToEnd(order, key);
      } else {
        WithoutAbsent(order, key);
        order := order + [key];
      }
      entries := entries[key := value];
      stats.RecordStore(value.Size());
    }

    /** Drops the least recently used entries while there are too many. */
    method EvictOverflow()
      modifies this, stats
      ensures stats == old(stats)
      ensures View() == Evict(config, old(View()))
    {
      while |order| > config.capacity
        invariant stats == old(stats)
        invariant Evict(config, View()) == Evict(config, old(View()))
      {
        var oldest := order[0];
        var size := SizeOf(entries, oldest);
        order := order[1..];
        entries := entries - {oldest};
        stats.RecordEviction(size);
      }
    }

    method Store(key: Key, value: Entry, now: real)
      requires Valid()
      modifies this, stats
      ensures Valid() && stats == old(stats)
      ensures View() == Put(config, old(View()), key, value, now)
    {
      PutKeepsWellFormed(config, View(), key, value, now);
      if !config.enabled {
        return;
      }
      var entrySize := value.Size();
      if entrySize > config.maxObjectSize {
        return;
      }
      var stamped := value;
      if value.timestamp.None? {
        stamped := value.(timestamp := Some(now));
      }
      SetItem(key, stamped);
      EvictOverflow();
    }

    method Clear()
      modifies this
      ensures Valid() && fresh(stats) && View() == EMPTY
    {
      order := [];
      entries := map[];
      stats := new CacheStats();
    }
  }

  // ----- where entries come from -----

  lemma GetKeepsEntries(config: Config, c: Cache, k: Key, now: real)
    ensures var c' := Get(config, c, k, now).0;
            forall x :: x in c'.entries ==> x in c.entries && c'.entries[x] == c.entries[x]
  {
  }

  lemma PutKeepsEntries(config: Config, c: Cache, k: Key, e: Entry, now: real)
    requires WellFormed(c) && |c.order| <= config.capacity && e.timestamp.Some?
    ensures var c' := Put(config, c, k, e, now);
            && WellFormed(c') && |c'.order| <= config.capacity
            && forall x :: x in c'.entries ==>
                 (x == k && c'.entries[x] == e) || (x in c.entries && c'.entries[x] == c.entries[x])
  {
    PutKeepsWellFormed(config, c, k, e, now);
    if Admitted(config, e) {
      InsertKeepsWellFormed(c, k, e);
      EvictKeepsNewest(config, Insert(c, k, e));
    }
  }

  lemma GetFinds(config: Config, c: Cache, k: Key, now: real)
    ensures var found := Get(config, c, k, now).1;
            found.Some? ==> k in c.entries && c.entries[k] == found.value && now - found.value.Timestamp() <= config.ttl
  {
  }
}
