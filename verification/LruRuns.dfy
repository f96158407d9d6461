/** What the cache promises over whole runs of operations. */
module LruRuns {
  import opened Options
  import opened LruCache

  datatype Op =
    | GetOp(key: Key, now: real)
    | PutOp(key: Key, value: Entry, now: real)
    | ClearOp

  function Apply(config: Config, c: Cache, op: Op): (Cache, Option<Entry>) {
    match op
    case GetOp(k, now) => Get(config, c, k, now)
    case PutOp(k, value, now) => (Put(config, c, k, value, now), None)
    case ClearOp => (EMPTY, None)
  }

  function Final(config: Config, c: Cache, ops: seq<Op>): Cache {
    if ops == [] then c else Apply(config, Final(config, c, ops[..|ops| - 1]), ops[|ops| - 1]).0
  }

  function Results(config: Config, ops: seq<Op>): (r: seq<Option<Entry>>)
    ensures |r| == |ops|
  {
    seq(|ops|, i requires 0 <= i < |ops| => Apply(config, Final(config, EMPTY, ops[..i]), ops[i]).1)
  }

  ghost predicate Sound(config: Config, c: Cache) {
    WellFormed(c) && |c.order| <= config.capacity
  }

  lemma ApplyKeepsSound(config: Config, c: Cache, op: Op)
    requires Sound(config, c)
    ensures Sound(config, Apply(config, c, op).0)
  {
    match op
    case GetOp(k, now) => GetKeepsWellFormed(config, c, k, now);
    case PutOp(k, value, now) => PutKeepsWellFormed(config, c, k, value, now);
    case ClearOp =>
  }

  lemma {:induction false} FinalIsSound(config: Config, c: Cache, ops: seq<Op>)
    requires Sound(config, c)
    ensures Sound(config, Final(config, c, ops))
  {
    if ops != [] {
      FinalIsSound(config, c, ops[..|ops| - 1]);
      ApplyKeepsSound(config, Final(config, c, ops[..|ops| - 1]), ops[|ops| - 1]);
    }
  }

  // ----- refinement: a plain map with last-touch times -----

  /** The specification: a map, and for each of its keys the logical time of its last touch. */
  datatype Spec = Spec(entries: map<Key, Entry>, touched: map<Key, nat>, clock: nat)

  const SPEC_START := Spec(map[], map[], 0)

  function SpecWithout(t: Spec, k: Key): Spec {
    t.(entries := t.entries - {k}, touched := t.touched - {k})
  }

  function SpecTouch(t: Spec, k: Key, value: Entry): Spec {
    Spec(t.entries[k := value], t.touched[k := t.clock], t.clock + 1)
  }

  ghost predicate LeastTouched(t: Spec, victim: Key) {
    victim in t.touched && forall k :: k in t.touched && k != victim ==> t.touched[victim] < t.touched[k]
  }

  ghost predicate SpecStep(config: Config, t: Spec, op: Op, t': Spec, result: Option<Entry>) {
    match op
    case GetOp(k, now) =>
      if !config.enabled || k !in t.entries then t' == t && result == None
      else if Expired(config, t.entries[k], now) then t' == SpecWithout(t, k) && result == None
      else t' == SpecTouch(t, k, t.entries[k]) && result == Some(t.entries[k])
    case PutOp(k, value, now) =>
      result == None &&
      if !Admitted(config, value) then t' == t
      else
        var grown := SpecTouch(t, k, Stamped(value, now));
        if |grown.entries| <= config.capacity then t' == grown
        else exists victim :: LeastTouched(grown, victim) && t' == SpecWithout(grown, victim)
    case ClearOp => result == None && t' == Spec(map[], map[], t.clock)
  }

  ghost predicate SpecRun(config: Config, ops: seq<Op>, results: seq<Option<Entry>>, t: Spec)
    requires |results| == |ops|
  {
    if ops == [] then t == SPEC_START
    else
      var n := |ops| - 1;
      exists t0 :: SpecRun(config, ops[..n], results[..n], t0) && SpecStep(config, t0, ops[n], t, results[n])
  }

  ghost predicate InTouchOrder(order: seq<Key>, touched: map<Key, nat>) {
    order == [] ||
    (InTouchOrder(order[1..], touched) && order[0] in touched
     && forall k :: k in order[1..] ==> k in touched && touched[order[0]] < touched[k])
  }

  /** Same map, and the dictionary order is the order of last touches. */
  ghost predicate Refines(c: Cache, t: Spec) {
    && WellFormed(c) && c.entries == t.entries && t.touched.Keys == t.entries.Keys
    && (forall k :: k in t.touched ==> t.touched[k] < t.clock)
    && InTouchOrder(c.order, t.touched)
  }

  lemma {:induction false} OrderIsCount(order: seq<Key>, keys: set<Key>)
    requires Distinct(order) && forall k :: k in keys <==> k in order
    ensures |keys| == |order|
  {
    if order == [] {
      assert keys == {};
    } else {
      assert forall k :: k in keys - {order[0]} <==> k in order[1..];
      OrderIsCount(order[1..], keys - {order[0]});
    }
  }

  lemma {:induction false} WithoutInTouchOrder(order: seq<Key>, touched: map<Key, nat>, k: Key)
    requires Distinct(order) && InTouchOrder(order, touched)
    ensures InTouchOrder(Without(order, k), touched - {k})
  {
    if order != [] {
      WithoutMembers(order[1..], k);
      WithoutInTouchOrder(order[1..], touched, k);
      if order[0] != k {
        assert Without(order, k)[1..] == Without(order[1..], k);
      } else {
        WithoutAbsent(order[1..], k);
      }
    }
  }

  lemma {:induction false} AppendInTouchOrder(order: seq<Key>, touched: map<Key, nat>, k: Key, clock: nat)
    requires InTouchOrder(order, touched - {k}) && k !in order
    requires forall x :: x in touched ==> touched[x] < clock
    ensures InTouchOrder(order + [k], touched[k := clock])
  {
    if order == [] {
      var one := order + [k];
      assert one[1..] == [] && InTouchOrder(one[1..], touched[k := clock]);
    } else {
      assert (order + [k])[1..] == order[1..] + [k];
      assert order[0] in order && forall x :: x in order[1..] ==> x in order;
      AppendInTouchOrder(order[1..], touched, k, clock);
    }
  }

  lemma WithoutRefines(c: Cache, t: Spec, k: Key, s: Stats)
    requires Refines(c, t)
    ensures Refines(Cache(Without(c.order, k), c.entries - {k}, s), SpecWithout(t, k))
  {
    WithoutMembers(c.order, k);
    WithoutInTouchOrder(c.order, t.touched, k);
  }

  lemma TouchRefines(c: Cache, t: Spec, k: Key, value: Entry, s: Stats)
    requires Refines(c, t)
    ensures Refines(Cache(MoveToEnd(c.order, k), c.entries[k := value], s), SpecTouch(t, k, value))
  {
    WithoutMembers(c.order, k);
    MoveToEndMembers(c.order, k);
    WithoutInTouchOrder(c.order, t.touched, k);
    AppendInTouchOrder(Without(c.order, k), t.touched, k, t.clock);
  }

  lemma PutRefines(config: Config, c: Cache, t: Spec, k: Key, value: Entry, now: real) returns (t': Spec)
    requires Refines(c, t) && |c.order| <= config.capacity
    ensures SpecStep(config, t, PutOp(k, value, now), t', None)
    ensures Refines(Put(config, c, k, value, now), t')
  {
    if !Admitted(config, value) {
      t' := t;
    } else {
      var stamped := Stamped(value, now);
      var full, grown := Insert(c, k, stamped), SpecTouch(t, k, stamped);
      TouchRefines(c, t, k, stamped, full.stats);
      OrderIsCount(full.order, grown.entries.Keys);
      InsertKeepsWellFormed(c, k, stamped);
      if |full.order| <= config.capacity {
        t' := grown;
      } else {
        var victim := full.order[0];
        assert forall other :: other in full.order ==> other == victim || other in full.order[1..];
        assert LeastTouched(grown, victim);
        t' := SpecWithout(grown, victim);
        var s := Evicted(full.stats, SizeOf(full.entries, victim));
        WithoutRefines(full, grown, victim, s);
        assert Without(full.order, victim) == full.order[1..];
        assert Evict(config, full) == Cache(full.order[1..], full.entries - {victim}, s);
      }
    }
  }

  lemma StepRefines(config: Config, c: Cache, t: Spec, op: Op) returns (t': Spec)
    requires Refines(c, t) && |c.order| <= config.capacity
    ensures SpecStep(config, t, op, t', Apply(config, c, op).1)
    ensures Refines(Apply(config, c, op).0, t')
  {
    match op
    case GetOp(k, now) =>
      if !config.enabled || k !in c.entries {
        t' := t;
      } else if Expired(config, c.entries[k], now) {
        t' := SpecWithout(t, k);
        WithoutRefines(c, t, k, Apply(config, c, op).0.stats);
      } else {
        t' := SpecTouch(t, k, t.entries[k]);
        TouchRefines(c, t, k, t.entries[k], Apply(config, c, op).0.stats);
        assert c.entries[k := t.entries[k]] == c.entries;
      }
    case PutOp(k, value, now) =>
      t' := PutRefines(config, c, t, k, value, now);
    case ClearOp =>
      t' := Spec(map[], map[], t.clock);
  }

  /** Every run of the cache answers as the map with last-touch times does. */
  lemma {:induction false} CacheRefinesSpec(config: Config, ops: seq<Op>) returns (t: Spec)
    ensures SpecRun(config, ops, Results(config, ops), t)
    ensures Refines(Final(config, EMPTY, ops), t)
    decreases |ops|
  {
    if ops == [] {
      t := SPEC_START;
    } else {
      var n := |ops| - 1;
      var results := Results(config, ops);
      var t0 := CacheRefinesSpec(config, ops[..n]);
      FinalIsSound(config, EMPTY, ops[..n]);
      t := StepRefines(config, Final(config, EMPTY, ops[..n]), t0, ops[n]);
      assert results[..n] == Results(config, ops[..n]) by {
        forall i | 0 <= i < n ensures results[i] == Results(config, ops[..n])[i] {
          assert ops[..n][..i] == ops[..i];
        }
      }
    }
  }

  // ----- what a hit returns -----

  /** The value a reader of the history would expect: the last admitted put of the key since the last clear. */
  function LatestPut(config: Config, ops: seq<Op>, k: Key): Option<Entry> {
    if ops == [] then None
    else
      match ops[|ops| - 1]
      case ClearOp => None
      case PutOp(key, value, now) =>
        if key == k && Admitted(config, value) then Some(Stamped(value, now)) else LatestPut(config, ops[..|ops| - 1], k)
      case GetOp(_, _) => LatestPut(config, ops[..|ops| - 1], k)
  }

  lemma {:induction false} ResidentIsLatest(config: Config, ops: seq<Op>, k: Key)
    requires k in Final(config, EMPTY, ops).entries
    ensures LatestPut(config, ops, k) == Some(Final(config, EMPTY, ops).entries[k])
    decreases |ops|
  {
    if ops != [] {
      var before, op := ops[..|ops| - 1], ops[|ops| - 1];
      var c := Final(config, EMPTY, before);
      FinalIsSound(config, EMPTY, before);
      if op.PutOp? && Admitted(config, op.value) {
        var full := Insert(c, op.key, Stamped(op.value, op.now));
        InsertKeepsWellFormed(c, op.key, Stamped(op.value, op.now));
        EvictKeepsNewest(config, full);
        assert k in full.entries;
      }
      if !(op.PutOp? && op.key == k && Admitted(config, op.value)) {
        ResidentIsLatest(config, before, k);
      }
    }
  }

  /** A hit returns exactly the latest admitted put, and one that is still within its time to live. */
  lemma HitIsLatestPut(config: Config, ops: seq<Op>, k: Key, now: real)
    ensures var found := Get(config, Final(config, EMPTY, ops), k, now).1;
            found.Some? ==> found == LatestPut(config, ops, k) && now - found.value.Timestamp() <= config.ttl
  {
    if Get(config, Final(config, EMPTY, ops), k, now).1.Some? {
      ResidentIsLatest(config, ops, k);
    }
  }

  lemma {:induction false} LatestPutFits(config: Config, ops: seq<Op>, k: Key)
    requires LatestPut(config, ops, k).Some?
    ensures config.enabled && LatestPut(config, ops, k).value.Size() <= config.maxObjectSize
    ensures exists i, value, now :: 0 <= i < |ops| && ops[i] == PutOp(k, value, now) && LatestPut(config, ops, k)
              == Some(value.(timestamp := Some(if value.timestamp.Some? then value.timestamp.value else now)))
  {
    var last := ops[|ops| - 1];
    if last.PutOp? && last.key == k && Admitted(config, last.value) {
      assert ops[|ops| - 1] == PutOp(k, last.value, last.now);
    } else {
      LatestPutFits(config, ops[..|ops| - 1], k);
    }
  }

  /** Nothing oversized is ever in the cache, nothing at all in a disabled one, and everything in it came by a put, with
      the time of that put unless it brought its own. */
  lemma ResidentsFit(config: Config, ops: seq<Op>, k: Key)
    requires k in Final(config, EMPTY, ops).entries
    ensures var e := Final(config, EMPTY, ops).entries[k];
            && config.enabled && e.Size() <= config.maxObjectSize
            && exists i, value, now :: 0 <= i < |ops| && ops[i] == PutOp(k, value, now)
                 && e == value.(timestamp := Some(if value.timestamp.Some? then value.timestamp.value else now))
  {
    ResidentIsLatest(config, ops, k);
    LatestPutFits(config, ops, k);
  }

  /** A put drops the oldest key of a full cache, and never the key it brings. */
  lemma VictimIsOldest(config: Config, c: Cache, key: Key, value: Entry, k: Key)
    requires Sound(config, c) && k in c.order && k !in Evict(config, Insert(c, key, value)).order
    ensures key != k
    ensures var full := Insert(c, key, value).order;
            && WellFormed(Insert(c, key, value)) && |full| == config.capacity + 1 && full[0] == k
  {
    var full := Insert(c, key, value);
    InsertKeepsWellFormed(c, key, value);
    EvictKeepsNewest(config, full);
    MoveToEndMembers(c.order, key);
    var left := Evict(config, full).order;
    assert full.order[|full.order| - 1] == key;
    assert left[|left| - 1] == key;
    assert k in full.order && left == full.order[1..];
  }

  /** The only ways out: a clear, a read that finds the key expired, or being the least recently used
      key of a full cache when a put brings another one. */
  lemma LeavesOnly(config: Config, ops: seq<Op>, op: Op, k: Key)
    requires var c := Final(config, EMPTY, ops);
             k in c.entries && k !in Apply(config, c, op).0.entries
    ensures var c := Final(config, EMPTY, ops);
            || op.ClearOp?
            || (op.GetOp? && op.key == k && Expired(config, c.entries[k], op.now))
            || (op.PutOp? && Admitted(config, op.value) && op.key !in c.entries
                && |c.order| == config.capacity > 0 && c.order[0] == k)
  {
    var c := Final(config, EMPTY, ops);
    FinalIsSound(config, EMPTY, ops);
    if op.PutOp? && Admitted(config, op.value) {
      var value := Stamped(op.value, op.now);
      EvictKeepsNewest(config, Insert(c, op.key, value)) by {
        InsertKeepsWellFormed(c, op.key, value);
      }
      VictimIsOldest(config, c, op.key, value, k);
      MoveToEndMembers(c.order, op.key);
      if op.key !in c.entries {
        WithoutAbsent(c.order, op.key);
      }
    }
  }

  // ----- how long a key survives -----

  /** The key an operation stores or hits, if any. */
  function Touch(config: Config, c: Cache, op: Op): Option<Key> {
    match op
    case GetOp(k, now) => if Get(config, c, k, now).1.Some? then Some(k) else None
    case PutOp(k, value, _) => if Admitted(config, value) then Some(k) else None
    case ClearOp => None
  }

  /** The distinct keys stored or hit during a run. */
  function Touched(config: Config, c: Cache, ops: seq<Op>): set<Key> {
    if ops == [] then {}
    else
      var before := ops[..|ops| - 1];
      var t := Touch(config, Final(config, c, before), ops[|ops| - 1]);
      Touched(config, c, before) + (if t.Some? then {t.value} else {})
  }

  /** The keys used more recently than k. */
  function NewerThan(order: seq<Key>, k: Key): seq<Key> {
    if order == [] then []
    else if order[0] == k then order[1..]
    else NewerThan(order[1..], k)
  }

  /** Every key more recently used than k is in `newer`. */
  ghost predicate Behind(order: seq<Key>, k: Key, newer: set<Key>) {
    k in order && forall x :: x in NewerThan(order, k) ==> x in newer
  }

  lemma {:induction false} WithoutBehind(order: seq<Key>, k: Key, newer: set<Key>, other: Key)
    requires Distinct(order) && Behind(order, k, newer) && other != k
    ensures Behind(Without(order, other), k, newer)
  {
    if order[0] == k {
      WithoutMembers(order[1..], other);
      assert Without(order, other)[1..] == Without(order[1..], other);
    } else if order[0] != other {
      WithoutBehind(order[1..], k, newer, other);
      assert Without(order, other)[1..] == Without(order[1..], other);
    }
  }

  lemma {:induction false} AppendBehind(order: seq<Key>, k: Key, newer: set<Key>, other: Key)
    requires Behind(order, k, newer) && other != k
    ensures Behind(order + [other], k, newer + {other})
  {
    assert (order + [other])[1..] == order[1..] + [other];
    if order[0] != k {
      AppendBehind(order[1..], k, newer, other);
    }
  }

  lemma MoveBehind(order: seq<Key>, k: Key, newer: set<Key>, other: Key)
    requires Distinct(order) && Behind(order, k, newer) && other != k
    ensures Behind(MoveToEnd(order, other), k, newer + {other})
  {
    WithoutBehind(order, k, newer, other);
    AppendBehind(Without(order, other), k, newer, other);
  }

  lemma {:induction false} DropBehind(order: seq<Key>, k: Key, newer: set<Key>, drop: nat)
    requires Distinct(order) && Behind(order, k, newer) && drop <= |order| && k in order[drop..]
    ensures Behind(order[drop..], k, newer)
  {
    if drop > 0 {
      assert order[drop..] == order[1..][drop - 1..];
      assert forall x :: x in order[1..][drop - 1..] ==> x in order[1..];
      DropBehind(order[1..], k, newer, drop - 1);
    }
  }

  lemma PutBehind(config: Config, c: Cache, key: Key, value: Entry, k: Key, newer: set<Key>)
    requires Sound(config, c) && Behind(c.order, k, newer) && key != k
    requires k in Evict(config, Insert(c, key, value)).order
    ensures Behind(Evict(config, Insert(c, key, value)).order, k, newer + {key})
  {
    var full := Insert(c, key, value);
    MoveBehind(c.order, k, newer, key);
    InsertKeepsWellFormed(c, key, value);
    EvictKeepsNewest(config, full);
    DropBehind(full.order, k, newer + {key}, if |full.order| <= config.capacity then 0 else |full.order| - config.capacity);
  }

  lemma GetBehind(config: Config, c: Cache, key: Key, now: real, k: Key, newer: set<Key>)
    requires Sound(config, c) && Behind(c.order, k, newer)
    requires var (c', found) := Get(config, c, key, now); k in c'.order && (key == k ==> found.None?)
    ensures var (c', found) := Get(config, c, key, now);
            Behind(c'.order, k, if found.Some? then newer + {key} else newer)
  {
    if config.enabled && key in c.entries {
      if key == k {
        WithoutMembers(c.order, k);
      } else if Expired(config, c.entries[key], now) {
        WithoutBehind(c.order, k, newer, key);
      } else {
        MoveBehind(c.order, k, newer, key);
      }
    }
  }

  /** One step that does not touch k and does not drop it. */
  lemma StepBehind(config: Config, c: Cache, op: Op, k: Key, newer: set<Key>)
    requires Sound(config, c) && Behind(c.order, k, newer)
    requires Touch(config, c, op) != Some(k) && k in Apply(config, c, op).0.order
    ensures var t := Touch(config, c, op);
            Behind(Apply(config, c, op).0.order, k, newer + (if t.Some? then {t.value} else {}))
  {
    assert newer + {} == newer;
    match op
    case GetOp(key, now) => GetBehind(config, c, key, now, k, newer);
    case PutOp(key, value, now) =>
      if Admitted(config, value) {
        PutBehind(config, c, key, Stamped(value, now), k, newer);
      }
    case ClearOp =>
  }

  lemma OnlyTouchesAdd(config: Config, c: Cache, op: Op, k: Key)
    requires Sound(config, c) && k in Apply(config, c, op).0.order && Touch(config, c, op) != Some(k)
    ensures k in c.order
  {
    match op
    case GetOp(key, now) => WithoutMembers(c.order, key);
    case PutOp(key, value, now) =>
      WithoutMembers(c.order, key);
      InsertKeepsWellFormed(c, key, Stamped(value, now));
      EvictKeepsNewest(config, Insert(c, key, Stamped(value, now)));
    case ClearOp =>
  }

  /** While k is resident and untouched, everything used more recently than k was touched meanwhile. */
  lemma {:induction false} RunBehind(config: Config, c: Cache, ops: seq<Op>, k: Key)
    requires Sound(config, c) && Behind(c.order, k, {})
    requires k in Final(config, c, ops).order && k !in Touched(config, c, ops)
    ensures Behind(Final(config, c, ops).order, k, Touched(config, c, ops))
    decreases |ops|
  {
    if ops != [] {
      var before, op := ops[..|ops| - 1], ops[|ops| - 1];
      FinalIsSound(config, c, before);
      OnlyTouchesAdd(config, Final(config, c, before), op, k);
      RunBehind(config, c, before, k);
      StepBehind(config, Final(config, c, before), op, k, Touched(config, c, before));
    }
  }

  lemma {:induction false} DistinctWithin(order: seq<Key>, keys: set<Key>)
    requires Distinct(order) && forall i :: 0 <= i < |order| ==> order[i] in keys
    ensures |order| <= |keys|
  {
    if order != [] {
      DistinctWithin(order[1..], keys - {order[0]});
    }
  }

  /** What a put drops for capacity has a whole cache of more recently used keys behind it. */
  lemma VictimIsBehindCapacity(config: Config, c: Cache, put: Op, k: Key, newer: set<Key>)
    requires Sound(config, c) && Behind(c.order, k, newer) && put.PutOp?
    requires k !in Apply(config, c, put).0.order
    ensures put.key != k && Admitted(config, put.value) && |newer + {put.key}| >= config.capacity
  {
    var value := Stamped(put.value, put.now);
    VictimIsOldest(config, c, put.key, value, k);
    var full := Insert(c, put.key, value).order;
    MoveBehind(c.order, k, newer, put.key);
    assert NewerThan(full, k) == full[1..];
    DistinctWithin(full[1..], newer + {put.key});
  }

  lemma {:induction false} LastIsNewest(order: seq<Key>, k: Key)
    requires k !in order
    ensures NewerThan(order + [k], k) == []
  {
    if order == [] {
      assert [k][1..] == [];
    } else {
      assert order[0] in order && (order + [k])[1..] == order[1..] + [k];
      LastIsNewest(order[1..], k);
    }
  }

  lemma JustTouchedIsLast(config: Config, c: Cache, op: Op, k: Key)
    requires Sound(config, c) && Touch(config, c, op) == Some(k) && k in Apply(config, c, op).0.order
    ensures Behind(Apply(config, c, op).0.order, k, {})
  {
    WithoutMembers(c.order, k);
    MoveToEndMembers(c.order, k);
    LastIsNewest(Without(c.order, k), k);
    if op.PutOp? {
      var full := Insert(c, k, Stamped(op.value, op.now));
      InsertKeepsWellFormed(c, k, Stamped(op.value, op.now));
      EvictKeepsNewest(config, full);
      DropBehind(full.order, k, {}, if |full.order| <= config.capacity then 0 else |full.order| - config.capacity);
    }
  }

  /** Survival: a key just stored or hit leaves for capacity only after at least `capacity` distinct
      other keys were stored or hit. */
  lemma EvictionNeedsCapacityTouches(config: Config, history: seq<Op>, touch: Op, ops: seq<Op>, put: Op, k: Key)
    requires var c := Apply(config, Final(config, EMPTY, history), touch).0;
             && Touch(config, Final(config, EMPTY, history), touch) == Some(k) && k in c.order
             && put.PutOp? && k !in Touched(config, c, ops)
             && k in Final(config, c, ops).order && k !in Apply(config, Final(config, c, ops), put).0.order
    ensures var c := Apply(config, Final(config, EMPTY, history), touch).0;
            k !in Touched(config, c, ops + [put]) && |Touched(config, c, ops + [put])| >= config.capacity
  {
    FinalIsSound(config, EMPTY, history);
    var before := Final(config, EMPTY, history);
    ApplyKeepsSound(config, before, touch);
    var c := Apply(config, before, touch).0;
    JustTouchedIsLast(config, before, touch, k);
    RunBehind(config, c, ops, k);
    FinalIsSound(config, c, ops);
    assert (ops + [put])[..|ops|] == ops;
    VictimIsBehindCapacity(config, Final(config, c, ops), put, k, Touched(config, c, ops));
  }

  // ----- the counters are quantities of the map -----

  function Bytes(order: seq<Key>, entries: map<Key, Entry>): int {
    if order == [] then 0 else SizeOf(entries, order[0]) + Bytes(order[1..], entries)
  }

  ghost predicate SizesNonNegative(entries: map<Key, Entry>) {
    forall k :: k in entries ==> entries[k].Size() >= 0
  }

  ghost predicate CountersExact(c: Cache) {
    && SizesNonNegative(c.entries)
    && c.stats.currentEntries == |c.order| && c.stats.currentBytes == Bytes(c.order, c.entries)
  }

  lemma {:induction false} BytesSame(order: seq<Key>, a: map<Key, Entry>, b: map<Key, Entry>)
    requires forall k :: k in order ==> SizeOf(a, k) == SizeOf(b, k)
    ensures Bytes(order, a) == Bytes(order, b)
  {
    if order != [] {
      assert order[0] in order && forall k :: k in order[1..] ==> k in order;
      BytesSame(order[1..], a, b);
    }
  }

  lemma {:induction false} BytesWithout(order: seq<Key>, entries: map<Key, Entry>, k: Key)
    requires Distinct(order) && k in order
    ensures Bytes(order, entries) == Bytes(Without(order, k), entries) + SizeOf(entries, k)
  {
    if order[0] != k {
      BytesWithout(order[1..], entries, k);
      assert Without(order, k)[1..] == Without(order[1..], k);
    }
  }

  lemma {:induction false} BytesAppend(order: seq<Key>, entries: map<Key, Entry>, k: Key)
    ensures Bytes(order + [k], entries) == Bytes(order, entries) + SizeOf(entries, k)
  {
    if order == [] {
      assert [k][1..] == [];
    } else {
      assert (order + [k])[1..] == order[1..] + [k];
      BytesAppend(order[1..], entries, k);
    }
  }

  lemma {:induction false} BytesNonNegative(order: seq<Key>, entries: map<Key, Entry>)
    requires SizesNonNegative(entries)
    ensures Bytes(order, entries) >= 0
  {
    if order != [] {
      BytesNonNegative(order[1..], entries);
    }
  }

  /** Dropping a resident key: the clamps at zero never fire. */
  lemma RemovalExact(c: Cache, k: Key)
    requires WellFormed(c) && CountersExact(c) && k in c.entries
    ensures var s := Removed(c.stats, c.entries[k].Size());
            CountersExact(Cache(Without(c.order, k), c.entries - {k}, s))
  {
    WithoutMembers(c.order, k);
    BytesWithout(c.order, c.entries, k);
    BytesSame(Without(c.order, k), c.entries, c.entries - {k});
    BytesNonNegative(Without(c.order, k), c.entries - {k});
  }

  lemma InsertExact(c: Cache, k: Key, value: Entry)
    requires WellFormed(c) && CountersExact(c) && value.Size() >= 0
    ensures CountersExact(Insert(c, k, value))
  {
    var rest := Without(c.order, k);
    var s := if k in c.entries then Removed(c.stats, c.entries[k].Size()) else c.stats;
    WithoutMembers(c.order, k);
    if k in c.entries {
      RemovalExact(c, k);
      BytesSame(rest, c.entries - {k}, c.entries[k := value]);
    } else {
      WithoutAbsent(c.order, k);
      BytesSame(rest, c.entries, c.entries[k := value]);
    }
    BytesAppend(rest, c.entries[k := value], k);
  }

  lemma {:induction false} EvictExact(config: Config, c: Cache)
    requires WellFormed(c) && CountersExact(c)
    ensures CountersExact(Evict(config, c))
    ensures Evict(config, c).stats.evictions - c.stats.evictions == |c.order| - |Evict(config, c).order|
    ensures var s := Evict(config, c).stats;
            s.stores == c.stats.stores && s.hits == c.stats.hits && s.misses == c.stats.misses
    decreases |c.order|
  {
    if |c.order| > config.capacity {
      var oldest := c.order[0];
      RemovalExact(c, oldest);
      assert Without(c.order, oldest) == c.order[1..];
      EvictExact(config, Cache(c.order[1..], c.entries - {oldest}, Evicted(c.stats, SizeOf(c.entries, oldest))));
    }
  }

  /** Everything the four event counters should add up to, read off the history. */
  datatype Tally = Tally(found: nat, notFound: nat, overwrites: nat)

  function TallyOf(config: Config, ops: seq<Op>): Tally {
    if ops == [] then Tally(0, 0, 0)
    else
      var before := ops[..|ops| - 1];
      var t := TallyOf(config, before);
      match ops[|ops| - 1]
      case GetOp(_, _) =>
        if !config.enabled then t
        else if Apply(config, Final(config, EMPTY, before), ops[|ops| - 1]).1.Some? then t.(found := t.found + 1)
        else t.(notFound := t.notFound + 1)
      case PutOp(k, value, _) =>
        if Admitted(config, value) && k in Final(config, EMPTY, before).entries then t.(overwrites := t.overwrites + 1) else t
      case ClearOp => Tally(0, 0, 0)
  }

  /** Whenever the lock is free the statistics are exact. */
  lemma {:induction false} StatisticsExact(config: Config, ops: seq<Op>)
    requires forall i :: 0 <= i < |ops| && ops[i].PutOp? ==> ops[i].value.Size() >= 0
    ensures var c := Final(config, EMPTY, ops);
            var t := TallyOf(config, ops);
            && CountersExact(c)
            && c.stats.stores == c.stats.currentEntries + c.stats.evictions + t.overwrites
            && c.stats.hits == t.found && c.stats.misses == t.notFound
    decreases |ops|
  {
    if ops != [] {
      var before, op := ops[..|ops| - 1], ops[|ops| - 1];
      StatisticsExact(config, before);
      FinalIsSound(config, EMPTY, before);
      var c := Final(config, EMPTY, before);
      match op
      case GetOp(k, now) =>
        if config.enabled && k in c.entries {
          WithoutMembers(c.order, k);
          if Expired(config, c.entries[k], now) {
            RemovalExact(c, k);
          } else {
            BytesWithout(c.order, c.entries, k);
            BytesAppend(Without(c.order, k), c.entries, k);
          }
        }
      case PutOp(k, value, now) =>
        if Admitted(config, value) {
          InsertExact(c, k, Stamped(value, now));
          InsertKeepsWellFormed(c, k, Stamped(value, now));
          WithoutMembers(c.order, k);
          EvictExact(config, Insert(c, k, Stamped(value, now)));
        }
      case ClearOp =>
    }
  }
}
