/** The per-IP registry of buckets: lazy creation, periodic pruning, and why pruning cannot be seen. */
module RateLimiting {
  import opened TokenBuckets

  const PRUNE_INTERVAL := 60.0
  const STALE_THRESHOLD := 600.0

  /** The registry's changing state, as a value. */
  datatype Registry = Registry(buckets: map<string, Bucket>, lastPrune: real)

  /** One call of is_allowed, with the clock readings taken when the bucket is fetched, when a token
      is taken from it, and when the call checks whether a prune is due. */
  datatype Call = Call(ip: string, fetchedAt: real, consumedAt: real, prunedAt: real)

  function Fetch(p: Policy, r: Registry, ip: string, now: real): Registry {
    if ip in r.buckets then r else r.(buckets := r.buckets[ip := Full(p, now)])
  }

  predicate Stale(b: Bucket, now: real) {
    now - b.lastRefill > STALE_THRESHOLD
  }

  function Prune(r: Registry, now: real): Registry {
    if now - r.lastPrune < PRUNE_INTERVAL then r
    else Registry(map ip | ip in r.buckets && !Stale(r.buckets[ip], now) :: r.buckets[ip], now)
  }

  /** Fetching a bucket and taking a token from it. */
  function Admit(p: Policy, r: Registry, call: Call): (Registry, bool) {
    var fetched := Fetch(p, r, call.ip, call.fetchedAt);
    var (b, ok) := Consume(p, fetched.buckets[call.ip], call.consumedAt);
    (fetched.(buckets := fetched.buckets[call.ip := b]), ok)
  }

  /** A whole call; with `prunes` false, the same call on a registry that never forgets a bucket. */
  function IsAllowedOf(p: Policy, r: Registry, call: Call, prunes: bool): (Registry, bool) {
    var (admitted, ok) := Admit(p, r, call);
    (if prunes then Prune(admitted, call.prunedAt) else admitted, ok)
  }

  /** What a rejected client is told; without a bucket, one second. */
  function WaitReported(p: Policy, r: Registry, ip: string): RetryAnswer {
    if ip in r.buckets then RetryAfterOf(p, r.buckets[ip]) else Seconds(1)
  }

  class RateLimiter {
    const enabled: bool
    const policy: Policy
    var buckets: map<string, TokenBucket>
    var lastPrune: real

    ghost function Repr(): set<object>
      reads this
    {
      {this} + set ip | ip in buckets :: buckets[ip]
    }

    ghost predicate Valid()
      reads this, set ip | ip in buckets :: buckets[ip]
    {
      && (forall ip :: ip in buckets ==> buckets[ip].policy == policy)
      && (forall ip, other :: ip in buckets && other in buckets && buckets[ip] == buckets[other] ==> ip == other)
    }

    ghost function View(): Registry
      reads this, set ip | ip in buckets :: buckets[ip]
    {
      Registry(map ip | ip in buckets :: buckets[ip].View(), lastPrune)
    }

    constructor (enabled: bool, policy: Policy, now: real)
      ensures Valid() && this.enabled == enabled && this.policy == policy && fresh(Repr())
      ensures View() == Registry(map[], now)
    {
      this.enabled := enabled;
      this.policy := policy;
      buckets := map[];
      lastPrune := now;
    }

    method GetOrCreateBucket(ip: string, now: real) returns (bucket: TokenBucket)
      requires Valid()
      modifies this
      ensures Valid() && fresh(Repr() - old(Repr()))
      ensures ip in buckets && bucket == buckets[ip]
      ensures View() == Fetch(policy, old(View()), ip, now)
    {
      if ip !in buckets {
        var created := new TokenBucket(policy, now);
        buckets := buckets[ip := created];
      }
      bucket := buckets[ip];
    }

    method MaybePrune(now: real)
      requires Valid()
      modifies this
      ensures Valid() && Repr() <= old(Repr())
      ensures View() == Prune(old(View()), now)
    {
      if now - lastPrune < PRUNE_INTERVAL {
        return;
      }
      lastPrune := now;
      var staleIps := set ip | ip in buckets && now - buckets[ip].lastRefill > STALE_THRESHOLD;
      buckets := buckets - staleIps;
    }

    method IsAllowed(call: Call) returns (ok: bool)
      requires Valid()
      modifies Repr()
      ensures Valid() && fresh(Repr() - old(Repr()))
      ensures !enabled ==> ok && View() == old(View())
      ensures enabled ==> (View(), ok) == IsAllowedOf(policy, old(View()), call, true)
    {
      if !enabled {
        return true;
      }
      var bucket := GetOrCreateBucket(call.ip, call.fetchedAt);
      label fetched:
      ok := bucket.TryConsume(call.consumedAt);
      assert Valid();
      assert View() == Admit(policy, old(View()), call).0 by {
        var fetched := Fetch(policy, old(View()), call.ip, call.fetchedAt);
        var was := old@fetched(View());
        assert was == fetched;
        forall ip | ip in buckets && ip != call.ip
          ensures buckets[ip].View() == was.buckets[ip]
        {
          assert buckets[ip] != bucket;
        }
      }
      MaybePrune(call.prunedAt);
    }

    method GetRetryAfter(ip: string) returns (answer: RetryAnswer)
      requires Valid()
      ensures answer == WaitReported(policy, View(), ip)
    {
      if ip in buckets {
        answer := buckets[ip].RetryAfter();
      } else {
        answer := Seconds(1);
      }
    }

    method GetRemaining(ip: string, now: real) returns (n: int)
      requires Valid()
      ensures n == if ip in buckets then Truncate(Level(policy, View().buckets[ip], now)) else policy.capacity
    {
      if ip in buckets {
        n := buckets[ip].Remaining(now);
      } else {
        n := policy.capacity;
      }
    }
  }

  // ----- whole traces -----

  function Run(p: Policy, r: Registry, calls: seq<Call>, prunes: bool): (d: seq<bool>)
    ensures |d| == |calls|
    decreases |calls|
  {
    if calls == [] then []
    else
      var (r', ok) := IsAllowedOf(p, r, calls[0], prunes);
      [ok] + Run(p, r', calls[1..], prunes)
  }

  /** The state a trace leaves behind. */
  function Final(p: Policy, r: Registry, calls: seq<Call>, prunes: bool): Registry
    decreases |calls|
  {
    if calls == [] then r else Final(p, IsAllowedOf(p, r, calls[0], prunes).0, calls[1..], prunes)
  }

  /** Calls do not overlap and the clock never goes back. */
  predicate Ordered(start: real, calls: seq<Call>)
    decreases |calls|
  {
    calls == [] ||
    (start <= calls[0].fetchedAt <= calls[0].consumedAt <= calls[0].prunedAt && Ordered(calls[0].prunedAt, calls[1..]))
  }

  /** When one IP's own requests take their tokens. */
  function TimesOf(calls: seq<Call>, ip: string): seq<real>
    decreases |calls|
  {
    if calls == [] then []
    else (if calls[0].ip == ip then [calls[0].consumedAt] else []) + TimesOf(calls[1..], ip)
  }

  /** The decisions that concern one IP. */
  function DecisionsFor(calls: seq<Call>, d: seq<bool>, ip: string): seq<bool>
    requires |d| == |calls|
    decreases |calls|
  {
    if calls == [] then []
    else (if calls[0].ip == ip then [d[0]] else []) + DecisionsFor(calls[1..], d[1..], ip)
  }

  /** Idle time that makes any bucket stale also fills it. */
  predicate RefillsWhenStale(p: Policy) {
    p.rate >= 0.0 && p.capacity as real <= Earned(p, 0.0, STALE_THRESHOLD)
  }

  /** From `now` on, the bucket is indistinguishable from one that is created full. */
  ghost predicate FullFrom(p: Policy, b: Bucket, now: real) {
    b.lastRefill <= now && b.tokens + Earned(p, b.lastRefill, now) >= p.capacity as real
  }

  /** No bucket is ever overdrawn. */
  predicate NotOverdrawn(p: Policy, b: Bucket) {
    b.tokens >= Min(0.0, p.capacity as real)
  }

  /** The registry stands, for one IP, for the bucket an unforgetful limiter would hold. */
  ghost predicate Tracks(p: Policy, r: Registry, ip: string, ideal: Bucket, now: real) {
    && ideal.lastRefill <= now && NotOverdrawn(p, ideal)
    && if ip in r.buckets then r.buckets[ip] == ideal else FullFrom(p, ideal, now)
  }

  lemma ConsumeNotOverdrawn(p: Policy, b: Bucket, now: real)
    requires p.rate >= 0.0 && b.lastRefill <= now && NotOverdrawn(p, b)
    ensures NotOverdrawn(p, Consume(p, b, now).0)
  {
    EarnedNonNegative(p, b.lastRefill, now);
    var level := Level(p, b, now);
    assert level >= Min(0.0, p.capacity as real);
    assert Min(0.0, p.capacity as real) <= 0.0;
  }

  lemma FullFromLater(p: Policy, b: Bucket, now: real, later: real)
    requires p.rate >= 0.0 && FullFrom(p, b, now) && now <= later
    ensures FullFrom(p, b, later) && Level(p, b, later) == p.capacity as real
  {
    EarnedAdds(p, b.lastRefill, now, later);
    EarnedNonNegative(p, now, later);
  }

  lemma EarnedShift(p: Policy, a: real, b: real, shift: real)
    ensures Earned(p, a, b) == Earned(p, a + shift, b + shift)
  {
    assert (b + shift) - (a + shift) == b - a;
  }

  lemma StaleIsFull(p: Policy, b: Bucket, now: real)
    requires RefillsWhenStale(p) && Stale(b, now) && NotOverdrawn(p, b)
    ensures FullFrom(p, b, now)
  {
    var stale := b.lastRefill + STALE_THRESHOLD;
    EarnedAdds(p, b.lastRefill, stale, now);
    EarnedNonNegative(p, stale, now);
    EarnedShift(p, 0.0, STALE_THRESHOLD, b.lastRefill);
  }

  /** Fetching and consuming act on the tracked bucket as on the ideal one. */
  lemma AdmitTracks(p: Policy, r: Registry, ip: string, ideal: Bucket, now: real, call: Call)
    requires p.rate >= 0.0 && Tracks(p, r, ip, ideal, now)
    requires now <= call.fetchedAt <= call.consumedAt
    ensures var (r', ok) := Admit(p, r, call);
            if call.ip == ip then
              var (ideal', ok') := Consume(p, ideal, call.consumedAt);
              ok == ok' && Tracks(p, r', ip, ideal', call.consumedAt)
            else
              Tracks(p, r', ip, ideal, call.consumedAt)
  {
    if call.ip == ip {
      ConsumeNotOverdrawn(p, ideal, call.consumedAt);
      if ip !in r.buckets {
        FullFromLater(p, ideal, now, call.consumedAt);
        FullAtStart(p, call.fetchedAt, call.consumedAt);
      }
    } else if ip !in r.buckets {
      FullFromLater(p, ideal, now, call.consumedAt);
    }
  }

  lemma PruneTracks(p: Policy, r: Registry, ip: string, ideal: Bucket, now: real, later: real)
    requires RefillsWhenStale(p) && Tracks(p, r, ip, ideal, now) && now <= later
    ensures Tracks(p, Prune(r, later), ip, ideal, later)
  {
    if ip !in r.buckets {
      FullFromLater(p, ideal, now, later);
    } else if Stale(ideal, later) {
      StaleIsFull(p, ideal, later);
    }
  }

  /** One whole call. */
  lemma CallTracks(p: Policy, r: Registry, ip: string, ideal: Bucket, now: real, call: Call, prunes: bool)
    requires p.rate >= 0.0 && (prunes ==> RefillsWhenStale(p)) && Tracks(p, r, ip, ideal, now)
    requires now <= call.fetchedAt <= call.consumedAt <= call.prunedAt
    ensures var (r', ok) := IsAllowedOf(p, r, call, prunes);
            if call.ip == ip then
              var (ideal', ok') := Consume(p, ideal, call.consumedAt);
              ok == ok' && Tracks(p, r', ip, ideal', call.prunedAt)
            else
              Tracks(p, r', ip, ideal, call.prunedAt)
  {
    AdmitTracks(p, r, ip, ideal, now, call);
    var admitted := Admit(p, r, call).0;
    var ideal' := if call.ip == ip then Consume(p, ideal, call.consumedAt).0 else ideal;
    if prunes {
      PruneTracks(p, admitted, ip, ideal', call.consumedAt, call.prunedAt);
    } else if ip !in admitted.buckets {
      FullFromLater(p, ideal', call.consumedAt, call.prunedAt);
    }
  }

  lemma {:induction false} RunTracks(p: Policy, r: Registry, calls: seq<Call>, prunes: bool,
                                     ip: string, ideal: Bucket, now: real)
    requires p.rate >= 0.0 && (prunes ==> RefillsWhenStale(p))
    requires Tracks(p, r, ip, ideal, now) && Ordered(now, calls)
    ensures DecisionsFor(calls, Run(p, r, calls, prunes), ip) == Serve(p, ideal, TimesOf(calls, ip))
    decreases |calls|
  {
    if calls != [] {
      var call, rest := calls[0], calls[1..];
      var (r', ok) := IsAllowedOf(p, r, call, prunes);
      var times, timesLeft := TimesOf(calls, ip), TimesOf(rest, ip);
      assert Run(p, r, calls, prunes)[1..] == Run(p, r', rest, prunes);
      CallTracks(p, r, ip, ideal, now, call, prunes);
      if call.ip == ip {
        var (ideal', ok') := Consume(p, ideal, call.consumedAt);
        RunTracks(p, r', rest, prunes, ip, ideal', call.prunedAt);
        assert times == [call.consumedAt] + timesLeft;
        assert Serve(p, ideal, times) == [ok'] + Serve(p, ideal', timesLeft) by {
          assert times[1..] == timesLeft;
        }
      } else {
        RunTracks(p, r', rest, prunes, ip, ideal, call.prunedAt);
        assert times == timesLeft;
      }
    }
  }

  /** When a trace is over. */
  function EndOf(now: real, calls: seq<Call>): real {
    if calls == [] then now else calls[|calls| - 1].prunedAt
  }

  /** The state a trace leaves behind still stands for the ideal bucket, settled by this IP's requests. */
  lemma {:induction false} FinalTracks(p: Policy, r: Registry, calls: seq<Call>, ip: string, ideal: Bucket, now: real)
    requires RefillsWhenStale(p) && Tracks(p, r, ip, ideal, now) && Ordered(now, calls)
    ensures var times := TimesOf(calls, ip);
            Tracks(p, Final(p, r, calls, true), ip, After(p, ideal, times, |times|), EndOf(now, calls))
    decreases |calls|
  {
    var times := TimesOf(calls, ip);
    if calls == [] {
      assert After(p, ideal, times, 0) == ideal;
    } else {
      var call, rest := calls[0], calls[1..];
      var r' := IsAllowedOf(p, r, call, true).0;
      CallTracks(p, r, ip, ideal, now, call, true);
      if call.ip == ip {
        var ideal' := Consume(p, ideal, call.consumedAt).0;
        FinalTracks(p, r', rest, ip, ideal', call.prunedAt);
        assert times[0] == call.consumedAt && times[1..] == TimesOf(rest, ip);
        AfterShift(p, ideal, times, |times|);
      } else {
        FinalTracks(p, r', rest, ip, ideal, call.prunedAt);
        assert times == TimesOf(rest, ip);
      }
      assert EndOf(call.prunedAt, rest) == EndOf(now, calls);
    }
  }

  /** The whole registry, pruning included, is one ideal bucket per IP: an IP's decisions are those
      of a single bucket, full at the start, that serves this IP's requests and no others. */
  lemma RegistryIsOneBucketPerIp(p: Policy, start: real, calls: seq<Call>, prunes: bool, ip: string)
    requires p.rate >= 0.0 && (prunes ==> RefillsWhenStale(p)) && Ordered(start, calls)
    ensures DecisionsFor(calls, Run(p, Registry(map[], start), calls, prunes), ip)
            == Decisions(p, Full(p, start), TimesOf(calls, ip))
  {
    RunTracks(p, Registry(map[], start), calls, prunes, ip, Full(p, start), start);
    ServeIsDecisions(p, Full(p, start), TimesOf(calls, ip));
  }

  /** Requests of other IPs never matter. */
  lemma IpsAreIsolated(p: Policy, start: real, calls: seq<Call>, others: seq<Call>, ip: string)
    requires RefillsWhenStale(p) && Ordered(start, calls) && Ordered(start, others)
    requires TimesOf(calls, ip) == TimesOf(others, ip)
    ensures DecisionsFor(calls, Run(p, Registry(map[], start), calls, true), ip)
            == DecisionsFor(others, Run(p, Registry(map[], start), others, true), ip)
  {
    RegistryIsOneBucketPerIp(p, start, calls, true, ip);
    RegistryIsOneBucketPerIp(p, start, others, true, ip);
  }

  /** Decisions that agree for every IP agree. */
  lemma {:induction false} DecisionsForDetermine(calls: seq<Call>, d: seq<bool>, e: seq<bool>)
    requires |d| == |e| == |calls|
    requires forall ip :: DecisionsFor(calls, d, ip) == DecisionsFor(calls, e, ip)
    ensures d == e
    decreases |calls|
  {
    if calls != [] {
      assert DecisionsFor(calls, d, calls[0].ip) == DecisionsFor(calls, e, calls[0].ip);
      assert d[0] == DecisionsFor(calls, d, calls[0].ip)[0];
      assert e[0] == DecisionsFor(calls, e, calls[0].ip)[0];
      forall ip ensures DecisionsFor(calls[1..], d[1..], ip) == DecisionsFor(calls[1..], e[1..], ip) {
        var whole := DecisionsFor(calls, d, ip);
        assert whole == DecisionsFor(calls, e, ip);
        var skip := if calls[0].ip == ip then 1 else 0;
        assert DecisionsFor(calls[1..], d[1..], ip) == whole[skip..];
        assert DecisionsFor(calls[1..], e[1..], ip) == DecisionsFor(calls, e, ip)[skip..];
      }
      DecisionsForDetermine(calls[1..], d[1..], e[1..]);
    }
  }

  // ----- pruning is unobservable exactly when idle buckets refill in time -----

  ghost predicate PruningUnobservable(p: Policy, start: real, calls: seq<Call>) {
    Run(p, Registry(map[], start), calls, true) == Run(p, Registry(map[], start), calls, false)
  }

  lemma PruningCannotBeSeen(p: Policy, start: real, calls: seq<Call>)
    requires RefillsWhenStale(p) && Ordered(start, calls)
    ensures PruningUnobservable(p, start, calls)
  {
    var pruned := Run(p, Registry(map[], start), calls, true);
    var unpruned := Run(p, Registry(map[], start), calls, false);
    forall ip ensures DecisionsFor(calls, pruned, ip) == DecisionsFor(calls, unpruned, ip) {
      RegistryIsOneBucketPerIp(p, start, calls, true, ip);
      RegistryIsOneBucketPerIp(p, start, calls, false, ip);
    }
    DecisionsForDetermine(calls, pruned, unpruned);
  }

  /** `n` back-to-back calls of one IP. */
  function Burst(ip: string, t: real, n: nat): (calls: seq<Call>)
    ensures |calls| == n && forall i :: 0 <= i < n ==> calls[i] == Call(ip, t, t, t)
  {
    seq(n, i => Call(ip, t, t, t))
  }

  lemma {:induction false} RunAppend(p: Policy, r: Registry, a: seq<Call>, b: seq<Call>, prunes: bool)
    ensures Run(p, r, a + b, prunes) == Run(p, r, a, prunes) + Run(p, Final(p, r, a, prunes), b, prunes)
    decreases |a|
  {
    if a == [] {
      assert a + b == b;
    } else {
      assert (a + b)[1..] == a[1..] + b;
      RunAppend(p, IsAllowedOf(p, r, a[0], prunes).0, a[1..], b, prunes);
    }
  }

  /** A burst met by a bucket with enough tokens passes, and leaves that bucket refilled at `t`. */
  lemma {:induction false} BurstPasses(p: Policy, r: Registry, ip: string, t: real, n: nat, prunes: bool)
    requires t - r.lastPrune < PRUNE_INTERVAL && n <= p.capacity
    requires ip in r.buckets ==> r.buckets[ip].lastRefill == t && n as real <= r.buckets[ip].tokens <= p.capacity as real
    ensures forall i :: 0 <= i < n ==> Run(p, r, Burst(ip, t, n), prunes)[i]
    ensures var end := Final(p, r, Burst(ip, t, n), prunes);
            && end.lastPrune == r.lastPrune
            && (n > 0 ==> end.buckets.Keys == r.buckets.Keys + {ip} && end.buckets[ip].lastRefill == t)
    decreases n
  {
    if n > 0 {
      var calls := Burst(ip, t, n);
      var fetched := Fetch(p, r, ip, t);
      LevelAtRefill(p, fetched.buckets[ip]);
      var r' := IsAllowedOf(p, r, calls[0], prunes).0;
      assert r' == Admit(p, r, calls[0]).0;
      assert calls[1..] == Burst(ip, t, n - 1);
      BurstPasses(p, r', ip, t, n - 1, prunes);
    }
  }

  lemma {:induction false} OrderedRepeat(t: real, n: nat, ip: string, rest: seq<Call>)
    requires Ordered(t, rest)
    ensures Ordered(t, Burst(ip, t, n) + rest)
    decreases n
  {
    if n == 0 {
      assert Burst(ip, t, n) + rest == rest;
    } else {
      OrderedRepeat(t, n - 1, ip, rest);
      assert (Burst(ip, t, n) + rest)[1..] == Burst(ip, t, n - 1) + rest;
    }
  }

  lemma {:induction false} OrderedAppend(start: real, a: seq<Call>, t: real, b: seq<Call>)
    requires Ordered(start, a) && Ordered(t, b)
    requires forall i :: 0 <= i < |a| ==> a[i].prunedAt <= t
    requires start <= t
    ensures Ordered(start, a + b)
    decreases |a|
  {
    if a == [] {
      assert a + b == b;
      if b != [] {
        assert Ordered(b[0].prunedAt, b[1..]);
      }
    } else {
      assert (a + b)[1..] == a[1..] + b;
      OrderedAppend(a[0].prunedAt, a[1..], t, b);
    }
  }

  /** The trace that tells a forgetful registry from an unforgetful one. */
  function Probe(p: Policy, t: real): seq<Call>
    requires p.capacity >= 0
  {
    Burst("a", 0.0, p.capacity) + (Burst("b", t, 1) + Burst("a", t, p.capacity))
  }

  function ProbeTime(p: Policy): real
    requires p.rate >= 0.0
  {
    if p.rate == 0.0 then STALE_THRESHOLD + 1.0 else (STALE_THRESHOLD + p.capacity as real / p.rate) / 2.0
  }

  lemma ProbeTimeIsBetween(p: Policy)
    requires p.rate >= 0.0 && !RefillsWhenStale(p)
    ensures ProbeTime(p) > STALE_THRESHOLD && Earned(p, 0.0, ProbeTime(p)) < p.capacity as real
  {
    if p.rate > 0.0 {
      var q := p.capacity as real / p.rate;
      assert Earned(p, 0.0, q) == p.capacity as real;
      if q <= STALE_THRESHOLD {
        EarnedAdds(p, 0.0, q, STALE_THRESHOLD);
        EarnedNonNegative(p, q, STALE_THRESHOLD);
      }
    }
  }

  /** With pruning, the second burst of the probe passes whole. */
  lemma ProbePassesPruned(p: Policy, t: real, i: nat)
    requires p.capacity >= 1 && t > STALE_THRESHOLD && i < p.capacity
    ensures Run(p, Registry(map[], 0.0), Probe(p, t), true)[p.capacity + 1 + i]
  {
    var r := Registry(map[], 0.0);
    var c := p.capacity;
    BurstPasses(p, r, "a", 0.0, c, true);
    var r1 := Final(p, r, Burst("a", 0.0, c), true);
    var b := Burst("b", t, 1);
    RunAppend(p, r, Burst("a", 0.0, c), b + Burst("a", t, c), true);
    RunAppend(p, r1, b, Burst("a", t, c), true);
    var r2 := IsAllowedOf(p, r1, b[0], true).0;
    assert Final(p, r1, b, true) == r2 by {
      assert b[1..] == [];
    }
    assert r2.lastPrune == t && "a" !in r2.buckets;
    BurstPasses(p, r2, "a", t, c, true);
  }

  lemma {:induction false} TimesOfAppend(a: seq<Call>, b: seq<Call>, ip: string)
    ensures TimesOf(a + b, ip) == TimesOf(a, ip) + TimesOf(b, ip)
    decreases |a|
  {
    if a == [] {
      assert a + b == b;
    } else {
      var rest, both := a[1..], a + b;
      var own := if a[0].ip == ip then [a[0].consumedAt] else [];
      assert both[0] == a[0] && both[1..] == rest + b;
      TimesOfAppend(rest, b, ip);
      assert TimesOf(both, ip) == own + TimesOf(rest + b, ip);
      assert TimesOf(a, ip) == own + TimesOf(rest, ip);
    }
  }

  lemma {:induction false} TimesOfBurst(ip: string, t: real, n: nat, other: string)
    ensures TimesOf(Burst(ip, t, n), other) == if ip == other then seq(n, _ => t) else []
    decreases n
  {
    if n > 0 {
      assert Burst(ip, t, n)[1..] == Burst(ip, t, n - 1);
      TimesOfBurst(ip, t, n - 1, other);
    }
  }

  /** The decision of call i, among the decisions of its own IP. */
  lemma {:induction false} OwnDecision(calls: seq<Call>, d: seq<bool>, i: nat)
    requires i < |calls| == |d|
    ensures |TimesOf(calls[..i], calls[i].ip)| < |DecisionsFor(calls, d, calls[i].ip)|
    ensures DecisionsFor(calls, d, calls[i].ip)[|TimesOf(calls[..i], calls[i].ip)|] == d[i]
    decreases |calls|
  {
    if i > 0 {
      OwnDecision(calls[1..], d[1..], i - 1);
      assert calls[..i][1..] == calls[1..][..i - 1];
    }
  }

  lemma {:induction false} CountAll(d: seq<bool>, i: nat, j: nat)
    requires i <= j <= |d| && forall k :: i <= k < j ==> d[k]
    ensures Count(d, i, j) == j - i
  {
    if i < j {
      CountAll(d, i, j - 1);
    }
  }

  /** Where the k-th request of "a" stands in the probe. */
  lemma PrefixTimes(p: Policy, t: real, k: nat)
    requires p.capacity >= 0 && k < 2 * p.capacity
    ensures var i := if k < p.capacity then k else k + 1;
            var calls := Probe(p, t);
            i < |calls| && calls[i].ip == "a" && |TimesOf(calls[..i], "a")| == k
  {
    var c := p.capacity;
    var calls := Probe(p, t);
    if k < c {
      assert calls[..k] == Burst("a", 0.0, k);
      TimesOfBurst("a", 0.0, k, "a");
    } else {
      var head, tail := Burst("a", 0.0, c), Burst("a", t, k - c);
      assert calls[..k + 1] == head + (Burst("b", t, 1) + tail);
      TimesOfAppend(head, Burst("b", t, 1) + tail, "a");
      TimesOfAppend(Burst("b", t, 1), tail, "a");
      TimesOfBurst("a", 0.0, c, "a");
      TimesOfBurst("b", t, 1, "a");
      TimesOfBurst("a", t, k - c, "a");
    }
  }

  lemma ProbeIsOrdered(p: Policy, t: real)
    requires p.capacity >= 0 && t >= 0.0
    ensures Ordered(0.0, Probe(p, t))
  {
    var c := p.capacity;
    var first, middle, last := Burst("a", 0.0, c), Burst("b", t, 1), Burst("a", t, c);
    OrderedRepeat(t, c, "a", []);
    assert last + [] == last;
    OrderedRepeat(t, 1, "b", last);
    OrderedRepeat(0.0, c, "a", []);
    assert first + [] == first;
    OrderedAppend(0.0, first, t, middle + last);
  }

  lemma ProbeTimes(p: Policy, t: real)
    requires p.capacity >= 0
    ensures TimesOf(Probe(p, t), "a") == seq(p.capacity, _ => 0.0) + seq(p.capacity, _ => t)
  {
    var c := p.capacity;
    var first, middle, last := Burst("a", 0.0, c), Burst("b", t, 1), Burst("a", t, c);
    TimesOfAppend(first, middle + last, "a");
    TimesOfAppend(middle, last, "a");
    TimesOfBurst("a", 0.0, c, "a");
    TimesOfBurst("b", t, 1, "a");
    TimesOfBurst("a", t, c, "a");
  }

  /** A bucket that is never forgotten cannot let both bursts through. */
  lemma BothBurstsExceedOneBucket(p: Policy, t: real, times: seq<real>)
    requires p.rate >= 0.0 && p.capacity >= 1 && Earned(p, 0.0, t) < p.capacity as real
    requires times == seq(p.capacity, _ => 0.0) + seq(p.capacity, _ => t)
    ensures exists k :: 0 <= k < 2 * p.capacity && !Decisions(p, Full(p, 0.0), times)[k]
  {
    var d := Decisions(p, Full(p, 0.0), times);
    var last := 2 * p.capacity - 1;
    LevelWithinSlack(p, Full(p, 0.0), times, 0, last);
    assert times[0] == 0.0 && times[last] == t;
    assert d[last] ==> LevelAt(p, Full(p, 0.0), times, last) >= 1.0;
    if forall k :: 0 <= k < 2 * p.capacity ==> d[k] {
      CountAll(d, 0, last);
      assert false;
    }
  }

  lemma ProbeOpensFull(p: Policy, t: real, i: nat)
    requires i < p.capacity
    ensures Run(p, Registry(map[], 0.0), Probe(p, t), true)[i]
  {
    var r := Registry(map[], 0.0);
    var first := Burst("a", 0.0, p.capacity);
    BurstPasses(p, r, "a", 0.0, p.capacity, true);
    RunAppend(p, r, first, Burst("b", t, 1) + Burst("a", t, p.capacity), true);
  }

  /** If idle time does not refill a bucket before it is forgotten, some trace shows the difference. */
  lemma PruningCanBeSeen(p: Policy)
    requires p.rate >= 0.0 && !RefillsWhenStale(p)
    ensures Ordered(0.0, Probe(p, ProbeTime(p)))
    ensures !PruningUnobservable(p, 0.0, Probe(p, ProbeTime(p)))
  {
    var t := ProbeTime(p);
    EarnedNonNegative(p, 0.0, STALE_THRESHOLD);
    ProbeTimeIsBetween(p);
    ProbeIsOrdered(p, t);
    ProbeTimes(p, t);
    var calls := Probe(p, t);
    var r := Registry(map[], 0.0);
    var d := Decisions(p, Full(p, 0.0), TimesOf(calls, "a"));
    BothBurstsExceedOneBucket(p, t, TimesOf(calls, "a"));
    var k: nat :| k < 2 * p.capacity && !d[k];
    RegistryIsOneBucketPerIp(p, 0.0, calls, false, "a");
    PrefixTimes(p, t, k);
    var i := if k < p.capacity then k else k + 1;
    OwnDecision(calls, Run(p, r, calls, false), i);
    assert !Run(p, r, calls, false)[i];
    if k < p.capacity {
      ProbeOpensFull(p, t, k);
    } else {
      ProbePassesPruned(p, t, k - p.capacity);
    }
  }

  /** Pruning is invisible on every trace exactly for the policies whose idle buckets refill in time. */
  lemma PruningUnobservableIffRefills(p: Policy)
    requires p.rate >= 0.0
    ensures RefillsWhenStale(p)
            <==> forall start, calls :: Ordered(start, calls) ==> PruningUnobservable(p, start, calls)
  {
    if RefillsWhenStale(p) {
      forall start, calls | Ordered(start, calls) ensures PruningUnobservable(p, start, calls) {
        PruningCannotBeSeen(p, start, calls);
      }
    } else {
      PruningCanBeSeen(p);
    }
  }

  // ----- and so is the isolation of one IP from the others -----

  /** No IP's decisions depend on other IPs' calls. */
  ghost predicate Isolated(p: Policy) {
    forall start, calls, others, ip ::
      Ordered(start, calls) && Ordered(start, others) && TimesOf(calls, ip) == TimesOf(others, ip) ==>
        DecisionsFor(calls, Run(p, Registry(map[], start), calls, true), ip)
        == DecisionsFor(others, Run(p, Registry(map[], start), others, true), ip)
  }

  lemma ConsumeSettles(p: Policy, b: Bucket, now: real)
    ensures Consume(p, b, now).0.lastRefill == now
  {
  }

  /** Calls of one IP alone, each made at one instant, never meet a stale bucket. */
  lemma {:induction false} AloneNothingIsPruned(p: Policy, r: Registry, s: Registry, calls: seq<Call>, ip: string)
    requires r.buckets == s.buckets && r.buckets.Keys <= {ip}
    requires forall i :: 0 <= i < |calls| ==> calls[i] == Call(ip, calls[i].consumedAt, calls[i].consumedAt, calls[i].consumedAt)
    ensures Run(p, r, calls, true) == Run(p, s, calls, false)
    decreases |calls|
  {
    hide Consume;
    if calls != [] {
      var call := calls[0];
      ConsumeSettles(p, Fetch(p, r, ip, call.fetchedAt).buckets[ip], call.consumedAt);
      var (r', s') := (IsAllowedOf(p, r, call, true).0, IsAllowedOf(p, s, call, false).0);
      assert r'.buckets == s'.buckets;
      AloneNothingIsPruned(p, r', s', calls[1..], ip);
    }
  }

  lemma {:induction false} OwnCallsOnly(calls: seq<Call>, d: seq<bool>, ip: string)
    requires |d| == |calls| && forall i :: 0 <= i < |calls| ==> calls[i].ip == ip
    ensures DecisionsFor(calls, d, ip) == d
    decreases |calls|
  {
    if calls != [] {
      OwnCallsOnly(calls[1..], d[1..], ip);
    }
  }

  /** The probe without its call of "b". */
  function Quiet(p: Policy, t: real): seq<Call>
    requires p.capacity >= 0
  {
    Burst("a", 0.0, p.capacity) + Burst("a", t, p.capacity)
  }

  lemma QuietTimes(p: Policy, t: real)
    requires p.capacity >= 0 && t >= 0.0
    ensures TimesOf(Quiet(p, t), "a") == TimesOf(Probe(p, t), "a") && Ordered(0.0, Quiet(p, t))
  {
    var c := p.capacity;
    ProbeTimes(p, t);
    TimesOfAppend(Burst("a", 0.0, c), Burst("a", t, c), "a");
    TimesOfBurst("a", 0.0, c, "a");
    TimesOfBurst("a", t, c, "a");
    OrderedRepeat(t, c, "a", []);
    OrderedRepeat(0.0, c, "a", []);
    assert Burst("a", t, c) + [] == Burst("a", t, c) && Burst("a", 0.0, c) + [] == Burst("a", 0.0, c);
    OrderedAppend(0.0, Burst("a", 0.0, c), t, Burst("a", t, c));
  }

  /** Without the other client's call some request of "a" is rejected... */
  lemma QuietRejects(p: Policy, t: real) returns (k: nat)
    requires p.rate >= 0.0 && p.capacity >= 1 && t >= 0.0 && Earned(p, 0.0, t) < p.capacity as real
    ensures k < 2 * p.capacity
    ensures var d := DecisionsFor(Quiet(p, t), Run(p, Registry(map[], 0.0), Quiet(p, t), true), "a");
            k < |d| && !d[k]
  {
    hide Run, TimesOf, Decisions, Earned, Probe, Ordered;
    var calls, r := Quiet(p, t), Registry(map[], 0.0);
    QuietTimes(p, t);
    ProbeTimes(p, t);
    var times := TimesOf(calls, "a");
    BothBurstsExceedOneBucket(p, t, times);
    k :| k < 2 * p.capacity && !Decisions(p, Full(p, 0.0), times)[k];
    RegistryIsOneBucketPerIp(p, 0.0, calls, false, "a");
    AloneNothingIsPruned(p, r, r, calls, "a");
    OwnCallsOnly(calls, Run(p, r, calls, true), "a");
  }

  /** ...that passes with it. */
  lemma ProbePasses(p: Policy, t: real, k: nat)
    requires p.capacity >= 1 && t > STALE_THRESHOLD && k < 2 * p.capacity
    ensures var d := DecisionsFor(Probe(p, t), Run(p, Registry(map[], 0.0), Probe(p, t), true), "a");
            k < |d| && d[k]
  {
    var calls := Probe(p, t);
    PrefixTimes(p, t, k);
    OwnDecision(calls, Run(p, Registry(map[], 0.0), calls, true), if k < p.capacity then k else k + 1);
    if k < p.capacity {
      ProbeOpensFull(p, t, k);
    } else {
      ProbePassesPruned(p, t, k - p.capacity);
    }
  }

  /** Isolation holds on all traces exactly for the policies whose idle buckets refill in time. */
  lemma IsolatedIffRefills(p: Policy)
    requires p.rate >= 0.0
    ensures Isolated(p) <==> RefillsWhenStale(p)
  {
    hide Run, DecisionsFor, TimesOf;
    if RefillsWhenStale(p) {
      forall start, calls, others, ip
        | Ordered(start, calls) && Ordered(start, others) && TimesOf(calls, ip) == TimesOf(others, ip)
        ensures DecisionsFor(calls, Run(p, Registry(map[], start), calls, true), ip)
                == DecisionsFor(others, Run(p, Registry(map[], start), others, true), ip)
      {
        IpsAreIsolated(p, start, calls, others, ip);
      }
    } else {
      var t := ProbeTime(p);
      EarnedNonNegative(p, 0.0, STALE_THRESHOLD);
      ProbeTimeIsBetween(p);
      ProbeIsOrdered(p, t);
      QuietTimes(p, t);
      var k := QuietRejects(p, t);
      ProbePasses(p, t, k);
    }
  }
}
