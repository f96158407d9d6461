/** Retry-After as the whole limiter reports it, and exactly which refill rates make it exact. */
module RetryAfter {
  import opened RateLimiting
  import opened TokenBuckets

  // ----- a rejected client waits -----

  ghost predicate Sane(p: Policy, r: Registry, now: real) {
    forall ip :: ip in r.buckets ==> r.buckets[ip].lastRefill <= now && NotOverdrawn(p, r.buckets[ip])
  }

  lemma CallKeepsSane(p: Policy, r: Registry, now: real, call: Call)
    requires p.rate >= 0.0 && Sane(p, r, now) && now <= call.fetchedAt <= call.consumedAt <= call.prunedAt
    ensures Sane(p, IsAllowedOf(p, r, call, true).0, call.prunedAt)
  {
    hide Consume;
    var fetched := Fetch(p, r, call.ip, call.fetchedAt);
    ConsumeNotOverdrawn(p, fetched.buckets[call.ip], call.consumedAt);
    ConsumeSettles(p, fetched.buckets[call.ip], call.consumedAt);
  }

  lemma {:induction false} RunKeepsSane(p: Policy, r: Registry, now: real, calls: seq<Call>)
    requires p.rate >= 0.0 && Sane(p, r, now) && Ordered(now, calls)
    ensures Sane(p, Final(p, r, calls, true), EndOf(now, calls))
    decreases |calls|
  {
    hide Sane, IsAllowedOf;
    if calls != [] {
      CallKeepsSane(p, r, now, calls[0]);
      RunKeepsSane(p, IsAllowedOf(p, r, calls[0], true).0, calls[0].prunedAt, calls[1..]);
    }
  }

  /** The registry of a client that was left with bucket `b` and has only been rejected since: its bucket has earned
      what time gave it, or was forgotten, and that takes more than ten minutes. */
  ghost predicate Waits(p: Policy, r: Registry, ip: string, b: Bucket, now: real) {
    && b.lastRefill <= now
    && if ip in r.buckets then
         var c := r.buckets[ip];
         b.lastRefill <= c.lastRefill <= now && c.tokens < 1.0 && c.tokens == b.tokens + Earned(p, b.lastRefill, c.lastRefill)
       else
         now - b.lastRefill > STALE_THRESHOLD
  }

  lemma OwnKeepsWaits(p: Policy, r: Registry, b: Bucket, now: real, call: Call)
    requires p.rate >= 0.0 && p.capacity >= 1 && Waits(p, r, call.ip, b, now) && now <= call.fetchedAt <= call.consumedAt
    requires !Admit(p, r, call).1
    ensures Waits(p, Admit(p, r, call).0, call.ip, b, call.consumedAt)
  {
    if call.ip in r.buckets {
      EarnedAdds(p, b.lastRefill, r.buckets[call.ip].lastRefill, call.consumedAt);
    } else {
      FullAtStart(p, call.fetchedAt, call.consumedAt);
    }
  }

  lemma CallKeepsWaits(p: Policy, r: Registry, ip: string, b: Bucket, now: real, call: Call)
    requires p.rate >= 0.0 && p.capacity >= 1 && Waits(p, r, ip, b, now)
    requires now <= call.fetchedAt <= call.consumedAt <= call.prunedAt
    requires call.ip == ip ==> !IsAllowedOf(p, r, call, true).1
    ensures Waits(p, IsAllowedOf(p, r, call, true).0, ip, b, call.prunedAt)
  {
    hide Earned;
    if call.ip == ip {
      hide Consume;
      OwnKeepsWaits(p, r, b, now, call);
    }
  }

  predicate NonePass(d: seq<bool>) {
    forall n :: 0 <= n < |d| ==> !d[n]
  }

  lemma NonePassSplit(first: seq<bool>, rest: seq<bool>)
    requires NonePass(first + rest)
    ensures NonePass(first) && NonePass(rest)
  {
    assert forall n :: 0 <= n < |first| ==> first[n] == (first + rest)[n];
    forall n | 0 <= n < |rest| ensures !rest[n] {
      assert rest[n] == (first + rest)[|first| + n];
    }
  }

  lemma {:induction false} RunKeepsWaits(p: Policy, r: Registry, ip: string, b: Bucket, now: real, calls: seq<Call>)
    requires p.rate >= 0.0 && p.capacity >= 1 && Waits(p, r, ip, b, now) && Ordered(now, calls)
    requires NonePass(DecisionsFor(calls, Run(p, r, calls, true), ip))
    ensures Waits(p, Final(p, r, calls, true), ip, b, EndOf(now, calls))
    decreases |calls|
  {
    hide Waits, IsAllowedOf;
    if calls != [] {
      var call, rest := calls[0], calls[1..];
      var (r', ok) := IsAllowedOf(p, r, call, true);
      var d := DecisionsFor(rest, Run(p, r', rest, true), ip);
      assert Run(p, r, calls, true)[1..] == Run(p, r', rest, true);
      assert DecisionsFor(calls, Run(p, r, calls, true), ip) == (if call.ip == ip then [ok] else []) + d;
      NonePassSplit(if call.ip == ip then [ok] else [], d);
      CallKeepsWaits(p, r, ip, b, now, call);
      RunKeepsWaits(p, r', ip, b, call.prunedAt, rest);
    }
  }

  /** When the client asks again. */
  lemma AskedAgain(p: Policy, r: Registry, b: Bucket, now: real, again: Call)
    requires p.rate >= 0.0 && p.capacity >= 1 && Waits(p, r, again.ip, b, now) && now <= again.fetchedAt <= again.consumedAt
    ensures IsAllowedOf(p, r, again, true).1
            <==> again.ip !in r.buckets || b.tokens + Earned(p, b.lastRefill, again.consumedAt) >= 1.0
  {
    if again.ip in r.buckets {
      EarnedAdds(p, b.lastRefill, r.buckets[again.ip].lastRefill, again.consumedAt);
    } else {
      FullAtStart(p, again.fetchedAt, again.consumedAt);
    }
  }

  // ----- the law -----

  /** A client is rejected, is told how long to wait, may try again in vain, and comes back `m` whole seconds after
      the rejection. */
  datatype Scene = Scene(start: real, before: seq<Call>, call: Call, between: seq<Call>, again: Call, m: nat)

  /** The registry right after the rejection. */
  function Rejecting(p: Policy, s: Scene): (Registry, bool) {
    IsAllowedOf(p, Final(p, Registry(map[], s.start), s.before, true), s.call, true)
  }

  ghost predicate Plays(p: Policy, s: Scene) {
    && Ordered(s.start, s.before) && Ordered(EndOf(s.start, s.before), [s.call])
    && Ordered(s.call.prunedAt, s.between) && Ordered(EndOf(s.call.prunedAt, s.between), [s.again])
    && s.again.ip == s.call.ip && s.again.consumedAt == s.call.consumedAt + s.m as real
    && var (r, ok) := Rejecting(p, s);
       && !ok && NonePass(DecisionsFor(s.between, Run(p, r, s.between, true), s.call.ip))
  }

  /** It passes exactly when it waited as long as it was told. */
  ghost predicate ToldRight(p: Policy, s: Scene) {
    var r := Rejecting(p, s).0;
    var answer := WaitReported(p, r, s.call.ip);
    && answer.Seconds? && answer.seconds >= 1
    && (IsAllowedOf(p, Final(p, r, s.between, true), s.again, true).1 <==> s.m >= answer.seconds)
  }

  /** Forgetting takes longer than the longest wait ever reported. */
  predicate WaitsAreShort(p: Policy) {
    (STALE_THRESHOLD + 1.0) * p.rate >= 1.0
  }

  lemma LongWaits(p: Policy, tokens: real, m: nat)
    requires p.rate > 0.0 && WaitsAreShort(p) && tokens >= 0.0 && m as real > STALE_THRESHOLD
    ensures tokens + m as real * p.rate >= 1.0
  {
    assert m >= 601;
    assert (m as real - 601.0) * p.rate >= 0.0;
  }

  /** What a rejected request leaves. */
  lemma Rejected(p: Policy, r0: Registry, now: real, call: Call) returns (b: Bucket)
    requires p.capacity >= 1 && p.rate > 0.0 && Sane(p, r0, now)
    requires now <= call.fetchedAt <= call.consumedAt <= call.prunedAt && !IsAllowedOf(p, r0, call, true).1
    ensures b.lastRefill == call.consumedAt && 0.0 <= b.tokens < 1.0
    ensures var r := IsAllowedOf(p, r0, call, true).0;
            && Waits(p, r, call.ip, b, call.prunedAt)
            && (call.ip in r.buckets ==> r.buckets[call.ip] == b)
  {
    var fetched := Fetch(p, r0, call.ip, call.fetchedAt);
    ConsumeNotOverdrawn(p, fetched.buckets[call.ip], call.consumedAt);
    b := Consume(p, fetched.buckets[call.ip], call.consumedAt).0;
    EarnedAtOnce(p, call.consumedAt);
  }

  /** What the client is told, in terms of the tokens it waits for. */
  lemma Reported(p: Policy, b: Bucket, m: nat)
    requires p.capacity >= 1 && p.rate > 0.0 && b.tokens < 1.0
    ensures var answer := RetryAfterOf(p, b);
            && answer.Seconds? && answer.seconds >= 1
            && (m >= answer.seconds <==> b.tokens + m as real * p.rate >= 1.0)
  {
    RetryThreshold(p, b, m);
    RetryThreshold(p, b, 0);
    EarnedInSeconds(p, b.lastRefill, m);
    EarnedAtOnce(p, b.lastRefill);
  }

  lemma {:induction false} EndsLater(now: real, calls: seq<Call>)
    requires Ordered(now, calls)
    ensures now <= EndOf(now, calls)
    decreases |calls|
  {
    if calls != [] {
      EndsLater(calls[0].prunedAt, calls[1..]);
    }
  }

  lemma ToldRightHere(p: Policy, r0: Registry, now: real, call: Call, between: seq<Call>, again: Call, m: nat)
    requires WaitsAreShort(p) && p.capacity >= 1 && p.rate > 0.0 && Sane(p, r0, now)
    requires now <= call.fetchedAt <= call.consumedAt <= call.prunedAt
    requires Ordered(call.prunedAt, between) && Ordered(EndOf(call.prunedAt, between), [again])
    requires again.ip == call.ip && again.consumedAt == call.consumedAt + m as real
    requires var (r, ok) := IsAllowedOf(p, r0, call, true);
             !ok && NonePass(DecisionsFor(between, Run(p, r, between, true), call.ip))
    ensures var r := IsAllowedOf(p, r0, call, true).0;
            var answer := WaitReported(p, r, call.ip);
            && answer.Seconds? && answer.seconds >= 1
            && (IsAllowedOf(p, Final(p, r, between, true), again, true).1 <==> m >= answer.seconds)
  {
    hide Run, DecisionsFor, NonePass, IsAllowedOf, Earned, RetryAfterOf, WaitsAreShort;
    var r := IsAllowedOf(p, r0, call, true).0;
    var b := Rejected(p, r0, now, call);
    RunKeepsWaits(p, r, call.ip, b, call.prunedAt, between);
    EndsLater(call.prunedAt, between);
    var last := Final(p, r, between, true);
    AskedAgain(p, last, b, EndOf(call.prunedAt, between), again);
    EarnedInSeconds(p, b.lastRefill, m);
    Reported(p, b, m);
    if m as real > STALE_THRESHOLD {
      LongWaits(p, b.tokens, m);
    }
  }

  lemma EmptyIsSane(p: Policy, start: real)
    ensures Sane(p, Registry(map[], start), start)
  {
  }

  /** Retry-After is exact through the whole limiter, with other IPs, rejected retries and prunes in between, even a
      prune that forgets the bucket within the rejected call. */
  lemma RetryAfterHeaderIsExact(p: Policy, s: Scene)
    requires WaitsAreShort(p) && p.capacity >= 1 && p.rate > 0.0 && Plays(p, s)
    ensures ToldRight(p, s)
  {
    hide IsAllowedOf, Run, DecisionsFor, NonePass, Sane, WaitReported, WaitsAreShort;
    EmptyIsSane(p, s.start);
    RunKeepsSane(p, Registry(map[], s.start), s.start, s.before);
    ToldRightHere(p, Final(p, Registry(map[], s.start), s.before, true), EndOf(s.start, s.before), s.call, s.between, s.again, s.m);
  }

  // ----- where it fails -----

  /** A burst that uses up a bucket. */
  lemma {:induction false} BurstEmpties(p: Policy, r: Registry, ip: string, t: real, n: nat)
    requires t - r.lastPrune < PRUNE_INTERVAL && n <= p.capacity
    requires if ip in r.buckets then r.buckets[ip] == Bucket(n as real, t) else n == p.capacity >= 1
    ensures var end := Final(p, r, Burst(ip, t, n), true);
            end.lastPrune == r.lastPrune && ip in end.buckets && end.buckets[ip] == Bucket(0.0, t)
    decreases n
  {
    if n > 0 {
      var calls := Burst(ip, t, n);
      EarnedAtOnce(p, t);
      var r' := IsAllowedOf(p, r, calls[0], true).0;
      assert r' == Admit(p, r, calls[0]).0;
      assert calls[1..] == Burst(ip, t, n - 1);
      BurstEmpties(p, r', ip, t, n - 1);
    }
  }

  function At(ip: string, t: real): Call {
    Call(ip, t, t, t)
  }

  /** A client uses up its bucket, is rejected, stays away for ten minutes and a second while another client has its
      bucket forgotten, and comes back. */
  function Forgetting(p: Policy, start: real): Scene
    requires p.capacity >= 0
  {
    Scene(start, Burst("a", start, p.capacity), At("a", start), [At("b", start + 600.5)], At("a", start + 601.0), 601)
  }

  lemma AtOnceRejected(p: Policy, r: Registry, t: real)
    requires "a" in r.buckets && r.buckets["a"] == Bucket(0.0, t) && p.capacity >= 1
    requires t - r.lastPrune < PRUNE_INTERVAL
    ensures IsAllowedOf(p, r, At("a", t), true) == (r, false)
  {
    EarnedAtOnce(p, t);
    assert Consume(p, r.buckets["a"], t) == (r.buckets["a"], false);
    assert r.buckets["a" := r.buckets["a"]] == r.buckets;
  }

  /** The failing input, for every such policy: told to wait longer than 601 seconds, the client passes after 601. */
  lemma ForgottenTooSoon(p: Policy, start: real)
    requires p.capacity >= 1 && p.rate > 0.0 && !WaitsAreShort(p)
    ensures Plays(p, Forgetting(p, start)) && !ToldRight(p, Forgetting(p, start))
  {
    var s := Forgetting(p, start);
    var r0 := Final(p, Registry(map[], start), s.before, true);
    BurstEmpties(p, Registry(map[], start), "a", start, p.capacity);
    OrderedRepeat(start, p.capacity, "a", []);
    assert s.before + [] == s.before;
    assert EndOf(start, s.before) == start;
    AtOnceRejected(p, r0, start);
    var other := s.between[0];
    var (r1, _) := IsAllowedOf(p, r0, other, true);
    assert s.between[1..] == [];
    assert "b"[0] != "a"[0];
    assert "a" !in r1.buckets;
    assert Final(p, r0, s.between, true) == r1;
    assert DecisionsFor(s.between, Run(p, r0, s.between, true), "a") == [];
    FullAtStart(p, start + 601.0, start + 601.0);
    Reported(p, Bucket(0.0, start), 601);
  }

  /** Exactly the policies whose Retry-After is exact on every trace: those that earn a token in 601 seconds. */
  lemma RetryAfterExactIff(p: Policy, start: real)
    requires p.capacity >= 1 && p.rate > 0.0
    ensures (forall s: Scene :: s.start == start && Plays(p, s) ==> ToldRight(p, s)) <==> 601.0 * p.rate >= 1.0
  {
    hide Plays, ToldRight;
    if WaitsAreShort(p) {
      forall s: Scene | s.start == start && Plays(p, s) ensures ToldRight(p, s) {
        RetryAfterHeaderIsExact(p, s);
      }
    } else {
      ForgottenTooSoon(p, start);
      assert Forgetting(p, start).start == start;
    }
  }
}
