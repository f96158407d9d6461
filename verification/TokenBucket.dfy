/** One client's token bucket: lazy refill, and what its decisions amount to over a whole run. */
module TokenBuckets {
  /** The constructor arguments of a bucket: burst size and tokens restored per second. */
  datatype Policy = Policy(capacity: int, rate: real)

  /** A bucket's two changing fields, as a value. */
  datatype Bucket = Bucket(tokens: real, lastRefill: real)

  function Min(a: real, b: real): real {
    if a <= b then a else b
  }

  /** Tokens restored between two instants. */
  function Earned(p: Policy, since: real, now: real): real {
    (now - since) * p.rate
  }

  lemma EarnedAdds(p: Policy, a: real, b: real, c: real)
    ensures Earned(p, a, c) == Earned(p, a, b) + Earned(p, b, c)
  {
  }

  lemma EarnedNonNegative(p: Policy, a: real, b: real)
    requires p.rate >= 0.0 && a <= b
    ensures Earned(p, a, b) >= 0.0
  {
  }

  lemma EarnedAtOnce(p: Policy, a: real)
    ensures Earned(p, a, a) == 0.0
  {
  }

  /** Tokens available at `now`: the lazy refill, capped at capacity. */
  function Level(p: Policy, b: Bucket, now: real): real {
    Min(p.capacity as real, b.tokens + Earned(p, b.lastRefill, now))
  }

  function Full(p: Policy, now: real): Bucket {
    Bucket(p.capacity as real, now)
  }

  /** What one request at `now` leaves behind, and whether it is allowed. */
  function Consume(p: Policy, b: Bucket, now: real): (Bucket, bool) {
    var level := Level(p, b, now);
    if level >= 1.0 then (Bucket(level - 1.0, now), true) else (Bucket(level, now), false)
  }

  function Ceiling(x: real): int {
    -((-x).Floor)
  }

  /** Conversion of a float to an integer drops the fraction, towards zero. */
  function Truncate(x: real): int {
    if x >= 0.0 then x.Floor else Ceiling(x)
  }

  datatype RetryAnswer = Seconds(seconds: int) | DivisionByZero

  function RetryAfterOf(p: Policy, b: Bucket): RetryAnswer {
    if b.tokens >= 1.0 then Seconds(0)
    else if p.rate == 0.0 then DivisionByZero
    else Seconds(Ceiling((1.0 - b.tokens) / p.rate))
  }

  class TokenBucket {
    const policy: Policy
    var tokens: real
    var lastRefill: real

    ghost function View(): Bucket
      reads this
    {
      Bucket(tokens, lastRefill)
    }

    constructor (policy: Policy, now: real)
      ensures this.policy == policy && View() == Full(policy, now)
    {
      this.policy := policy;
      tokens := policy.capacity as real;
      lastRefill := now;
    }

    method TryConsume(now: real) returns (ok: bool)
      modifies this
      ensures (View(), ok) == Consume(policy, old(View()), now)
    {
      var elapsed := now - lastRefill;
      tokens := Min(policy.capacity as real, tokens + elapsed * policy.rate);
      assert tokens == Level(policy, old(View()), now);
      lastRefill := now;
      if tokens >= 1.0 {
        tokens := tokens - 1.0;
        return true;
      }
      return false;
    }

    method Remaining(now: real) returns (n: int)
      ensures n == Truncate(Level(policy, View(), now))
    {
      var elapsed := now - lastRefill;
      var current := Min(policy.capacity as real, tokens + elapsed * policy.rate);
      assert current == Level(policy, View(), now);
      n := Truncate(current);
    }

    /** Uses the stored tokens as they are: no refill happens here. */
    method RetryAfter() returns (answer: RetryAnswer)
      ensures answer == RetryAfterOf(policy, View())
    {
      if tokens >= 1.0 {
        return Seconds(0);
      }
      if policy.rate == 0.0 {
        return DivisionByZero;
      }
      var deficit := 1.0 - tokens;
      return Seconds(Ceiling(deficit / policy.rate));
    }
  }

  // ----- runs -----

  /** The bucket after the first `n` requests of a run. */
  function After(p: Policy, b: Bucket, times: seq<real>, n: nat): Bucket
    requires n <= |times|
  {
    if n == 0 then b else Consume(p, After(p, b, times, n - 1), times[n - 1]).0
  }

  /** The decision of every request of a run that starts in `b`. */
  function Decisions(p: Policy, b: Bucket, times: seq<real>): (d: seq<bool>)
    ensures |d| == |times|
  {
    seq(|times|, n requires 0 <= n < |times| => Consume(p, After(p, b, times, n), times[n]).1)
  }

  /** The same decisions, one request at a time. */
  function Serve(p: Policy, b: Bucket, times: seq<real>): (d: seq<bool>)
    ensures |d| == |times|
    decreases |times|
  {
    if times == [] then []
    else
      var (b', ok) := Consume(p, b, times[0]);
      [ok] + Serve(p, b', times[1..])
  }

  function Count(d: seq<bool>, i: nat, j: nat): nat
    requires i <= j <= |d|
  {
    if i == j then 0 else Count(d, i, j - 1) + (if d[j - 1] then 1 else 0)
  }

  predicate Chronological(times: seq<real>) {
    forall i, j :: 0 <= i <= j < |times| ==> times[i] <= times[j]
  }

  /** What the capacity and the rate permit between requests i and n of a run. */
  function Allowance(p: Policy, times: seq<real>, i: nat, n: nat): real
    requires i <= n < |times|
  {
    p.capacity as real + Earned(p, times[i], times[n])
  }

  /** Request n fits every window of the run that ends with it. */
  ghost predicate Fits(p: Policy, times: seq<real>, d: seq<bool>, n: nat)
    requires |d| == |times| && n < |d|
  {
    forall i :: 0 <= i <= n ==> Count(d, i, n) as real + 1.0 <= Allowance(p, times, i, n)
  }

  lemma {:induction false} AfterShift(p: Policy, b: Bucket, times: seq<real>, n: nat)
    requires 1 <= n <= |times|
    ensures After(p, b, times, n) == After(p, Consume(p, b, times[0]).0, times[1..], n - 1)
  {
    if n == 1 {
      assert After(p, b, times, 0) == b;
    } else {
      AfterShift(p, b, times, n - 1);
      assert times[n - 1] == times[1..][n - 2];
    }
  }

  /** The one-at-a-time server and the indexed run decide alike. */
  lemma {:induction false} ServeIsDecisions(p: Policy, b: Bucket, times: seq<real>)
    ensures Serve(p, b, times) == Decisions(p, b, times)
    decreases |times|
  {
    if times != [] {
      var b' := Consume(p, b, times[0]).0;
      ServeIsDecisions(p, b', times[1..]);
      forall n | 0 <= n < |times|
        ensures Serve(p, b, times)[n] == Decisions(p, b, times)[n]
      {
        if n > 0 {
          AfterShift(p, b, times, n);
          assert Serve(p, b, times)[n] == Decisions(p, b', times[1..])[n - 1];
        }
      }
    }
  }

  lemma {:induction false} CountSplit(d: seq<bool>, i: nat, m: nat, j: nat)
    requires i <= m <= j <= |d|
    ensures Count(d, i, j) == Count(d, i, m) + Count(d, m, j)
  {
    if m < j {
      CountSplit(d, i, m, j - 1);
    }
  }

  lemma AllowanceGrows(p: Policy, times: seq<real>, i: nat, n: nat)
    requires i < n < |times|
    ensures Allowance(p, times, i, n) == Allowance(p, times, i, n - 1) + Earned(p, times[n - 1], times[n])
  {
    EarnedAdds(p, times[i], times[n - 1], times[n]);
  }

  /** The level that request n of a run meets. */
  function LevelAt(p: Policy, b: Bucket, times: seq<real>, n: nat): real
    requires n < |times|
  {
    Level(p, After(p, b, times, n), times[n])
  }

  lemma DecidedByLevel(p: Policy, b: Bucket, times: seq<real>, n: nat)
    requires n < |times|
    ensures Decisions(p, b, times)[n] <==> LevelAt(p, b, times, n) >= 1.0
  {
  }

  lemma LevelNext(p: Policy, b: Bucket, times: seq<real>, n: nat)
    requires 1 <= n < |times|
    ensures var spent := if Decisions(p, b, times)[n - 1] then 1.0 else 0.0;
            LevelAt(p, b, times, n)
            == Min(p.capacity as real, LevelAt(p, b, times, n - 1) - spent + Earned(p, times[n - 1], times[n]))
  {
  }

  /** No window that ends at request n has less slack than the level request n meets... */
  lemma {:induction false} LevelWithinSlack(p: Policy, b: Bucket, times: seq<real>, i: nat, n: nat)
    requires i <= n < |times|
    ensures LevelAt(p, b, times, n) <= Allowance(p, times, i, n) - Count(Decisions(p, b, times), i, n) as real
  {
    hide Earned;
    EarnedAtOnce(p, times[i]);
    if i < n {
      var d := Decisions(p, b, times);
      LevelWithinSlack(p, b, times, i, n - 1);
      LevelNext(p, b, times, n);
      AllowanceGrows(p, times, i, n);
      assert Count(d, i, n) == Count(d, i, n - 1) + (if d[n - 1] then 1 else 0);
    }
  }

  /** ...and one of them has exactly that much. */
  lemma {:induction false} LevelMeetsSlack(p: Policy, b: Bucket, times: seq<real>, n: nat) returns (k: nat)
    requires n < |times| && Level(p, b, times[0]) == p.capacity as real
    ensures k <= n
    ensures LevelAt(p, b, times, n) == Allowance(p, times, k, n) - Count(Decisions(p, b, times), k, n) as real
  {
    hide Earned;
    if n == 0 {
      EarnedAtOnce(p, times[0]);
      k := 0;
    } else {
      var d := Decisions(p, b, times);
      k := LevelMeetsSlack(p, b, times, n - 1);
      LevelNext(p, b, times, n);
      AllowanceGrows(p, times, k, n);
      assert Count(d, k, n) == Count(d, k, n - 1) + (if d[n - 1] then 1 else 0);
      if LevelAt(p, b, times, n) == p.capacity as real {
        EarnedAtOnce(p, times[n]);
        k := n;
      }
    }
  }

  lemma FullAtStart(p: Policy, created: real, first: real)
    requires p.rate >= 0.0 && created <= first
    ensures Level(p, Full(p, created), first) == p.capacity as real
  {
    EarnedNonNegative(p, created, first);
  }

  /** Closed form: a request is allowed exactly when it fits every window that ends with it. */
  lemma AllowedIffFits(p: Policy, created: real, times: seq<real>, n: nat)
    requires p.rate >= 0.0 && n < |times| && created <= times[0]
    ensures var d := Decisions(p, Full(p, created), times);
            d[n] <==> Fits(p, times, d, n)
  {
    FullAtStart(p, created, times[0]);
    var d := Decisions(p, Full(p, created), times);
    var k := LevelMeetsSlack(p, Full(p, created), times, n);
    if d[n] {
      forall i | 0 <= i <= n ensures Count(d, i, n) as real + 1.0 <= Allowance(p, times, i, n) {
        LevelWithinSlack(p, Full(p, created), times, i, n);
      }
    } else {
      assert Count(d, k, n) as real + 1.0 > Allowance(p, times, k, n);
    }
  }

  lemma AllowanceNeverShrinks(p: Policy, times: seq<real>, i: nat, j: nat)
    requires p.rate >= 0.0 && i < j < |times| && times[j - 1] <= times[j]
    ensures Allowance(p, times, i, j - 1) <= Allowance(p, times, i, j)
  {
    AllowanceGrows(p, times, i, j);
    EarnedNonNegative(p, times[j - 1], times[j]);
  }

  /** Burst bound: no window of a run ever lets through more than capacity + rate * length. */
  lemma {:induction false} WindowBound(p: Policy, created: real, times: seq<real>, i: nat, j: nat)
    requires p.rate >= 0.0 && p.capacity >= 0 && Chronological(times)
    requires i <= j < |times| && created <= times[0]
    ensures Count(Decisions(p, Full(p, created), times), i, j + 1) as real <= Allowance(p, times, i, j)
  {
    hide Earned, Decisions, LevelAt, Full;
    var b := Full(p, created);
    var d := Decisions(p, b, times);
    DecidedByLevel(p, b, times, j);
    if d[j] {
      LevelWithinSlack(p, b, times, i, j);
    } else if i < j {
      WindowBound(p, created, times, i, j - 1);
      AllowanceNeverShrinks(p, times, i, j);
    } else {
      EarnedAtOnce(p, times[i]);
    }
  }

  /** Any other way of deciding the same requests that keeps every window within its allowance. */
  ghost predicate Admissible(p: Policy, times: seq<real>, d: seq<bool>) {
    |d| == |times| && forall n :: 0 <= n < |d| && d[n] ==> Fits(p, times, d, n)
  }

  /** Nothing is rejected needlessly: no admissible decisions ever let more requests through. */
  lemma {:induction false} NoBetterAdmission(p: Policy, created: real, times: seq<real>, other: seq<bool>, n: nat)
    requires p.rate >= 0.0 && Admissible(p, times, other)
    requires n <= |times| && (times != [] ==> created <= times[0])
    ensures Count(other, 0, n) <= Count(Decisions(p, Full(p, created), times), 0, n)
  {
    if n > 0 {
      var d := Decisions(p, Full(p, created), times);
      NoBetterAdmission(p, created, times, other, n - 1);
      AllowedIffFits(p, created, times, n - 1);
      if other[n - 1] && !d[n - 1] && Count(other, 0, n - 1) == Count(d, 0, n - 1) {
        var i :| 0 <= i <= n - 1 && !(Count(d, i, n - 1) as real + 1.0 <= Allowance(p, times, i, n - 1));
        NoBetterAdmission(p, created, times, other, i);
        CountSplit(d, 0, i, n - 1);
        CountSplit(other, 0, i, n - 1);
        assert false;
      }
    }
  }

  // ----- what the two read-only answers promise -----

  /** Between requests a bucket only refills: a rejected request changes no later level. */
  lemma RejectionIsInvisible(p: Policy, b: Bucket, now: real, later: real)
    requires p.rate >= 0.0 && b.lastRefill <= now <= later
    requires !Consume(p, b, now).1
    ensures Level(p, Consume(p, b, now).0, later) == Level(p, b, later)
  {
    EarnedAdds(p, b.lastRefill, now, later);
    EarnedNonNegative(p, now, later);
    assert Level(p, b, now) < 1.0;
  }

  lemma {:induction false} RejectionsAreInvisible(p: Policy, b: Bucket, retries: seq<real>, later: real)
    requires p.rate >= 0.0 && Chronological([b.lastRefill] + retries + [later])
    requires forall n :: 0 <= n < |retries| ==> !Decisions(p, b, retries)[n]
    ensures Level(p, After(p, b, retries, |retries|), later) == Level(p, b, later)
    decreases |retries|
  {
    if retries != [] {
      var (b', ok) := Consume(p, b, retries[0]);
      var rest := retries[1..];
      var all := [b.lastRefill] + retries + [later];
      assert all[0] == b.lastRefill && all[1] == retries[0] && all[|all| - 1] == later;
      ServeIsDecisions(p, b, retries);
      ServeIsDecisions(p, b', rest);
      assert !Decisions(p, b, retries)[0];
      assert After(p, b, retries, 0) == b;
      assert !ok;
      forall n | 0 <= n < |rest| ensures !Decisions(p, b', rest)[n] {
        assert !Decisions(p, b, retries)[n + 1];
      }
      assert [b'.lastRefill] + rest + [later] == all[1..];
      assert forall i {:trigger all[1..][i]} :: 0 <= i < |all| - 1 ==> all[1..][i] == all[i + 1];
      RejectionsAreInvisible(p, b', rest, later);
      AfterShift(p, b, retries, |retries|);
      RejectionIsInvisible(p, b, retries[0], later);
    }
  }

  lemma DivideBound(x: real, rate: real, m: int)
    requires rate > 0.0
    ensures m as real >= x / rate <==> m as real * rate >= x
  {
    assert x / rate * rate == x;
    if m as real >= x / rate {
      assert (m as real - x / rate) * rate >= 0.0;
    } else {
      assert (x / rate - m as real) * rate > 0.0;
    }
  }

  lemma EarnedInSeconds(p: Policy, since: real, m: nat)
    ensures Earned(p, since, since + m as real) == m as real * p.rate
  {
    assert since + m as real - since == m as real;
  }

  lemma RetryThreshold(p: Policy, r: Bucket, m: nat)
    requires r.tokens < 1.0 && p.rate > 0.0 && p.capacity >= 1
    ensures RetryAfterOf(p, r).Seconds?
    ensures m >= RetryAfterOf(p, r).seconds <==> Level(p, r, r.lastRefill + m as real) >= 1.0
  {
    DivideBound(1.0 - r.tokens, p.rate, m);
    EarnedInSeconds(p, r.lastRefill, m);
  }

  lemma RetryFromEmpty(p: Policy, r: Bucket, retries: seq<real>, m: nat)
    requires p.capacity >= 1 && p.rate > 0.0 && r.tokens < 1.0
    requires Chronological([r.lastRefill] + retries + [r.lastRefill + m as real])
    requires forall n :: 0 <= n < |retries| ==> !Decisions(p, r, retries)[n]
    ensures RetryAfterOf(p, r).Seconds?
    ensures Level(p, After(p, r, retries, |retries|), r.lastRefill + m as real) >= 1.0
            <==> m >= RetryAfterOf(p, r).seconds
  {
    RejectionsAreInvisible(p, r, retries, r.lastRefill + m as real);
    RetryThreshold(p, r, m);
  }

  lemma LevelAtRefill(p: Policy, b: Bucket)
    ensures Level(p, b, b.lastRefill) == Min(p.capacity as real, b.tokens)
  {
    EarnedAtOnce(p, b.lastRefill);
  }

  /** Retry-After is exact: after a rejection at `now`, and any number of rejected retries since,
      a request m whole seconds later is allowed exactly when m is at least the reported number. */
  lemma RetryAfterIsExact(p: Policy, b: Bucket, now: real, r: Bucket, retries: seq<real>, m: nat)
    requires p.capacity >= 1 && p.rate > 0.0 && Consume(p, b, now) == (r, false)
    requires Chronological([now] + retries + [now + m as real])
    requires forall n :: 0 <= n < |retries| ==> !Decisions(p, r, retries)[n]
    ensures RetryAfterOf(p, r).Seconds? && RetryAfterOf(p, r).seconds >= 1
    ensures Consume(p, After(p, r, retries, |retries|), now + m as real).1 <==> m >= RetryAfterOf(p, r).seconds
  {
    hide Earned;
    RetryFromEmpty(p, r, retries, m);
    RetryThreshold(p, r, 0);
    LevelAtRefill(p, r);
  }

  /** The estimate fails exactly at a rate of zero: every rejected request gets a whole number of seconds, at
      least one when the rate is positive, or else a division by zero. */
  lemma RetryAfterFailsIff(p: Policy, b: Bucket, now: real)
    requires !Consume(p, b, now).1
    ensures var answer := RetryAfterOf(p, Consume(p, b, now).0);
            && (answer.DivisionByZero? <==> p.rate == 0.0)
            && (p.rate > 0.0 ==> answer.seconds >= 1)
  {
    var r := Consume(p, b, now).0;
    if p.rate > 0.0 {
      DivideBound(1.0 - r.tokens, p.rate, 0);
    }
  }

  /** No wait is reported exactly when there is a token in hand. */
  lemma NoWaitIffToken(p: Policy, b: Bucket)
    requires p.rate >= 0.0
    ensures RetryAfterOf(p, b) == Seconds(0) <==> b.tokens >= 1.0
  {
    if p.rate > 0.0 && b.tokens < 1.0 {
      DivideBound(1.0 - b.tokens, p.rate, 0);
    }
  }

  /** The failing input: a bucket of one token that nothing refills, asked twice. */
  lemma ZeroRateDivides()
    ensures var p := Policy(1, 0.0);
            var (b, first) := Consume(p, Full(p, 0.0), 1.0);
            var (c, second) := Consume(p, b, 2.0);
            first && !second && RetryAfterOf(p, c) == DivisionByZero
  {
  }

  /** remaining() = n means exactly the next n requests of that instant pass. */
  lemma {:induction false} RemainingIsExact(p: Policy, b: Bucket, now: real, times: seq<real>, k: nat)
    requires Level(p, b, now) >= 0.0 && k < |times|
    requires forall i :: 0 <= i < |times| ==> times[i] == now
    ensures Serve(p, b, times)[k] <==> k < Truncate(Level(p, b, now))
    decreases k
  {
    var level := Level(p, b, now);
    var (b', ok) := Consume(p, b, times[0]);
    assert b' == Bucket(if ok then level - 1.0 else level, now);
    LevelAtRefill(p, b');
    if k > 0 {
      RemainingIsExact(p, b', now, times[1..], k - 1);
      assert Serve(p, b, times)[k] == Serve(p, b', times[1..])[k - 1];
      if ok {
        assert (level - 1.0).Floor == level.Floor - 1;
      } else {
        assert level.Floor == 0;
      }
    } else {
      assert level >= 1.0 <==> level.Floor >= 1;
    }
  }
}
