/** What a single worker can pass when idle buckets are forgotten before they are full. */
module LoneWorker {
  import opened LimiterInterleaving
  import opened TokenBuckets
  import RL = RateLimiting

  /** One request of `ip` at the present instant, by a bucket that has a token for it. */
  ghost predicate Ready(p: Policy, s: State, ip: string, tokens: nat) {
    && s.workers == [Idle] && s.now - s.lastPrune < RL.PRUNE_INTERVAL && tokens <= p.capacity
    && if ip in s.registry then
         s.registry[ip] < |s.heap| && s.heap[s.registry[ip]] == Cell(ip, Bucket(tokens as real, s.now))
       else tokens == p.capacity
  }

  function IdOf(s: State, ip: string): nat {
    if ip in s.registry then s.registry[ip] else |s.heap|
  }

  function PassedNow(s: State, ip: string): Taken {
    Taken(ip, s.now, true, false)
  }

  lemma ServeOne(p: Policy, s: State, ip: string, tokens: nat) returns (steps: seq<Step>, end: State)
    requires Ready(p, s, ip, tokens) && tokens >= 1
    ensures Runs(p, s, steps, end) && Ready(p, end, ip, tokens - 1)
    ensures end.now == s.now && end.lastPrune == s.lastPrune && end.registry == s.registry[ip := IdOf(s, ip)]
    ensures end.log == s.log + [PassedNow(s, ip)]
    ensures |end.heap| == if ip in s.registry then |s.heap| else |s.heap| + 1
  {
    hide Runs;
    var id := IdOf(s, ip);
    var heap := if ip in s.registry then s.heap else s.heap + [Cell(ip, Full(p, s.now))];
    var a := s.(heap := heap, registry := s.registry[ip := id], workers := [Fetched(ip, id, false)]);
    assert s.workers[0 := Fetched(ip, id, false)] == a.workers;
    assert ip in s.registry ==> s.registry[ip := id] == s.registry;
    assert Apply(p, s, Fetch(0, ip)) == a;
    var b := a.(workers := [Holding(ip, id, false, s.now)]);
    assert Apply(p, a, Lock(0)) == b;
    RunsTwo(p, s, Fetch(0, ip), a, Lock(0), b);
    EarnedAtOnce(p, s.now);
    assert Consume(p, heap[id].bucket, s.now) == (Bucket((tokens - 1) as real, s.now), true);
    var c := b.(heap := heap[id := Cell(ip, Bucket((tokens - 1) as real, s.now))], log := s.log + [PassedNow(s, ip)],
                workers := [Checking(ip, true)]);
    assert Apply(p, b, Take(0)) == c;
    var d := c.(workers := [Answered(ip, true)]);
    assert Apply(p, c, CheckPrune(0)) == d;
    RunsTwo(p, b, Take(0), c, CheckPrune(0), d);
    end := d.(workers := [Idle], passwordChecks := s.passwordChecks + [ip]);
    assert Apply(p, d, Return(0)) == end;
    RunsOne(p, d, Return(0), end);
    RunsAppend(p, b, [Take(0), CheckPrune(0)], d, [Return(0)], end);
    RunsAppend(p, s, [Fetch(0, ip), Lock(0)], b, [Take(0), CheckPrune(0)] + [Return(0)], end);
    steps := [Fetch(0, ip), Lock(0)] + ([Take(0), CheckPrune(0)] + [Return(0)]);
  }

  /** A burst that uses up the bucket. */
  lemma {:induction false} ServeAll(p: Policy, s: State, ip: string, tokens: nat) returns (steps: seq<Step>, end: State)
    requires Ready(p, s, ip, tokens) && (tokens >= 1 || ip in s.registry)
    ensures Runs(p, s, steps, end) && Ready(p, end, ip, 0)
    ensures end.now == s.now && end.lastPrune == s.lastPrune && end.registry == s.registry[ip := IdOf(s, ip)]
    ensures forall since, until :: since <= s.now <= until ==>
              AllowedInWindow(end.log, ip, since, until) == AllowedInWindow(s.log, ip, since, until) + tokens
    ensures |end.heap| == if ip in s.registry then |s.heap| else |s.heap| + 1
    decreases tokens
  {
    hide AllowedInWindow;
    if tokens == 0 {
      steps, end := [], s;
      assert s.registry[ip := IdOf(s, ip)] == s.registry;
    } else {
      var first, mid := ServeOne(p, s, ip, tokens);
      var rest: seq<Step>;
      rest, end := ServeAll(p, mid, ip, tokens - 1);
      RunsAppend(p, s, first, mid, rest, end);
      steps := first + rest;
      assert s.registry[ip := IdOf(s, ip)][ip := IdOf(s, ip)] == s.registry[ip := IdOf(s, ip)];
      forall since, until | since <= s.now <= until
        ensures AllowedInWindow(end.log, ip, since, until) == AllowedInWindow(s.log, ip, since, until) + tokens
      {
        WindowSnoc(s.log, PassedNow(s, ip), ip, since, until);
      }
    }
  }

  /** Another client's request, after which the worker sweeps: the bucket of "a" is forgotten. */
  lemma ServeBAndSweep(p: Policy, s: State) returns (steps: seq<Step>, end: State)
    requires p.capacity >= 1 && s.workers == [Idle] && s.now - s.lastPrune >= RL.PRUNE_INTERVAL
    requires s.registry == map["a" := 0] && |s.heap| == 1 && RL.Stale(s.heap[0].bucket, s.now)
    ensures Runs(p, s, steps, end)
    ensures end.workers == [Idle] && end.now == s.now == end.lastPrune && end.registry == map["b" := 1]
    ensures end.log == s.log + [PassedNow(s, "b")]
  {
    hide Runs;
    var t := s.now;
    assert "b"[0] != "a"[0];
    var a := s.(heap := s.heap + [Cell("b", Full(p, t))], registry := map["a" := 0, "b" := 1],
                workers := [Fetched("b", 1, false)]);
    assert Apply(p, s, Fetch(0, "b")) == a;
    var b := a.(workers := [Holding("b", 1, false, t)]);
    assert Apply(p, a, Lock(0)) == b;
    RunsTwo(p, s, Fetch(0, "b"), a, Lock(0), b);
    EarnedAtOnce(p, t);
    assert Consume(p, Full(p, t), t) == (Bucket(p.capacity as real - 1.0, t), true);
    var c := b.(heap := s.heap + [Cell("b", Bucket(p.capacity as real - 1.0, t))], log := s.log + [PassedNow(s, "b")],
                workers := [Checking("b", true)]);
    assert b.heap[1 := Cell("b", Bucket(p.capacity as real - 1.0, t))] == c.heap;
    assert Apply(p, b, Take(0)) == c;
    var d := c.(workers := [Sweeping("b", true, t)]);
    assert Apply(p, c, CheckPrune(0)) == d;
    RunsTwo(p, b, Take(0), c, CheckPrune(0), d);
    var e := d.(registry := map["b" := 1], lastPrune := t, workers := [Answered("b", true)]);
    assert Dropped(d, "a", t) && !Dropped(d, "b", t);
    assert Apply(p, d, Sweep(0)).registry == e.registry;
    assert Apply(p, d, Sweep(0)) == e;
    end := e.(workers := [Idle], passwordChecks := s.passwordChecks + ["b"]);
    assert Apply(p, e, Return(0)) == end;
    RunsTwo(p, d, Sweep(0), e, Return(0), end);
    RunsAppend(p, b, [Take(0), CheckPrune(0)], d, [Sweep(0), Return(0)], end);
    RunsAppend(p, s, [Fetch(0, "b"), Lock(0)], b, [Take(0), CheckPrune(0)] + [Sweep(0), Return(0)], end);
    steps := [Fetch(0, "b"), Lock(0)] + ([Take(0), CheckPrune(0)] + [Sweep(0), Return(0)]);
  }

  lemma NothingYet(start: real, until: real)
    ensures AllowedInWindow(Start(start, 1).log, "a", start, until) == 0
  {
  }

  /** Twice the capacity passes in a window that earns less than the capacity: the bucket is used up, forgotten while
      it refills, and replaced by a full one. */
  lemma LoneWorkerExceeds(p: Policy, start: real) returns (steps: seq<Step>, end: State, until: real)
    requires p.rate >= 0.0 && p.capacity >= 1 && !RL.RefillsWhenStale(p)
    ensures Runs(p, Start(start, 1), steps, end) && start <= until
    ensures AllowedInWindow(end.log, "a", start, until) == 2 * p.capacity
    ensures Earned(p, start, until) < p.capacity as real
  {
    hide Runs, AllowedInWindow, RL.RefillsWhenStale;
    var s0 := Start(start, 1);
    assert s0.workers == [Idle];
    RL.ProbeTimeIsBetween(p);
    until := start + RL.ProbeTime(p);
    RL.EarnedShift(p, 0.0, RL.ProbeTime(p), start);
    var first, s1 := ServeAll(p, s0, "a", p.capacity);
    var s2 := s1.(now := until);
    RunsOne(p, s1, Tick(until), s2);
    var middle, s3 := ServeBAndSweep(p, s2);
    assert "a"[0] != "b"[0];
    var last: seq<Step>;
    last, end := ServeAll(p, s3, "a", p.capacity);
    WindowSnoc(s2.log, PassedNow(s2, "b"), "a", start, until);
    NothingYet(start, until);
    RunsAppend(p, s2, middle, s3, last, end);
    RunsAppend(p, s1, [Tick(until)], s2, middle + last, end);
    RunsAppend(p, s0, first, s1, [Tick(until)] + (middle + last), end);
    steps := first + ([Tick(until)] + (middle + last));
  }
}
