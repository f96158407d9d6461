/** The two views of the limiter agree: a worker's steps with nobody's in between are one call of is_allowed. */
module LoneCall {
  import opened LimiterInterleaving
  import opened TokenBuckets
  import RL = RateLimiting

  /** Every registered bucket exists and is its own client's. */
  ghost predicate Sound(s: State) {
    forall ip :: ip in s.registry ==> s.registry[ip] < |s.heap| && s.heap[s.registry[ip]].ip == ip
  }

  /** The registry the machine's state stands for. */
  ghost function View(s: State): RL.Registry
    requires Sound(s)
  {
    RL.Registry(map ip | ip in s.registry :: s.heap[s.registry[ip]].bucket, s.lastPrune)
  }

  /** What one worker's step leaves alone. */
  ghost predicate Beside(s: State, s': State, w: nat) {
    && |s'.workers| == |s.workers| && s'.now == s.now
    && (forall v :: 0 <= v < |s.workers| && v != w && !s.workers[v].Holding? ==> !s'.workers[v].Holding?)
  }

  lemma FetchAlone(p: Policy, s: State, w: nat, ip: string)
    requires Sound(s) && Enabled(s, Fetch(w, ip))
    ensures var s' := Apply(p, s, Fetch(w, ip));
            && Sound(s') && View(s') == RL.Fetch(p, View(s), ip, s.now) && ip in s'.registry && Beside(s, s', w)
            && s'.workers == s.workers[w := Fetched(ip, s'.registry[ip], false)]
            && s'.passwordChecks == s.passwordChecks
  {
    hide Full;
    var s' := Apply(p, s, Fetch(w, ip));
    assert View(s').buckets == RL.Fetch(p, View(s), ip, s.now).buckets;
  }

  lemma TakeAlone(p: Policy, s: State, w: nat, ip: string)
    requires Sound(s) && w < |s.workers| && s.workers[w].Holding? && s.workers[w].ip == ip
    requires ip in s.registry && s.workers[w].id == s.registry[ip]
    ensures Enabled(s, Take(w))
    ensures var s' := Apply(p, s, Take(w));
            var (b, ok) := Consume(p, View(s).buckets[ip], s.workers[w].reading);
            && Sound(s') && View(s') == View(s).(buckets := View(s).buckets[ip := b]) && Beside(s, s', w)
            && s'.workers == s.workers[w := Checking(ip, ok)] && s'.passwordChecks == s.passwordChecks
  {
    hide Consume;
    var s' := Apply(p, s, Take(w));
    var (b, ok) := Consume(p, View(s).buckets[ip], s.workers[w].reading);
    assert View(s').buckets == View(s).buckets[ip := b];
  }

  lemma SweepAlone(p: Policy, s: State, w: nat)
    requires Sound(s) && w < |s.workers| && s.workers[w].Sweeping? && s.now == s.workers[w].reading
    requires s.now - s.lastPrune >= RL.PRUNE_INTERVAL
    ensures Enabled(s, Sweep(w))
    ensures var s' := Apply(p, s, Sweep(w));
            && Sound(s') && View(s') == RL.Prune(View(s), s.now) && Beside(s, s', w)
            && s'.workers[w] == Answered(s.workers[w].ip, s.workers[w].ok) && s'.passwordChecks == s.passwordChecks
  {
    var s' := Apply(p, s, Sweep(w));
    assert View(s').buckets == RL.Prune(View(s), s.now).buckets;
  }

  /** The first half: a bucket and a token. */
  lemma AdmitAlone(p: Policy, s: State, w: nat, call: RL.Call) returns (steps: seq<Step>, end: State)
    requires Sound(s) && w < |s.workers| && s.workers[w].Idle? && forall v :: 0 <= v < |s.workers| ==> !s.workers[v].Holding?
    requires s.now <= call.fetchedAt <= call.consumedAt
    ensures Runs(p, s, steps, end) && Sound(end) && |end.workers| == |s.workers| && end.now == call.consumedAt
    ensures View(end) == RL.Admit(p, View(s), call).0 && end.passwordChecks == s.passwordChecks
    ensures end.workers[w] == Checking(call.ip, RL.Admit(p, View(s), call).1)
    ensures forall v :: 0 <= v < |end.workers| ==> !end.workers[v].Holding?
  {
    hide Runs, Consume, Full;
    var a := Apply(p, s, Tick(call.fetchedAt));
    assert View(a) == View(s);
    FetchAlone(p, a, w, call.ip);
    var b := Apply(p, a, Fetch(w, call.ip));
    var c := Apply(p, b, Tick(call.consumedAt));
    assert View(c) == View(b);
    var d := Apply(p, c, Lock(w));
    assert View(d) == View(c);
    TakeAlone(p, d, w, call.ip);
    end := Apply(p, d, Take(w));
    RunsTwo(p, s, Tick(call.fetchedAt), a, Fetch(w, call.ip), b);
    RunsTwo(p, b, Tick(call.consumedAt), c, Lock(w), d);
    RunsOne(p, d, Take(w), end);
    RunsAppend(p, b, [Tick(call.consumedAt), Lock(w)], d, [Take(w)], end);
    RunsAppend(p, s, [Tick(call.fetchedAt), Fetch(w, call.ip)], b, [Tick(call.consumedAt), Lock(w)] + [Take(w)], end);
    steps := [Tick(call.fetchedAt), Fetch(w, call.ip)] + ([Tick(call.consumedAt), Lock(w)] + [Take(w)]);
  }

  /** The second half: the prune check, the sweep if one is due, and the password check that follows. */
  lemma PruneAlone(p: Policy, s: State, w: nat, now: real) returns (steps: seq<Step>, end: State)
    requires Sound(s) && w < |s.workers| && s.workers[w].Checking? && s.now <= now
    requires forall v :: 0 <= v < |s.workers| ==> !s.workers[v].Holding?
    ensures Runs(p, s, steps, end) && Sound(end) && |end.workers| == |s.workers| && end.now == now
    ensures View(end) == RL.Prune(View(s), now) && end.workers[w].Idle?
    ensures end.passwordChecks == s.passwordChecks + (if s.workers[w].ok then [s.workers[w].ip] else [])
    ensures forall v :: 0 <= v < |end.workers| ==> !end.workers[v].Holding?
  {
    hide Runs;
    var a := Apply(p, s, Tick(now));
    assert View(a) == View(s);
    var b := Apply(p, a, CheckPrune(w));
    assert View(b) == View(a);
    RunsTwo(p, s, Tick(now), a, CheckPrune(w), b);
    if now - s.lastPrune < RL.PRUNE_INTERVAL {
      end := Apply(p, b, Return(w));
      assert View(end) == View(b);
      RunsOne(p, b, Return(w), end);
      RunsAppend(p, s, [Tick(now), CheckPrune(w)], b, [Return(w)], end);
      steps := [Tick(now), CheckPrune(w)] + [Return(w)];
    } else {
      SweepAlone(p, b, w);
      var c := Apply(p, b, Sweep(w));
      end := Apply(p, c, Return(w));
      assert View(end) == View(c);
      RunsTwo(p, b, Sweep(w), c, Return(w), end);
      RunsAppend(p, s, [Tick(now), CheckPrune(w)], b, [Sweep(w), Return(w)], end);
      steps := [Tick(now), CheckPrune(w)] + [Sweep(w), Return(w)];
    }
  }

  /** From any state in which nobody holds a bucket's lock, an idle worker can make any call of is_allowed: the registry is
      then what that call leaves, and the password is checked if and only if the call allows it. */
  lemma CallAlone(p: Policy, s: State, w: nat, call: RL.Call) returns (steps: seq<Step>, end: State)
    requires Sound(s) && w < |s.workers| && s.workers[w].Idle? && forall v :: 0 <= v < |s.workers| ==> !s.workers[v].Holding?
    requires s.now <= call.fetchedAt <= call.consumedAt <= call.prunedAt
    ensures Runs(p, s, steps, end) && Sound(end) && |end.workers| == |s.workers| && end.workers[w].Idle?
    ensures View(end) == RL.IsAllowedOf(p, View(s), call, true).0 && end.now == call.prunedAt
    ensures end.passwordChecks
            == s.passwordChecks + (if RL.IsAllowedOf(p, View(s), call, true).1 then [call.ip] else [])
  {
    hide Runs, RL.Admit, RL.Prune, Consume;
    var first, mid := AdmitAlone(p, s, w, call);
    var second: seq<Step>;
    second, end := PruneAlone(p, mid, w, call.prunedAt);
    RunsAppend(p, s, first, mid, second, end);
    steps := first + second;
  }

  /** The clients of the calls that were allowed, in order. */
  function AllowedClients(calls: seq<RL.Call>, decisions: seq<bool>): seq<string>
    requires |decisions| == |calls|
    decreases |calls|
  {
    if calls == [] then []
    else (if decisions[0] then [calls[0].ip] else []) + AllowedClients(calls[1..], decisions[1..])
  }

  lemma RunsNothing(p: Policy, s: State)
    ensures Runs(p, s, [], s)
  {
  }

  /** And any trace of calls, one after another: what is proved of traces holds of the machine's runs with one call at a
      time. */
  lemma {:induction false} TraceAlone(p: Policy, s: State, calls: seq<RL.Call>) returns (steps: seq<Step>, end: State)
    requires Sound(s) && s.workers == [Idle] && RL.Ordered(s.now, calls)
    ensures Runs(p, s, steps, end) && Sound(end) && end.workers == [Idle]
    ensures View(end) == RL.Final(p, View(s), calls, true)
    ensures end.passwordChecks == s.passwordChecks + AllowedClients(calls, RL.Run(p, View(s), calls, true))
    decreases |calls|
  {
    hide RL.IsAllowedOf, Runs;
    if calls == [] {
      steps, end := [], s;
      RunsNothing(p, s);
    } else {
      var first, mid := CallAlone(p, s, 0, calls[0]);
      assert mid.workers == [Idle];
      var rest: seq<Step>;
      rest, end := TraceAlone(p, mid, calls[1..]);
      RunsAppend(p, s, first, mid, rest, end);
      steps := first + rest;
    }
  }
}
