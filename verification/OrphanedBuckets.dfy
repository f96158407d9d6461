/** When workers can pass more requests than the plain cap, exactly: when there are two of them, or when idle buckets
    are forgotten before they are full. */
module OrphanedBuckets {
  import opened LimiterInterleaving
  import opened LoneWorker
  import opened TokenBuckets
  import RL = RateLimiting

  /** No window of any run passes more than capacity + rate * length requests of one IP. */
  ghost predicate PlainCap(p: Policy, start: real, workerCount: nat) {
    forall steps, end, ip, since, until :: since <= until && Runs(p, Start(start, workerCount), steps, end) ==>
      AllowedInWindow(end.log, ip, since, until) as real <= p.capacity as real + Earned(p, since, until)
  }

  // ----- one worker, none, or no capacity -----

  /** Nobody passes through a dropped bucket. */
  ghost predicate NoOrphans(s: State) {
    && |s.workers| <= 1
    && (forall w :: 0 <= w < |s.workers| ==> !((s.workers[w].Fetched? || s.workers[w].Holding?) && s.workers[w].orphaned))
    && (forall i :: 0 <= i < |s.log| ==> !s.log[i].orphaned)
  }

  /** A lone sweeper holds no bucket. */
  lemma {:induction false} LoneWorkerKeepsBuckets(p: Policy, s: State, steps: seq<Step>, end: State)
    requires NoOrphans(s) && Runs(p, s, steps, end)
    ensures NoOrphans(end)
    decreases |steps|
  {
    hide Consume;
    if steps != [] {
      LoneWorkerKeepsBuckets(p, Apply(p, s, steps[0]), steps[1..], end);
    }
  }

  lemma {:induction false} NoOrphansCount(log: seq<Taken>, ip: string, since: real, until: real)
    requires forall i :: 0 <= i < |log| ==> !log[i].orphaned
    ensures Allowed(log, ip, since, until, true) == 0
    decreases |log|
  {
    if log != [] {
      NoOrphansCount(log[..|log| - 1], ip, since, until);
    }
  }

  ghost predicate NothingPassed(s: State) {
    forall i :: 0 <= i < |s.log| ==> !s.log[i].ok
  }

  lemma {:induction false} NoCapacityPassesNothing(p: Policy, s: State, steps: seq<Step>, end: State)
    requires p.capacity == 0 && NothingPassed(s) && Runs(p, s, steps, end)
    ensures NothingPassed(end)
    decreases |steps|
  {
    hide Earned;
    if steps != [] {
      NoCapacityPassesNothing(p, Apply(p, s, steps[0]), steps[1..], end);
    }
  }

  lemma {:induction false} NobodyPassesNothing(p: Policy, s: State, steps: seq<Step>, end: State)
    requires s.workers == [] && NothingPassed(s) && Runs(p, s, steps, end)
    ensures NothingPassed(end)
    decreases |steps|
  {
    if steps != [] {
      NobodyPassesNothing(p, Apply(p, s, steps[0]), steps[1..], end);
    }
  }

  lemma {:induction false} NothingPassedCount(log: seq<Taken>, ip: string, since: real, until: real)
    requires forall i :: 0 <= i < |log| ==> !log[i].ok
    ensures AllowedInWindow(log, ip, since, until) == 0
    decreases |log|
  {
    if log != [] {
      NothingPassedCount(log[..|log| - 1], ip, since, until);
    }
  }

  lemma NothingAtFirst(start: real, workerCount: nat)
    ensures NothingPassed(Start(start, workerCount))
  {
  }

  lemma NothingMeansNone(s: State, ip: string, since: real, until: real)
    requires NothingPassed(s)
    ensures AllowedInWindow(s.log, ip, since, until) == 0
  {
    NothingPassedCount(s.log, ip, since, until);
  }

  lemma FewCannotExceed(p: Policy, start: real, workerCount: nat)
    requires p.rate >= 0.0 && p.capacity >= 0
    requires p.capacity == 0 || workerCount == 0 || (workerCount == 1 && RL.RefillsWhenStale(p))
    ensures PlainCap(p, start, workerCount)
  {
    hide Runs, NothingPassed, AllowedInWindow;
    forall steps, end, ip, since, until | since <= until && Runs(p, Start(start, workerCount), steps, end)
      ensures AllowedInWindow(end.log, ip, since, until) as real <= p.capacity as real + Earned(p, since, until)
    {
      if p.capacity == 0 || workerCount == 0 {
        NothingAtFirst(start, workerCount);
        if p.capacity == 0 {
          NoCapacityPassesNothing(p, Start(start, workerCount), steps, end);
        } else {
          NobodyPassesNothing(p, Start(start, workerCount), steps, end);
        }
        NothingMeansNone(end, ip, since, until);
        EarnedNonNegative(p, since, until);
      } else {
        LoneWorkerKeepsBuckets(p, Start(start, workerCount), steps, end);
        NoOrphansCount(end.log, ip, since, until);
        WindowCap(p, start, workerCount, steps, end, ip, since, until);
      }
    }
  }

  // ----- two workers: a run that exceeds the cap -----

  const IDLE_TIME := 700.0

  /** Two workers at work, the others idle. */
  function Crew(n: nat, first: Phase, second: Phase): seq<Phase>
    requires n >= 2
  {
    [first, second] + seq(n - 2, _ => Idle)
  }

  lemma CrewUpdates(n: nat, first: Phase, second: Phase, phase: Phase)
    requires n >= 2
    ensures Crew(n, first, second)[0 := phase] == Crew(n, phase, second)
    ensures Crew(n, first, second)[1 := phase] == Crew(n, first, phase)
  {
  }

  /** The bucket worker 0 fetched for "a" and never asked. */
  function Untouched(p: Policy, start: real): Cell {
    Cell("a", Full(p, start))
  }

  /** Worker 0 holds on to it while the time goes by... */
  function Fetched0(p: Policy, start: real, n: nat): State
    requires n >= 2
  {
    State(start + IDLE_TIME, [Untouched(p, start)], map["a" := 0], start,
          Crew(n, Fetched("a", 0, false), Idle), [], [])
  }

  function PassedB(t: real): Taken {
    Taken("b", t, true, false)
  }

  /** ...worker 1 serves "b", and sweeps... */
  function Swept(p: Policy, start: real, n: nat): State
    requires n >= 2
  {
    var t := start + IDLE_TIME;
    State(t, [Untouched(p, start), Cell("b", Bucket(p.capacity as real - 1.0, t))], map["b" := 1], t,
          Crew(n, Fetched("a", 0, true), Answered("b", true)), [PassedB(t)], [])
  }

  function DrainLog(t: real, k: nat): seq<Taken> {
    if k == 0 then [PassedB(t)] else DrainLog(t, k - 1) + [Taken("a", t, true, false)]
  }

  function DrainChecks(k: nat): seq<string> {
    if k == 0 then ["b"] else DrainChecks(k - 1) + ["a"]
  }

  /** ...then fetches a new bucket for "a", and has taken k of its tokens. */
  function Drained(p: Policy, start: real, n: nat, k: nat): State
    requires n >= 2
  {
    var t := start + IDLE_TIME;
    State(t, [Untouched(p, start), Cell("b", Bucket(p.capacity as real - 1.0, t)), Cell("a", Bucket((p.capacity - k) as real, t))],
          map["a" := 2, "b" := 1], t, Crew(n, Fetched("a", 0, true), Fetched("a", 2, false)), DrainLog(t, k), DrainChecks(k))
  }

  lemma ToFetched0(p: Policy, start: real, n: nat)
    requires n >= 2
    ensures Runs(p, Start(start, n), [Fetch(0, "a"), Tick(start + IDLE_TIME)], Fetched0(p, start, n))
  {
    var s := Start(start, n);
    assert s.workers == Crew(n, Idle, Idle);
    CrewUpdates(n, Idle, Idle, Fetched("a", 0, false));
    var a := Fetched0(p, start, n).(now := start);
    assert Apply(p, s, Fetch(0, "a")).registry == map["a" := 0];
    assert Apply(p, s, Fetch(0, "a")) == a;
    RunsTwo(p, s, Fetch(0, "a"), a, Tick(start + IDLE_TIME), Fetched0(p, start, n));
  }

  lemma CrewAt(n: nat, first: Phase, second: Phase)
    requires n >= 2
    ensures var crew := Crew(n, first, second);
            && |crew| == n && crew[0] == first && crew[1] == second
            && (forall w :: 2 <= w < n ==> crew[w] == Idle)
  {
  }

  lemma ServeB(p: Policy, start: real, n: nat) returns (steps: seq<Step>, end: State)
    requires n >= 2 && p.capacity >= 1
    ensures end == Fetched0(p, start, n).(
              heap := Swept(p, start, n).heap, registry := map["a" := 0, "b" := 1],
              workers := Crew(n, Fetched("a", 0, false), Checking("b", true)), log := [PassedB(start + IDLE_TIME)])
    ensures Runs(p, Fetched0(p, start, n), steps, end)
  {
    hide Crew, Runs;
    var f, t, held := Fetched0(p, start, n), start + IDLE_TIME, Fetched("a", 0, false);
    CrewUpdates(n, held, Idle, Fetched("b", 1, false));
    var a := f.(heap := [Untouched(p, start), Cell("b", Full(p, t))], registry := map["a" := 0, "b" := 1],
                workers := Crew(n, held, Fetched("b", 1, false)));
    CrewAt(n, held, Idle);
    assert Apply(p, f, Fetch(1, "b")) == a;
    CrewAt(n, held, Fetched("b", 1, false));
    CrewUpdates(n, held, Fetched("b", 1, false), Holding("b", 1, false, t));
    var b := a.(workers := Crew(n, held, Holding("b", 1, false, t)));
    assert Apply(p, a, Lock(1)) == b;
    RunsTwo(p, f, Fetch(1, "b"), a, Lock(1), b);
    CrewAt(n, held, Holding("b", 1, false, t));
    CrewUpdates(n, held, Holding("b", 1, false, t), Checking("b", true));
    EarnedAtOnce(p, t);
    assert Consume(p, Full(p, t), t) == (Bucket(p.capacity as real - 1.0, t), true);
    end := b.(heap := Swept(p, start, n).heap, log := [PassedB(t)], workers := Crew(n, held, Checking("b", true)));
    assert Apply(p, b, Take(1)) == end;
    RunsOne(p, b, Take(1), end);
    RunsAppend(p, f, [Fetch(1, "b"), Lock(1)], b, [Take(1)], end);
    steps := [Fetch(1, "b"), Lock(1)] + [Take(1)];
  }

  lemma SweepDropsA(p: Policy, start: real, n: nat, s: State)
    requires n >= 2 && p.capacity >= 1
    requires s == Fetched0(p, start, n).(
               heap := Swept(p, start, n).heap, registry := map["a" := 0, "b" := 1],
               workers := Crew(n, Fetched("a", 0, false), Checking("b", true)), log := [PassedB(start + IDLE_TIME)])
    ensures Runs(p, s, [CheckPrune(1), Sweep(1)], Swept(p, start, n))
  {
    hide Crew, Runs;
    var t, held, orphan := start + IDLE_TIME, Fetched("a", 0, false), Fetched("a", 0, true);
    CrewAt(n, held, Checking("b", true));
    CrewUpdates(n, held, Checking("b", true), Sweeping("b", true, t));
    var a := s.(workers := Crew(n, held, Sweeping("b", true, t)));
    assert Apply(p, s, CheckPrune(1)) == a;
    CrewAt(n, held, Sweeping("b", true, t));
    CrewAt(n, orphan, Answered("b", true));
    assert Dropped(a, "a", t) && !Dropped(a, "b", t);
    var swept := Apply(p, a, Sweep(1));
    assert swept.workers == Crew(n, orphan, Answered("b", true));
    assert swept.registry == map["b" := 1];
    assert swept == Swept(p, start, n);
    RunsTwo(p, s, CheckPrune(1), a, Sweep(1), Swept(p, start, n));
  }

  lemma RefetchA(p: Policy, start: real, n: nat)
    requires n >= 2
    ensures Runs(p, Swept(p, start, n), [Return(1), Fetch(1, "a")], Drained(p, start, n, 0))
  {
    hide Crew, Runs;
    var t, orphan := start + IDLE_TIME, Fetched("a", 0, true);
    var s := Swept(p, start, n);
    CrewAt(n, orphan, Answered("b", true));
    CrewUpdates(n, orphan, Answered("b", true), Idle);
    var a := s.(workers := Crew(n, orphan, Idle), passwordChecks := ["b"]);
    assert Apply(p, s, Return(1)) == a;
    CrewAt(n, orphan, Idle);
    CrewUpdates(n, orphan, Idle, Fetched("a", 2, false));
    assert a.registry["a" := 2] == map["a" := 2, "b" := 1];
    assert Apply(p, a, Fetch(1, "a")) == Drained(p, start, n, 0);
    RunsTwo(p, s, Return(1), a, Fetch(1, "a"), Drained(p, start, n, 0));
  }

  /** One more token of the new bucket. */
  lemma DrainOne(p: Policy, start: real, n: nat, k: nat) returns (steps: seq<Step>)
    requires n >= 2 && k < p.capacity
    ensures Runs(p, Drained(p, start, n, k), steps, Drained(p, start, n, k + 1))
  {
    hide Crew, Runs;
    var t, orphan := start + IDLE_TIME, Fetched("a", 0, true);
    var s, s' := Drained(p, start, n, k), Drained(p, start, n, k + 1);
    CrewAt(n, orphan, Fetched("a", 2, false));
    CrewUpdates(n, orphan, Fetched("a", 2, false), Holding("a", 2, false, t));
    var a := s.(workers := Crew(n, orphan, Holding("a", 2, false, t)));
    assert Apply(p, s, Lock(1)) == a;
    CrewAt(n, orphan, Holding("a", 2, false, t));
    CrewUpdates(n, orphan, Holding("a", 2, false, t), Checking("a", true));
    EarnedAtOnce(p, t);
    assert Consume(p, Bucket((p.capacity - k) as real, t), t) == (Bucket((p.capacity - k - 1) as real, t), true);
    var b := s'.(workers := Crew(n, orphan, Checking("a", true)), passwordChecks := s.passwordChecks);
    assert Apply(p, a, Take(1)) == b;
    RunsTwo(p, s, Lock(1), a, Take(1), b);
    CrewAt(n, orphan, Checking("a", true));
    CrewUpdates(n, orphan, Checking("a", true), Answered("a", true));
    var c := b.(workers := Crew(n, orphan, Answered("a", true)));
    assert Apply(p, b, CheckPrune(1)) == c;
    CrewAt(n, orphan, Answered("a", true));
    CrewUpdates(n, orphan, Answered("a", true), Idle);
    var d := s'.(workers := Crew(n, orphan, Idle));
    assert Apply(p, c, Return(1)) == d;
    RunsTwo(p, b, CheckPrune(1), c, Return(1), d);
    CrewAt(n, orphan, Idle);
    CrewUpdates(n, orphan, Idle, Fetched("a", 2, false));
    assert Apply(p, d, Fetch(1, "a")) == s';
    RunsOne(p, d, Fetch(1, "a"), s');
    RunsAppend(p, b, [CheckPrune(1), Return(1)], d, [Fetch(1, "a")], s');
    RunsAppend(p, s, [Lock(1), Take(1)], b, [CheckPrune(1), Return(1)] + [Fetch(1, "a")], s');
    steps := [Lock(1), Take(1)] + ([CheckPrune(1), Return(1)] + [Fetch(1, "a")]);
  }

  lemma {:induction false} DrainAll(p: Policy, start: real, n: nat, k: nat) returns (steps: seq<Step>)
    requires n >= 2 && k <= p.capacity
    ensures Runs(p, Drained(p, start, n, 0), steps, Drained(p, start, n, k))
  {
    if k == 0 {
      steps := [];
    } else {
      hide Runs, Drained;
      var first := DrainAll(p, start, n, k - 1);
      var last := DrainOne(p, start, n, k - 1);
      RunsAppend(p, Drained(p, start, n, 0), first, Drained(p, start, n, k - 1), last, Drained(p, start, n, k));
      steps := first + last;
    }
  }

  /** The token of the dropped bucket, which has been full all the time. */
  lemma OrphanPasses(p: Policy, start: real, n: nat) returns (end: State)
    requires n >= 2 && p.capacity >= 1 && p.rate >= 0.0
    ensures Runs(p, Drained(p, start, n, p.capacity), [Lock(0), Take(0)], end)
    ensures end.log == DrainLog(start + IDLE_TIME, p.capacity) + [Taken("a", start + IDLE_TIME, true, true)]
  {
    hide Crew, Runs, DrainLog, DrainChecks;
    var t := start + IDLE_TIME;
    var s := Drained(p, start, n, p.capacity);
    CrewAt(n, Fetched("a", 0, true), Fetched("a", 2, false));
    CrewUpdates(n, Fetched("a", 0, true), Fetched("a", 2, false), Holding("a", 0, true, t));
    var a := s.(workers := Crew(n, Holding("a", 0, true, t), Fetched("a", 2, false)));
    assert Apply(p, s, Lock(0)) == a;
    CrewAt(n, Holding("a", 0, true, t), Fetched("a", 2, false));
    EarnedNonNegative(p, start, t);
    end := Apply(p, a, Take(0));
    RunsTwo(p, s, Lock(0), a, Take(0), end);
  }

  lemma {:induction false} DrainLogCount(t: real, k: nat)
    ensures AllowedInWindow(DrainLog(t, k), "a", t, t) == k
  {
    hide AllowedInWindow;
    if k == 0 {
      assert "a"[0] != "b"[0];
      WindowSnoc([], PassedB(t), "a", t, t);
      assert [] + [PassedB(t)] == [PassedB(t)];
      NothingPassedCount([], "a", t, t);
    } else {
      DrainLogCount(t, k - 1);
      WindowSnoc(DrainLog(t, k - 1), Taken("a", t, true, false), "a", t, t);
    }
  }

  /** With two workers, one more request than the capacity passes at a single instant: the new bucket gives all its
      tokens, and the bucket dropped while a worker held it gives another. */
  lemma OrphansCanExceedTheBurst(p: Policy, start: real, n: nat) returns (steps: seq<Step>, end: State)
    requires n >= 2 && p.capacity >= 1 && p.rate >= 0.0
    ensures Runs(p, Start(start, n), steps, end)
    ensures AllowedInWindow(end.log, "a", start + IDLE_TIME, start + IDLE_TIME) == p.capacity + 1
  {
    hide Runs, Drained, Swept, Fetched0, DrainLog, AllowedInWindow;
    var t := start + IDLE_TIME;
    ToFetched0(p, start, n);
    var serve, served := ServeB(p, start, n);
    SweepDropsA(p, start, n, served);
    RefetchA(p, start, n);
    var drain := DrainAll(p, start, n, p.capacity);
    end := OrphanPasses(p, start, n);
    RunsAppend(p, Drained(p, start, n, 0), drain, Drained(p, start, n, p.capacity), [Lock(0), Take(0)], end);
    steps := drain + [Lock(0), Take(0)];
    RunsAppend(p, Swept(p, start, n), [Return(1), Fetch(1, "a")], Drained(p, start, n, 0), steps, end);
    steps := [Return(1), Fetch(1, "a")] + steps;
    RunsAppend(p, served, [CheckPrune(1), Sweep(1)], Swept(p, start, n), steps, end);
    steps := [CheckPrune(1), Sweep(1)] + steps;
    RunsAppend(p, Fetched0(p, start, n), serve, served, steps, end);
    steps := serve + steps;
    RunsAppend(p, Start(start, n), [Fetch(0, "a"), Tick(t)], Fetched0(p, start, n), steps, end);
    steps := [Fetch(0, "a"), Tick(t)] + steps;
    DrainLogCount(t, p.capacity);
    WindowSnoc(DrainLog(t, p.capacity), Taken("a", t, true, true), "a", t, t);
  }

  /** The plain cap, exactly: it holds under every interleaving if and only if nothing can pass anyway, nobody works, or
      a single worker does and idle buckets refill before they are forgotten. */
  lemma PlainCapIff(p: Policy, start: real, workerCount: nat)
    requires p.rate >= 0.0 && p.capacity >= 0
    ensures PlainCap(p, start, workerCount)
            <==> p.capacity == 0 || workerCount == 0 || (workerCount == 1 && RL.RefillsWhenStale(p))
  {
    hide Runs, AllowedInWindow, RL.RefillsWhenStale, Earned;
    if p.capacity == 0 || workerCount == 0 || (workerCount == 1 && RL.RefillsWhenStale(p)) {
      FewCannotExceed(p, start, workerCount);
    } else if workerCount == 1 {
      var steps, end, until := LoneWorkerExceeds(p, start);
      assert AllowedInWindow(end.log, "a", start, until) as real > p.capacity as real + Earned(p, start, until);
    } else {
      var steps, end := OrphansCanExceedTheBurst(p, start, workerCount);
      var t := start + IDLE_TIME;
      EarnedAtOnce(p, t);
      assert AllowedInWindow(end.log, "a", t, t) as real > p.capacity as real + Earned(p, t, t);
    }
  }
}
