/** Many workers inside the limiter at once: fetch, lock, take, prune check, sweep, password check.
    Each step is one critical section or one clock reading of is_allowed and of the handler around it. */
module LimiterInterleaving {
  import opened TokenBuckets
  import RL = RateLimiting

  /** A bucket object. Objects keep existing after the registry forgets them. */
  datatype Cell = Cell(ip: string, bucket: Bucket)

  /** Where a worker stands. `orphaned` is set by the sweep that drops the bucket the worker holds. */
  datatype Phase =
    | Idle
    | Fetched(ip: string, id: nat, orphaned: bool)                // before the bucket's lock
    | Holding(ip: string, id: nat, orphaned: bool, reading: real) // lock taken, clock read
    | Checking(ip: string, ok: bool)                              // before the prune check
    | Sweeping(ip: string, ok: bool, reading: real)               // a prune is due
    | Answered(ip: string, ok: bool)                              // is_allowed has returned

  /** One token request served by a bucket. */
  datatype Taken = Taken(ip: string, time: real, ok: bool, orphaned: bool)

  datatype State = State(
    now: real,
    heap: seq<Cell>,
    registry: map<string, nat>,
    lastPrune: real,
    workers: seq<Phase>,
    log: seq<Taken>,
    passwordChecks: seq<string>)

  datatype Step =
    | Tick(time: real)
    | Fetch(worker: nat, client: string)
    | Lock(worker: nat)
    | Take(worker: nat)
    | CheckPrune(worker: nat)
    | Sweep(worker: nat) // at the reading that judges the buckets
    | Return(worker: nat)

  function Start(now: real, workerCount: nat): State {
    State(now, [], map[], now, seq(workerCount, _ => Idle), [], [])
  }

  predicate Locked(s: State, id: nat) {
    exists w :: 0 <= w < |s.workers| && s.workers[w].Holding? && s.workers[w].id == id
  }

  predicate Registered(s: State, ip: string, id: nat) {
    ip in s.registry && s.registry[ip] == id
  }

  predicate Enabled(s: State, step: Step) {
    match step
    case Tick(time) => s.now <= time
    case Fetch(w, _) => w < |s.workers| && s.workers[w].Idle?
    case Lock(w) => w < |s.workers| && s.workers[w].Fetched? && !Locked(s, s.workers[w].id)
    case Take(w) => w < |s.workers| && s.workers[w].Holding? && s.workers[w].id < |s.heap|
    case CheckPrune(w) => w < |s.workers| && s.workers[w].Checking?
    case Sweep(w) => w < |s.workers| && s.workers[w].Sweeping? && forall ip :: ip in s.registry ==> s.registry[ip] < |s.heap|
    case Return(w) => w < |s.workers| && s.workers[w].Answered?
  }

  predicate Dropped(s: State, ip: string, reading: real)
    requires forall ip :: ip in s.registry ==> s.registry[ip] < |s.heap|
  {
    ip in s.registry && RL.Stale(s.heap[s.registry[ip]].bucket, reading)
  }

  /** A worker that holds a bucket becomes orphaned when the sweep drops that bucket. */
  function Orphan(s: State, phase: Phase, reading: real): Phase
    requires forall ip :: ip in s.registry ==> s.registry[ip] < |s.heap|
  {
    if (phase.Fetched? || phase.Holding?) && Dropped(s, phase.ip, reading) && s.registry[phase.ip] == phase.id
    then phase.(orphaned := true)
    else phase
  }

  function Apply(p: Policy, s: State, step: Step): State
    requires Enabled(s, step)
  {
    match step
    case Tick(time) => s.(now := time)
    case Fetch(w, ip) =>
      if ip in s.registry then s.(workers := s.workers[w := Fetched(ip, s.registry[ip], false)])
      else s.(heap := s.heap + [Cell(ip, Full(p, s.now))],
              registry := s.registry[ip := |s.heap|],
              workers := s.workers[w := Fetched(ip, |s.heap|, false)])
    case Lock(w) =>
      var f := s.workers[w];
      s.(workers := s.workers[w := Holding(f.ip, f.id, f.orphaned, s.now)])
    case Take(w) =>
      var h := s.workers[w];
      var (b, ok) := Consume(p, s.heap[h.id].bucket, h.reading);
      s.(heap := s.heap[h.id := s.heap[h.id].(bucket := b)],
         log := s.log + [Taken(h.ip, h.reading, ok, h.orphaned)],
         workers := s.workers[w := Checking(h.ip, ok)])
    case CheckPrune(w) =>
      var c := s.workers[w];
      s.(workers := s.workers[w := if s.now - s.lastPrune < RL.PRUNE_INTERVAL then Answered(c.ip, c.ok)
                                   else Sweeping(c.ip, c.ok, s.now)])
    case Sweep(w) =>
      var c := s.workers[w];
      s.(lastPrune := c.reading,
         registry := map ip | ip in s.registry && !Dropped(s, ip, c.reading) :: s.registry[ip],
         workers := seq(|s.workers|, i requires 0 <= i < |s.workers| =>
           if i == w then Answered(c.ip, c.ok) else Orphan(s, s.workers[i], c.reading)))
    case Return(w) =>
      var c := s.workers[w];
      s.(workers := s.workers[w := Idle],
         passwordChecks := if c.ok then s.passwordChecks + [c.ip] else s.passwordChecks)
  }

  /** Every state some interleaving leads to. */
  predicate Runs(p: Policy, s: State, steps: seq<Step>, end: State)
    decreases |steps|
  {
    if steps == [] then s == end
    else Enabled(s, steps[0]) && Runs(p, Apply(p, s, steps[0]), steps[1..], end)
  }

  // ----- what is counted -----

  predicate Passed(e: Taken, ip: string, since: real, until: real, orphaned: bool) {
    e.ip == ip && e.ok && since <= e.time <= until && e.orphaned == orphaned
  }

  /** Requests of `ip` allowed with a clock reading in a window, through live or orphaned buckets. */
  function Allowed(log: seq<Taken>, ip: string, since: real, until: real, orphaned: bool): nat {
    if log == [] then 0
    else
      var rest := Allowed(log[..|log| - 1], ip, since, until, orphaned);
      if Passed(log[|log| - 1], ip, since, until, orphaned) then rest + 1 else rest
  }

  /** Requests of `ip` that passed through live buckets from `since` on. */
  function Spent(log: seq<Taken>, ip: string, since: real): nat {
    if log == [] then 0
    else
      var last, rest := log[|log| - 1], Spent(log[..|log| - 1], ip, since);
      if Passed(last, ip, since, last.time, false) then rest + 1 else rest
  }

  lemma AllowedSnoc(log: seq<Taken>, e: Taken, ip: string, since: real, until: real, orphaned: bool)
    ensures Allowed(log + [e], ip, since, until, orphaned)
            == Allowed(log, ip, since, until, orphaned) + (if Passed(e, ip, since, until, orphaned) then 1 else 0)
  {
    assert (log + [e])[..|log|] == log;
  }

  lemma SpentSnoc(log: seq<Taken>, e: Taken, ip: string, since: real)
    ensures Spent(log + [e], ip, since)
            == Spent(log, ip, since) + (if Passed(e, ip, since, e.time, false) then 1 else 0)
  {
    assert (log + [e])[..|log|] == log;
  }

  lemma {:induction false} WindowWithinSpent(log: seq<Taken>, ip: string, since: real, until: real)
    ensures Allowed(log, ip, since, until, false) <= Spent(log, ip, since)
    decreases |log|
  {
    if log != [] {
      WindowWithinSpent(log[..|log| - 1], ip, since, until);
    }
  }

  /** All requests of one IP that ever passed. */
  function Admissions(log: seq<Taken>, ip: string): nat {
    if log == [] then 0
    else
      var rest := Admissions(log[..|log| - 1], ip);
      if log[|log| - 1].ip == ip && log[|log| - 1].ok then rest + 1 else rest
  }

  /** Requests of one IP that passed with a clock reading in a window, whatever their bucket. */
  function AllowedInWindow(log: seq<Taken>, ip: string, since: real, until: real): nat {
    if log == [] then 0
    else
      var e, rest := log[|log| - 1], AllowedInWindow(log[..|log| - 1], ip, since, until);
      if e.ip == ip && e.ok && since <= e.time <= until then rest + 1 else rest
  }

  lemma WindowSnoc(log: seq<Taken>, e: Taken, ip: string, since: real, until: real)
    ensures AllowedInWindow(log + [e], ip, since, until)
            == AllowedInWindow(log, ip, since, until) + (if e.ip == ip && e.ok && since <= e.time <= until then 1 else 0)
  {
    assert (log + [e])[..|log|] == log;
  }

  lemma {:induction false} WindowSplit(log: seq<Taken>, ip: string, since: real, until: real)
    ensures AllowedInWindow(log, ip, since, until)
            == Allowed(log, ip, since, until, false) + Allowed(log, ip, since, until, true)
    decreases |log|
  {
    if log != [] {
      WindowSplit(log[..|log| - 1], ip, since, until);
    }
  }

  /** Workers that stand for one IP's requests: passed by the limiter with the password check still to come, asking a
      bucket with a clock reading from before some instant, or holding a bucket that was dropped. */
  datatype Group = WaitingFor(ip: string) | HoldingFrom(ip: string, before: real) | OrphanedWith(ip: string)

  predicate In(phase: Phase, group: Group) {
    match group
    case WaitingFor(ip) => (phase.Checking? || phase.Sweeping? || phase.Answered?) && phase.ok && phase.ip == ip
    case HoldingFrom(ip, before) => phase.Holding? && phase.ip == ip && phase.reading < before
    case OrphanedWith(ip) => (phase.Fetched? || phase.Holding?) && phase.orphaned && phase.ip == ip
  }

  function Members(workers: seq<Phase>, group: Group): nat {
    if workers == [] then 0
    else (if In(workers[0], group) then 1 else 0) + Members(workers[1..], group)
  }

  lemma {:induction false} MembersUpdate(workers: seq<Phase>, w: nat, phase: Phase, group: Group)
    requires w < |workers|
    ensures Members(workers[w := phase], group) + (if In(workers[w], group) then 1 else 0)
            == Members(workers, group) + (if In(phase, group) then 1 else 0)
  {
    if w > 0 {
      MembersUpdate(workers[1..], w - 1, phase, group);
      assert workers[w := phase][1..] == workers[1..][w - 1 := phase];
    } else {
      assert workers[w := phase][1..] == workers[1..];
    }
  }

  lemma {:induction false} MembersSame(workers: seq<Phase>, others: seq<Phase>, group: Group)
    requires |workers| == |others|
    requires forall w :: 0 <= w < |workers| ==> In(workers[w], group) == In(others[w], group)
    ensures Members(workers, group) == Members(others, group)
  {
    if workers != [] {
      MembersSame(workers[1..], others[1..], group);
    }
  }

  lemma {:induction false} NoMembers(workers: seq<Phase>, group: Group)
    requires forall w :: 0 <= w < |workers| ==> !In(workers[w], group)
    ensures Members(workers, group) == 0
  {
    if workers != [] {
      NoMembers(workers[1..], group);
    }
  }

  lemma {:induction false} MembersWithin(workers: seq<Phase>, group: Group)
    ensures Members(workers, group) <= |workers|
  {
    if workers != [] {
      MembersWithin(workers[1..], group);
    }
  }

  lemma {:induction false} OneIsMissing(workers: seq<Phase>, w: nat, group: Group)
    requires w < |workers| && !In(workers[w], group)
    ensures Members(workers, group) < |workers|
    decreases |workers|
  {
    if w > 0 {
      OneIsMissing(workers[1..], w - 1, group);
    } else {
      MembersWithin(workers[1..], group);
    }
  }

  /** Requests of one IP that a state is in the middle of: with a token asked for, or passed and unchecked. */
  function Pending(s: State, ip: string): nat {
    Members(s.workers, WaitingFor(ip)) + Members(s.workers, HoldingFrom(ip, s.now))
  }

  /** No worker stands for two requests. */
  lemma {:induction false} PendingWithin(workers: seq<Phase>, ip: string, before: real)
    ensures Members(workers, WaitingFor(ip)) + Members(workers, HoldingFrom(ip, before)) <= |workers|
  {
    if workers != [] {
      PendingWithin(workers[1..], ip, before);
    }
  }

  function Times(xs: seq<string>, x: string): nat {
    multiset(xs)[x]
  }

  // ----- the invariant -----

  ghost predicate WellFormedWorker(s: State, phase: Phase) {
    && (phase.Fetched? || phase.Holding? ==>
          && phase.id < |s.heap| && s.heap[phase.id].ip == phase.ip
          && (phase.orphaned <==> !Registered(s, phase.ip, phase.id)))
    && (phase.Holding? ==> s.heap[phase.id].bucket.lastRefill <= phase.reading <= s.now)
    && (phase.Sweeping? ==> phase.reading <= s.now)
  }

  ghost predicate OneHolder(v: Phase, w: Phase) {
    !(v.Holding? && w.Holding? && v.id == w.id)
  }

  ghost predicate WellFormed(s: State, start: real) {
    && start <= s.now
    && (forall ip :: ip in s.registry ==> s.registry[ip] < |s.heap| && s.heap[s.registry[ip]].ip == ip)
    && (forall id :: 0 <= id < |s.heap| ==>
          start <= s.heap[id].bucket.lastRefill <= s.now && 0.0 <= s.heap[id].bucket.tokens)
    && (forall w :: 0 <= w < |s.workers| ==> WellFormedWorker(s, s.workers[w]))
    && (forall v, w :: 0 <= v < w < |s.workers| ==> OneHolder(s.workers[v], s.workers[w]))
    && (forall i :: 0 <= i < |s.log| ==> start <= s.log[i].time <= s.now)
  }

  /** What the requests that passed since `since` leave for the future. */
  ghost predicate SinceBound(p: Policy, s: State, ip: string, since: real)
    requires ip in s.registry ==> s.registry[ip] < |s.heap|
  {
    var spent := Spent(s.log, ip, since) as real;
    if ip in s.registry then
      var b := s.heap[s.registry[ip]].bucket;
      if since <= b.lastRefill then spent + b.tokens <= p.capacity as real + Earned(p, since, b.lastRefill)
      else spent == 0.0
    else
      if since <= s.now then spent <= Earned(p, since, s.now) else spent == 0.0
  }

  ghost predicate WindowBound(p: Policy, log: seq<Taken>, ip: string, since: real, until: real) {
    Allowed(log, ip, since, until, false) as real <= p.capacity as real + Earned(p, since, until)
  }

  /** Every password check follows its own admission. */
  ghost predicate ChecksFollow(s: State, ip: string) {
    Times(s.passwordChecks, ip) + Members(s.workers, WaitingFor(ip)) == Admissions(s.log, ip)
  }

  ghost predicate Inv(p: Policy, s: State, start: real) {
    && WellFormed(s, start)
    && (forall ip, since :: SinceBound(p, s, ip, since))
    && (forall ip, since, until :: since <= until ==> WindowBound(p, s.log, ip, since, until))
    && (forall ip :: ChecksFollow(s, ip))
  }

  lemma StartInv(p: Policy, now: real, workerCount: nat)
    requires p.rate >= 0.0 && p.capacity >= 0
    ensures Inv(p, Start(now, workerCount), now)
  {
    var s := Start(now, workerCount);
    forall ip, since ensures SinceBound(p, s, ip, since) {
      if since <= now {
        EarnedNonNegative(p, since, now);
      }
    }
    forall ip, since, until | since <= until ensures WindowBound(p, s.log, ip, since, until) {
      EarnedNonNegative(p, since, until);
    }
    forall ip ensures ChecksFollow(s, ip) {
      NoMembers(s.workers, WaitingFor(ip));
    }
  }

  // ----- every step keeps it: structure -----

  lemma FetchKeepsWellFormed(p: Policy, s: State, start: real, w: nat, ip: string)
    requires p.capacity >= 0 && WellFormed(s, start) && Enabled(s, Fetch(w, ip))
    ensures WellFormed(Apply(p, s, Fetch(w, ip)), start)
  {
    hide Consume;
    var s' := Apply(p, s, Fetch(w, ip));
    forall v | 0 <= v < |s.workers| ensures WellFormedWorker(s', s'.workers[v]) {
      assert WellFormedWorker(s, s.workers[v]);
    }
  }

  lemma LockKeepsWellFormed(p: Policy, s: State, start: real, w: nat)
    requires WellFormed(s, start) && Enabled(s, Lock(w))
    ensures WellFormed(Apply(p, s, Lock(w)), start)
  {
    var s' := Apply(p, s, Lock(w));
    forall v | 0 <= v < |s.workers| ensures WellFormedWorker(s', s'.workers[v]) {
      assert WellFormedWorker(s, s.workers[v]);
    }
    forall u, v | 0 <= u < v < |s.workers| ensures OneHolder(s'.workers[u], s'.workers[v]) {
      assert OneHolder(s.workers[u], s.workers[v]);
      assert !Locked(s, s.workers[w].id);
    }
  }

  lemma TakeKeepsWellFormed(p: Policy, s: State, start: real, w: nat)
    requires p.rate >= 0.0 && p.capacity >= 0 && WellFormed(s, start) && Enabled(s, Take(w))
    ensures WellFormed(Apply(p, s, Take(w)), start)
  {
    var s' := Apply(p, s, Take(w));
    var h := s.workers[w];
    assert WellFormedWorker(s, h);
    EarnedNonNegative(p, s.heap[h.id].bucket.lastRefill, h.reading);
    forall v | 0 <= v < |s.workers| ensures WellFormedWorker(s', s'.workers[v]) {
      if v != w {
        assert WellFormedWorker(s, s.workers[v]);
        assert OneHolder(s.workers[if v < w then v else w], s.workers[if v < w then w else v]);
      }
    }
  }

  lemma SweepKeepsWellFormed(p: Policy, s: State, start: real, w: nat)
    requires WellFormed(s, start) && Enabled(s, Sweep(w))
    ensures WellFormed(Apply(p, s, Sweep(w)), start)
  {
    var s' := Apply(p, s, Sweep(w));
    forall v | 0 <= v < |s.workers| ensures WellFormedWorker(s', s'.workers[v]) {
      assert WellFormedWorker(s, s.workers[v]);
    }
    forall u, v | 0 <= u < v < |s.workers| ensures OneHolder(s'.workers[u], s'.workers[v]) {
      assert OneHolder(s.workers[u], s.workers[v]);
    }
  }

  lemma MoveKeepsWellFormed(p: Policy, s: State, start: real, step: Step)
    requires WellFormed(s, start) && Enabled(s, step) && (step.Tick? || step.CheckPrune? || step.Return?)
    ensures WellFormed(Apply(p, s, step), start)
  {
    var s' := Apply(p, s, step);
    forall v | 0 <= v < |s.workers| ensures WellFormedWorker(s', s'.workers[v]) {
      assert WellFormedWorker(s, s.workers[v]);
    }
    forall u, v | 0 <= u < v < |s.workers| ensures OneHolder(s'.workers[u], s'.workers[v]) {
      assert OneHolder(s.workers[u], s.workers[v]);
    }
  }

  lemma StepKeepsWellFormed(p: Policy, s: State, start: real, step: Step)
    requires p.rate >= 0.0 && p.capacity >= 0 && WellFormed(s, start) && Enabled(s, step)
    ensures WellFormed(Apply(p, s, step), start)
  {
    match step
    case Tick(_) => MoveKeepsWellFormed(p, s, start, step);
    case Fetch(w, ip) => FetchKeepsWellFormed(p, s, start, w, ip);
    case Lock(w) => LockKeepsWellFormed(p, s, start, w);
    case Take(w) => TakeKeepsWellFormed(p, s, start, w);
    case CheckPrune(_) => MoveKeepsWellFormed(p, s, start, step);
    case Sweep(w) => SweepKeepsWellFormed(p, s, start, w);
    case Return(_) => MoveKeepsWellFormed(p, s, start, step);
  }

  // ----- every step keeps it: accounting -----

  lemma TakeSince(p: Policy, s: State, start: real, w: nat, ip: string, since: real)
    requires p.rate >= 0.0 && p.capacity >= 0 && WellFormed(s, start) && Enabled(s, Take(w))
    requires SinceBound(p, s, ip, since)
    ensures WellFormed(Apply(p, s, Take(w)), start) && SinceBound(p, Apply(p, s, Take(w)), ip, since)
  {
    TakeKeepsWellFormed(p, s, start, w);
    var h := s.workers[w];
    assert WellFormedWorker(s, h);
    var b := s.heap[h.id].bucket;
    var (b', ok) := Consume(p, b, h.reading);
    SpentSnoc(s.log, Taken(h.ip, h.reading, ok, h.orphaned), ip, since);
    if h.ip == ip && !h.orphaned && since <= h.reading {
      EarnedAdds(p, since, b.lastRefill, h.reading);
      EarnedNonNegative(p, since, h.reading);
    }
  }

  /** A token taken from a live bucket stays within every window that contains it. */
  lemma TakeWindow(p: Policy, s: State, start: real, w: nat, ip: string, since: real, until: real)
    requires p.rate >= 0.0 && p.capacity >= 0 && WellFormed(s, start) && Enabled(s, Take(w))
    requires since <= until && SinceBound(p, s, ip, since) && WindowBound(p, s.log, ip, since, until)
    ensures WindowBound(p, Apply(p, s, Take(w)).log, ip, since, until)
  {
    var h := s.workers[w];
    assert WellFormedWorker(s, h);
    var (b', ok) := Consume(p, s.heap[h.id].bucket, h.reading);
    var e := Taken(h.ip, h.reading, ok, h.orphaned);
    AllowedSnoc(s.log, e, ip, since, until, false);
    if Passed(e, ip, since, until, false) {
      TakeSince(p, s, start, w, ip, since);
      WindowWithinSpent(s.log + [e], ip, since, until);
      EarnedAdds(p, since, h.reading, until);
      EarnedNonNegative(p, h.reading, until);
    }
  }

  lemma TakeChecks(p: Policy, s: State, w: nat, ip: string)
    requires Enabled(s, Take(w)) && ChecksFollow(s, ip)
    ensures ChecksFollow(Apply(p, s, Take(w)), ip)
  {
    var h := s.workers[w];
    var ok := Consume(p, s.heap[h.id].bucket, h.reading).1;
    var e := Taken(h.ip, h.reading, ok, h.orphaned);
    MembersUpdate(s.workers, w, Checking(h.ip, ok), WaitingFor(ip));
    assert (s.log + [e])[..|s.log|] == s.log;
  }

  lemma TickSince(p: Policy, s: State, start: real, time: real, ip: string, since: real)
    requires p.rate >= 0.0 && WellFormed(s, start) && s.now <= time && SinceBound(p, s, ip, since)
    ensures SinceBound(p, s.(now := time), ip, since)
  {
    if since <= s.now {
      EarnedAdds(p, since, s.now, time);
      EarnedNonNegative(p, s.now, time);
    } else if since <= time {
      EarnedNonNegative(p, since, time);
    }
  }

  lemma FetchSince(p: Policy, s: State, start: real, w: nat, client: string, ip: string, since: real)
    requires WellFormed(s, start) && Enabled(s, Fetch(w, client)) && SinceBound(p, s, ip, since)
    requires p.capacity >= 0
    ensures WellFormed(Apply(p, s, Fetch(w, client)), start)
    ensures SinceBound(p, Apply(p, s, Fetch(w, client)), ip, since)
  {
    FetchKeepsWellFormed(p, s, start, w, client);
  }

  /** What a sweep drops was full anyway. */
  lemma SweepSince(p: Policy, s: State, start: real, w: nat, ip: string, since: real)
    requires RL.RefillsWhenStale(p) && p.capacity >= 0 && WellFormed(s, start) && Enabled(s, Sweep(w))
    requires SinceBound(p, s, ip, since)
    ensures WellFormed(Apply(p, s, Sweep(w)), start) && SinceBound(p, Apply(p, s, Sweep(w)), ip, since)
  {
    SweepKeepsWellFormed(p, s, start, w);
    var reading := s.workers[w].reading;
    assert WellFormedWorker(s, s.workers[w]);
    if Dropped(s, ip, reading) {
      var b := s.heap[s.registry[ip]].bucket;
      RL.StaleIsFull(p, b, reading);
      EarnedAdds(p, b.lastRefill, reading, s.now);
      EarnedNonNegative(p, reading, s.now);
      if since <= b.lastRefill {
        EarnedAdds(p, since, b.lastRefill, s.now);
      } else if since <= s.now {
        EarnedNonNegative(p, since, s.now);
      }
    }
  }

  lemma StepSince(p: Policy, s: State, start: real, step: Step, ip: string, since: real)
    requires RL.RefillsWhenStale(p) && p.capacity >= 0 && WellFormed(s, start) && Enabled(s, step)
    requires SinceBound(p, s, ip, since)
    ensures WellFormed(Apply(p, s, step), start) && SinceBound(p, Apply(p, s, step), ip, since)
  {
    StepKeepsWellFormed(p, s, start, step);
    match step
    case Tick(time) => TickSince(p, s, start, time, ip, since);
    case Fetch(w, client) => FetchSince(p, s, start, w, client, ip, since);
    case Take(w) => TakeSince(p, s, start, w, ip, since);
    case Sweep(w) => SweepSince(p, s, start, w, ip, since);
    case _ =>
  }

  lemma StepChecks(p: Policy, s: State, step: Step, ip: string)
    requires Enabled(s, step) && ChecksFollow(s, ip)
    ensures ChecksFollow(Apply(p, s, step), ip)
  {
    hide Consume, Admissions, Members;
    var s' := Apply(p, s, step);
    match step
    case Tick(_) =>
    case Take(w) => TakeChecks(p, s, w, ip);
    case Sweep(w) =>
      MembersSame(s.workers, s'.workers, WaitingFor(ip));
    case Fetch(w, _) => MembersUpdate(s.workers, w, s'.workers[w], WaitingFor(ip));
    case Lock(w) => MembersUpdate(s.workers, w, s'.workers[w], WaitingFor(ip));
    case CheckPrune(w) => MembersUpdate(s.workers, w, s'.workers[w], WaitingFor(ip));
    case Return(w) => MembersUpdate(s.workers, w, s'.workers[w], WaitingFor(ip));
  }

  lemma StepInv(p: Policy, s: State, start: real, step: Step)
    requires RL.RefillsWhenStale(p) && p.capacity >= 0 && Inv(p, s, start) && Enabled(s, step)
    ensures Inv(p, Apply(p, s, step), start)
  {
    var s' := Apply(p, s, step);
    StepKeepsWellFormed(p, s, start, step);
    forall ip, since ensures SinceBound(p, s', ip, since) {
      assert SinceBound(p, s, ip, since);
      StepSince(p, s, start, step, ip, since);
    }
    forall ip, since, until | since <= until ensures WindowBound(p, s'.log, ip, since, until) {
      assert SinceBound(p, s, ip, since) && WindowBound(p, s.log, ip, since, until);
      if step.Take? {
        TakeWindow(p, s, start, step.worker, ip, since, until);
      }
    }
    forall ip ensures ChecksFollow(s', ip) {
      assert ChecksFollow(s, ip);
      StepChecks(p, s, step, ip);
    }
  }

  lemma {:induction false} RunInv(p: Policy, s: State, start: real, steps: seq<Step>, end: State)
    requires RL.RefillsWhenStale(p) && p.capacity >= 0 && Inv(p, s, start) && Runs(p, s, steps, end)
    ensures Inv(p, end, start)
    decreases |steps|
  {
    if steps != [] {
      StepInv(p, s, start, steps[0]);
      RunInv(p, Apply(p, s, steps[0]), start, steps[1..], end);
    }
  }

  lemma {:induction false} RunsAppend(p: Policy, s: State, a: seq<Step>, mid: State, b: seq<Step>, end: State)
    requires Runs(p, s, a, mid) && Runs(p, mid, b, end)
    ensures Runs(p, s, a + b, end)
    decreases |a|
  {
    if a == [] {
      assert a + b == b;
    } else {
      assert (a + b)[1..] == a[1..] + b;
      RunsAppend(p, Apply(p, s, a[0]), a[1..], mid, b, end);
    }
  }

  lemma RunsOne(p: Policy, s: State, x: Step, end: State)
    requires Enabled(s, x) && Apply(p, s, x) == end
    ensures Runs(p, s, [x], end)
  {
    assert [x][1..] == [];
    assert Runs(p, end, [], end);
  }

  lemma RunsTwo(p: Policy, s: State, x: Step, a: State, y: Step, end: State)
    requires Enabled(s, x) && Apply(p, s, x) == a && Enabled(a, y) && Apply(p, a, y) == end
    ensures Runs(p, s, [x, y], end)
  {
    assert [x, y][1..] == [y] && [y][1..] == [];
    assert Runs(p, end, [], end);
    assert Runs(p, a, [y], end);
  }

  // ----- main results -----

  /** Under every interleaving, a window lets through at most capacity + rate * length requests of one
      IP, plus those whose bucket a sweep judged stale between their fetch and their token. */
  lemma WindowCap(p: Policy, start: real, workerCount: nat, steps: seq<Step>, end: State,
                  ip: string, since: real, until: real)
    requires RL.RefillsWhenStale(p) && p.capacity >= 0 && since <= until
    requires Runs(p, Start(start, workerCount), steps, end)
    ensures AllowedInWindow(end.log, ip, since, until) as real
            <= p.capacity as real + Earned(p, since, until) + Allowed(end.log, ip, since, until, true) as real
  {
    StartInv(p, start, workerCount);
    RunInv(p, Start(start, workerCount), start, steps, end);
    WindowSplit(end.log, ip, since, until);
    assert WindowBound(p, end.log, ip, since, until);
  }

  // ----- how many pass through dropped buckets -----

  function OrphanPasses(log: seq<Taken>, ip: string): nat {
    if log == [] then 0
    else
      var e, rest := log[|log| - 1], OrphanPasses(log[..|log| - 1], ip);
      if e.ip == ip && e.ok && e.orphaned then rest + 1 else rest
  }

  lemma {:induction false} AllowedWithinOrphans(log: seq<Taken>, ip: string, since: real, until: real)
    ensures Allowed(log, ip, since, until, true) <= OrphanPasses(log, ip)
    decreases |log|
  {
    if log != [] {
      AllowedWithinOrphans(log[..|log| - 1], ip, since, until);
    }
  }

  /** Passes through dropped buckets, so far and still possible. */
  function OrphansIn(s: State, ip: string): nat {
    OrphanPasses(s.log, ip) + Members(s.workers, OrphanedWith(ip))
  }

  function Sweeps(steps: seq<Step>): nat {
    if steps == [] then 0 else (if steps[0].Sweep? then 1 else 0) + Sweeps(steps[1..])
  }

  lemma TakeOrphans(p: Policy, s: State, w: nat, ip: string)
    requires Enabled(s, Take(w))
    ensures OrphansIn(Apply(p, s, Take(w)), ip) <= OrphansIn(s, ip)
  {
    hide Consume, Members;
    var s' := Apply(p, s, Take(w));
    assert s'.log[..|s.log|] == s.log;
    MembersUpdate(s.workers, w, s'.workers[w], OrphanedWith(ip));
  }

  lemma SweepOrphans(p: Policy, s: State, w: nat, ip: string)
    requires Enabled(s, Sweep(w))
    ensures OrphansIn(Apply(p, s, Sweep(w)), ip) <= OrphansIn(s, ip) + |s.workers| - 1
  {
    hide Members, OrphanPasses, Orphan, Dropped;
    OneIsMissing(Apply(p, s, Sweep(w)).workers, w, OrphanedWith(ip));
  }

  /** Only a sweep makes orphans, and not of its own worker. */
  lemma StepOrphans(p: Policy, s: State, step: Step, ip: string)
    requires Enabled(s, step)
    ensures OrphansIn(Apply(p, s, step), ip) <= OrphansIn(s, ip) + (if step.Sweep? then |s.workers| - 1 else 0)
    ensures |Apply(p, s, step).workers| == |s.workers|
  {
    hide Consume, Members, OrphanPasses, Orphan, Dropped;
    var s', g := Apply(p, s, step), OrphanedWith(ip);
    match step
    case Tick(_) =>
    case Take(w) => TakeOrphans(p, s, w, ip);
    case Sweep(w) => SweepOrphans(p, s, w, ip);
    case Fetch(w, _) => MembersUpdate(s.workers, w, s'.workers[w], g);
    case Lock(w) => MembersUpdate(s.workers, w, s'.workers[w], g);
    case CheckPrune(w) => MembersUpdate(s.workers, w, s'.workers[w], g);
    case Return(w) => MembersUpdate(s.workers, w, s'.workers[w], g);
  }

  lemma {:induction false} RunOrphans(p: Policy, s: State, steps: seq<Step>, end: State, ip: string)
    requires Runs(p, s, steps, end) && |s.workers| >= 1
    ensures OrphansIn(end, ip) <= OrphansIn(s, ip) + (|s.workers| - 1) * Sweeps(steps)
    decreases |steps|
  {
    hide OrphansIn, Enabled, Apply;
    if steps != [] {
      var next := Apply(p, s, steps[0]);
      StepOrphans(p, s, steps[0], ip);
      RunOrphans(p, next, steps[1..], end, ip);
      var most, rest := |s.workers| - 1, Sweeps(steps[1..]);
      assert most * (rest + 1) == most * rest + most;
    }
  }

  /** The cap in numbers known from the run's steps: each sweep can let through one request more for every worker but
      the one that sweeps. */
  lemma WindowCapBySweeps(p: Policy, start: real, workerCount: nat, steps: seq<Step>, end: State,
                          ip: string, since: real, until: real)
    requires RL.RefillsWhenStale(p) && p.capacity >= 0 && since <= until && workerCount >= 1
    requires Runs(p, Start(start, workerCount), steps, end)
    ensures AllowedInWindow(end.log, ip, since, until) as real
            <= p.capacity as real + Earned(p, since, until) + ((workerCount - 1) * Sweeps(steps)) as real
  {
    hide Runs, Sweeps, Earned, AllowedInWindow, Allowed;
    var s := Start(start, workerCount);
    NoMembers(s.workers, OrphanedWith(ip));
    RunOrphans(p, s, steps, end, ip);
    AllowedWithinOrphans(end.log, ip, since, until);
    WindowCap(p, start, workerCount, steps, end, ip, since, until);
  }

  // ----- password checks -----

  /** Requests of one IP that passed with a clock reading from before some instant. */
  function EarlyPasses(log: seq<Taken>, ip: string, before: real): nat {
    if log == [] then 0
    else
      var e, rest := log[|log| - 1], EarlyPasses(log[..|log| - 1], ip, before);
      if e.ip == ip && e.ok && e.time < before then rest + 1 else rest
  }

  lemma {:induction false} AdmissionsByTime(log: seq<Taken>, ip: string, since: real, until: real)
    requires forall i :: 0 <= i < |log| ==> log[i].time <= until
    ensures Admissions(log, ip) == EarlyPasses(log, ip, since) + AllowedInWindow(log, ip, since, until)
    decreases |log|
  {
    if log != [] {
      AdmissionsByTime(log[..|log| - 1], ip, since, until);
    }
  }

  /** Passes with an early reading, so far and still possible. */
  function EarlyOrHolding(s: State, ip: string, before: real): nat {
    EarlyPasses(s.log, ip, before) + Members(s.workers, HoldingFrom(ip, before))
  }

  /** Once the instant is over nobody starts on a reading from before it. */
  lemma StepEarly(p: Policy, s: State, step: Step, ip: string, before: real)
    requires Enabled(s, step) && before <= s.now
    ensures EarlyOrHolding(Apply(p, s, step), ip, before) <= EarlyOrHolding(s, ip, before)
    ensures before <= Apply(p, s, step).now && |Apply(p, s, step).workers| == |s.workers|
  {
    hide Consume, Members;
    var s', g := Apply(p, s, step), HoldingFrom(ip, before);
    match step
    case Tick(_) =>
    case Take(w) =>
      assert s'.log[..|s.log|] == s.log;
      MembersUpdate(s.workers, w, s'.workers[w], g);
    case Sweep(w) =>
      MembersSame(s.workers, s'.workers, g);
    case Fetch(w, _) => MembersUpdate(s.workers, w, s'.workers[w], g);
    case Lock(w) => MembersUpdate(s.workers, w, s'.workers[w], g);
    case CheckPrune(w) => MembersUpdate(s.workers, w, s'.workers[w], g);
    case Return(w) => MembersUpdate(s.workers, w, s'.workers[w], g);
  }

  lemma {:induction false} RunEarly(p: Policy, s: State, steps: seq<Step>, end: State, ip: string, before: real)
    requires Runs(p, s, steps, end) && before <= s.now
    ensures EarlyOrHolding(end, ip, before) <= EarlyOrHolding(s, ip, before)
    ensures before <= end.now && |end.workers| == |s.workers|
    decreases |steps|
  {
    hide EarlyOrHolding, Enabled, Apply;
    if steps != [] {
      StepEarly(p, s, steps[0], ip, before);
      RunEarly(p, Apply(p, s, steps[0]), steps[1..], end, ip, before);
    }
  }

  lemma StartIsIdle(p: Policy, start: real, workerCount: nat, mid: State, ip: string)
    requires Runs(p, Start(start, workerCount), [], mid)
    ensures Pending(mid, ip) == 0
  {
    NoMembers(mid.workers, WaitingFor(ip));
    NoMembers(mid.workers, HoldingFrom(ip, mid.now));
  }

  lemma RunInvChecks(p: Policy, start: real, workerCount: nat, steps: seq<Step>, end: State, ip: string)
    requires RL.RefillsWhenStale(p) && p.capacity >= 0 && Runs(p, Start(start, workerCount), steps, end)
    ensures ChecksFollow(end, ip) && forall i :: 0 <= i < |end.log| ==> end.log[i].time <= end.now
  {
    StartInv(p, start, workerCount);
    RunInv(p, Start(start, workerCount), start, steps, end);
  }

  /** The limiter stands before the password check, so a cap holds for password checks too: over any stretch of a
      run, what the bucket can pass in that time, the passes through dropped buckets, and the requests the workers
      were in the middle of when it began, which are no more than there are workers, and none at the start. */
  lemma PasswordCheckCap(p: Policy, start: real, workerCount: nat, first: seq<Step>, mid: State,
                         second: seq<Step>, end: State, ip: string)
    requires RL.RefillsWhenStale(p) && p.capacity >= 0
    requires Runs(p, Start(start, workerCount), first, mid) && Runs(p, mid, second, end)
    ensures Times(end.passwordChecks, ip) as real - Times(mid.passwordChecks, ip) as real
            <= p.capacity as real + Earned(p, mid.now, end.now) + Allowed(end.log, ip, mid.now, end.now, true) as real
               + Pending(mid, ip) as real
    ensures Pending(mid, ip) <= workerCount && (first == [] ==> Pending(mid, ip) == 0)
  {
    hide Runs, Inv, Members, Allowed, Admissions, EarlyPasses, AllowedInWindow, Times, Earned;
    RunsAppend(p, Start(start, workerCount), first, mid, second, end);
    RunInvChecks(p, start, workerCount, first, mid, ip);
    RunInvChecks(p, start, workerCount, first + second, end, ip);
    RunEarly(p, Start(start, workerCount), first, mid, ip, start);
    RunEarly(p, mid, second, end, ip, mid.now);
    AdmissionsByTime(mid.log, ip, mid.now, mid.now);
    AdmissionsByTime(end.log, ip, mid.now, end.now);
    WindowCap(p, start, workerCount, first + second, end, ip, mid.now, end.now);
    PendingWithin(mid.workers, ip, mid.now);
    if first == [] {
      StartIsIdle(p, start, workerCount, mid, ip);
    }
  }
}
