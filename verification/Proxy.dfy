/** Many handlers at once over the shared counters and the shared cache. Each step of a handler is one
    statement that touches shared state or that the outside world decides. */
module Proxy {
  import opened Options
  import opened LruCache
  import opened Metering
  import RR = ResponseRelay

  /** What is shared by all handlers and never changes. */
  datatype Setup = Setup(cache: Config, limit: nat)

  datatype Verdict = Pending | RateLimited | AuthFailed | Blocked | Allowed

  /** How the stream from the origin ended. */
  datatype Ending = Open | Cut | Whole

  datatype Phase =
    | Receiving
    | Send400
    | Counting
    | Limiting
    | CountLimited
    | Send429
    | Authenticating
    | Send407
    | Filtering
    | CountBlocked
    | Send403
    | CountAllowed
    | ConnectTunnel
    | Send200
    | Tunnelling
    | LookingUp
    | CountCached(entry: Entry)
    | Replaying(entry: Entry)
    | ConnectOrigin
    | SendRequest
    | Streaming(progress: RR.Progress)
    | Storing(entry: Entry)
    | Logging
    | Send502
    | Erring
    | Done

  /** What the outside world answers to the statement a handler is at. */
  datatype Answer =
    | Ok | Fail | Raise          // a call returns, raises OSError, or raises anything else
    | Yes | No                   // a decision
    | EmptyRead | Malformed | Request(key: Key)
    | Turn(turn: RR.Turn)

  /** One connection: where its handler stands, and what it has done so far. */
  datatype Conn = Conn(
    phase: Phase,
    key: Key,                 // method, host, port and path, once parsed
    counted: bool,            // in the total
    answers: seq<Answer>,     // of the limiter, the password check and the blocklist, as far as they were asked
    verdict: Verdict,
    cacheCounted: bool,
    errors: nat,
    received: string,         // bytes the origin delivered to this handler
    relayed: string,          // bytes this handler passed on to its client
    ending: Ending,
    stored: Option<Entry>,    // what it put in the cache
    hit: Option<Entry>,       // what its lookup found...
    hitAt: real,              // ...and when
    replayed: Option<string>) // cached bytes sent to its client

  datatype State = State(now: real, cache: Cache, metrics: Metrics, conns: seq<Conn>)

  datatype Event = Clock(now: real) | Accept | Step(conn: nat, answer: Answer)

  const NO_KEY := Key("", "", 0, "")

  function NewConn(): Conn {
    Conn(Receiving, NO_KEY, false, [], Pending, false, 0, "", "", Open, None, None, 0.0, None)
  }

  function Start(now: real): State {
    State(now, EMPTY, Metrics(0, 0, 0, 0, 0, 0), [])
  }

  /** After the verdict: tunnel, look in the cache, or go to the origin. */
  function Dispatch(verb: string): Phase {
    if verb == "CONNECT" then ConnectTunnel else if verb == "GET" then LookingUp else ConnectOrigin
  }

  /** Leaving the streaming loop: the timestamp is read before the cache is locked. */
  function FinishStream(c: Conn, progress: RR.Progress, now: real): Conn {
    match RR.StoreOf(progress)
    case None => c.(phase := Logging)
    case Some(x) => c.(phase := Storing(Entry(x.response, Some(x.size), Some(now))))
  }

  function TakeTurn(setup: Setup, c: Conn, progress: RR.Progress, turn: RR.Turn, now: real): Conn {
    match turn
    case Relayed(data) =>
      c.(phase := Streaming(RR.Advance(progress, data, setup.limit)), received := c.received + data, relayed := c.relayed + data)
    case SendFailed(data) => FinishStream(c.(received := c.received + data, ending := Cut), progress, now)
    case RecvFailed => FinishStream(c.(ending := Cut), progress, now)
    case EndOfStream => FinishStream(c.(ending := Whole), progress, now)
  }

  predicate Passes(answer: Answer) {
    answer == Ok || answer == Yes
  }

  function On(answer: Answer, ok: Phase, fail: Phase): Phase {
    if Passes(answer) then ok else fail
  }

  /** Phases before the request is in the total. */
  predicate Early(p: Phase) {
    p.Receiving? || p.Send400? || p.Counting?
  }

  /** Phases between the total and a verdict. */
  predicate Deciding(p: Phase) {
    p.Limiting? || p.CountLimited? || p.Authenticating? || p.Filtering? || p.CountBlocked? || p.CountAllowed?
  }

  /** The statements up to the decision to serve the request. */
  function Decide(m: Metrics, c: Conn, answer: Answer): (Conn, Metrics)
    requires Early(c.phase) || Deciding(c.phase)
  {
    match c.phase
    case Receiving =>
      if answer == EmptyRead then (c.(phase := Done), m)
      else if answer.Request? then (c.(phase := Counting, key := answer.key), m)
      else (c.(phase := Send400), m)
    case Send400 => (c.(phase := Erring), m)
    case Counting => (c.(phase := Limiting, counted := true), m.(total := m.total + 1))
    case Limiting => (c.(phase := On(answer, Authenticating, CountLimited), answers := c.answers + [answer]), m)
    case CountLimited => (c.(phase := Send429, verdict := RateLimited), m.(rateLimited := m.rateLimited + 1))
    case Authenticating =>
      if Passes(answer) then (c.(phase := Filtering, answers := c.answers + [answer]), m)
      else (c.(phase := Send407, verdict := AuthFailed, answers := c.answers + [answer]), m)
    case Filtering => (c.(phase := On(answer, CountBlocked, CountAllowed), answers := c.answers + [answer]), m)
    case CountBlocked => (c.(phase := Send403, verdict := Blocked), m.(blocked := m.blocked + 1))
    case CountAllowed => (c.(phase := Dispatch(c.key.verb), verdict := Allowed), m.(allowed := m.allowed + 1))
  }

  /** Where a handler goes from the other phases. */
  function Next(verb: string, phase: Phase, answer: Answer): Phase {
    match phase
    case Send429 => On(answer, Done, Erring)
    case Send407 => On(answer, Done, Erring)
    case Send403 => On(answer, Done, Erring)
    case ConnectTunnel => On(answer, Send200, Send502)
    case Send200 => On(answer, Tunnelling, Send502)
    case Tunnelling => On(answer, Done, Send502)
    case Replaying(_) => Done
    case ConnectOrigin => On(answer, SendRequest, Send502)
    case SendRequest => On(answer, Streaming(RR.Begin(verb)), Send502)
    case Send502 => Erring
    case Logging => Done
    case _ => phase
  }

  /** The statements after it that touch neither the cache nor the counters. */
  function Serve(setup: Setup, now: real, c: Conn, answer: Answer): Conn {
    if c.phase.Streaming? && answer.Turn? then TakeTurn(setup, c, c.phase.progress, answer.turn, now)
    else if c.phase.Replaying? && answer == Ok then c.(phase := Done, replayed := Some(c.phase.entry.response))
    else c.(phase := Next(c.key.verb, c.phase, answer))
  }

  /** One statement of one handler. */
  function Move(setup: Setup, s: State, c: Conn, answer: Answer): (Conn, Cache, Metrics) {
    var m := s.metrics;
    if c.phase == Done then (c, s.cache, m)
    else if c.phase == Erring then (c.(phase := Done, errors := c.errors + 1), s.cache, m.(errors := m.errors + 1))
    else if answer == Raise then (c.(phase := Erring), s.cache, m)
    else if Early(c.phase) || Deciding(c.phase) then
      var (c', m') := Decide(m, c, answer);
      (c', s.cache, m')
    else
      match c.phase
      case LookingUp =>
        var (cache, found) := Get(setup.cache, s.cache, c.key, s.now);
        (if found.Some? then c.(phase := CountCached(found.value), hit := found, hitAt := s.now)
         else c.(phase := ConnectOrigin), cache, m)
      case CountCached(e) =>
        (c.(phase := Replaying(e), cacheCounted := true), s.cache, m.(cached := m.cached + 1))
      case Storing(e) => (c.(phase := Logging, stored := Some(e)), Put(setup.cache, s.cache, c.key, e, s.now), m)
      case _ => (Serve(setup, s.now, c, answer), s.cache, m)
  }

  function Apply(setup: Setup, s: State, event: Event): State {
    match event
    case Clock(now) => s.(now := now)
    case Accept => s.(conns := s.conns + [NewConn()])
    case Step(i, answer) =>
      if i >= |s.conns| then s
      else
        var (c, cache, m) := Move(setup, s, s.conns[i], answer);
        State(s.now, cache, m, s.conns[i := c])
  }

  function Run(setup: Setup, s: State, events: seq<Event>): State {
    if events == [] then s else Apply(setup, Run(setup, s, events[..|events| - 1]), events[|events| - 1])
  }

  // ----- counting connections -----

  datatype Trait = InTotal | WasLimited | WasUnauthenticated | WasBlocked | WasAllowed | WasCached | HasErred | Undecided

  predicate Has(c: Conn, t: Trait) {
    match t
    case InTotal => c.counted
    case WasLimited => c.verdict == RateLimited
    case WasUnauthenticated => c.verdict == AuthFailed
    case WasBlocked => c.verdict == Blocked
    case WasAllowed => c.verdict == Allowed
    case WasCached => c.cacheCounted
    case HasErred => c.errors > 0
    case Undecided => c.counted && c.verdict == Pending
  }

  function Weight(c: Conn, t: Trait): nat {
    if Has(c, t) then 1 else 0
  }

  function Count(conns: seq<Conn>, t: Trait): nat {
    if conns == [] then 0 else Weight(conns[0], t) + Count(conns[1..], t)
  }

  lemma {:induction false} CountUpdate(conns: seq<Conn>, i: nat, c: Conn, t: Trait)
    requires i < |conns|
    ensures Count(conns[i := c], t) + Weight(conns[i], t) == Count(conns, t) + Weight(c, t)
  {
    if i == 0 {
      assert conns[i := c][1..] == conns[1..];
    } else {
      assert conns[i := c][1..] == conns[1..][i - 1 := c];
      CountUpdate(conns[1..], i - 1, c, t);
    }
  }

  lemma {:induction false} CountAppend(conns: seq<Conn>, c: Conn, t: Trait)
    ensures Count(conns + [c], t) == Count(conns, t) + Weight(c, t)
  {
    if conns == [] {
      assert [c][1..] == [];
      assert conns + [c] == [c];
    } else {
      assert (conns + [c])[1..] == conns[1..] + [c];
      CountAppend(conns[1..], c, t);
    }
  }

  // ----- invariants -----

  /** Phases of a request that was let through. */
  predicate Serving(p: Phase) {
    !Early(p) && !Deciding(p) && !p.Send429? && !p.Send407? && !p.Send403? && !p.Erring? && !p.Done?
  }

  /** Its part in the counters. */
  ghost predicate Accounted(c: Conn) {
    && c.errors <= 1 && (c.errors == 1 ==> c.phase == Done)
    && (c.verdict != Pending ==> c.counted)
    && (Early(c.phase) ==> !c.counted)
    && (Deciding(c.phase) ==> c.counted && c.verdict == Pending)
    && (c.phase == Done && c.counted && c.verdict == Pending ==> c.errors == 1)
    && (c.phase == Send429 ==> c.verdict == RateLimited)
    && (c.phase == Send407 ==> c.verdict == AuthFailed)
    && (c.phase == Send403 ==> c.verdict == Blocked)
    && (Serving(c.phase) ==> c.verdict == Allowed)
    && (c.cacheCounted ==> c.verdict == Allowed && (c.phase.Replaying? || c.phase.Erring? || c.phase.Done?))
  }

  /** What it took from the cache. */
  ghost predicate Replayed(c: Conn) {
    && (c.phase.LookingUp? ==> c.key.verb == "GET")
    && (c.hit.Some? ==> (c.phase.CountCached? || c.phase.Replaying? || c.phase.Erring? || c.phase.Done?) && c.stored.None?)
    && (c.phase.CountCached? || c.phase.Replaying? ==> c.hit == Some(c.phase.entry))
    && (c.replayed.Some? ==> c.hit.Some? && c.hit.value.response == c.replayed.value && c.phase == Done)
  }

  /** Phases before the first byte from the origin. */
  predicate BeforeStream(p: Phase) {
    Early(p) || Deciding(p) || p.LookingUp? || p.CountCached? || p.Replaying? || p.ConnectOrigin? || p.SendRequest?
  }

  /** While a response is still cacheable, what is kept is all that was relayed, within the limit. */
  ghost predicate Kept(setup: Setup, verb: string, p: RR.Progress, relayed: string) {
    p.cacheable ==> verb == "GET" && RR.Flatten(p.kept) == relayed && p.total == |relayed| <= setup.limit
  }

  ghost predicate Storable(setup: Setup, c: Conn, e: Entry) {
    && c.key.verb == "GET" && e.response == c.relayed && e.size == Some(|c.relayed|) && |c.relayed| <= setup.limit
    && e.timestamp.Some? && c.ending != Open
  }

  /** What it streamed, and what it put in the cache. */
  ghost predicate Streamed(setup: Setup, c: Conn) {
    && c.relayed <= c.received
    && (c.ending == Whole || c.phase.Streaming? ==> c.received == c.relayed)
    && (BeforeStream(c.phase) ==> c.received == c.relayed == "" && c.ending == Open && c.stored.None?)
    && (c.phase.Streaming? ==> c.stored.None? && Kept(setup, c.key.verb, c.phase.progress, c.relayed))
    && (c.phase.Storing? ==> c.stored.None? && Storable(setup, c, c.phase.entry))
    && (c.stored.Some? ==> (c.phase.Logging? || c.phase.Erring? || c.phase.Done?) && Storable(setup, c, c.stored.value))
  }

  /** What each connection's record says about its past. */
  ghost predicate Local(setup: Setup, c: Conn) {
    Accounted(c) && Replayed(c) && Streamed(setup, c)
  }

  /** The limiter and the password check said yes, in this order, and then the blocklist said no. */
  predicate Cleared(answers: seq<Answer>) {
    |answers| == 3 && Passes(answers[0]) && Passes(answers[1]) && !Passes(answers[2])
  }

  /** Bytes went through it, or it used the cache. */
  predicate Touched(c: Conn) {
    c.received != "" || c.relayed != "" || c.stored.Some? || c.hit.Some? || c.replayed.Some?
  }

  /** What it was asked before anything was done for it. */
  ghost predicate Screened(c: Conn) {
    && (Early(c.phase) || c.phase.Limiting? ==> c.answers == [])
    && (c.phase.Authenticating? ==> |c.answers| == 1 && Passes(c.answers[0]))
    && (c.phase.Filtering? ==> |c.answers| == 2 && Passes(c.answers[0]) && Passes(c.answers[1]))
    && (c.phase.CountAllowed? || c.verdict == Allowed ==> Cleared(c.answers))
    && (Touched(c) ==> c.verdict == Allowed)
  }

  /** Connection `j` relayed and stored exactly this entry under this key. */
  ghost predicate StoredBy(setup: Setup, s: State, k: Key, e: Entry, j: nat) {
    j < |s.conns| && s.conns[j].key == k && s.conns[j].stored == Some(e)
  }

  ghost predicate Backed(setup: Setup, s: State, k: Key, e: Entry) {
    exists j: nat :: StoredBy(setup, s, k, e, j)
  }

  ghost predicate CacheBacked(setup: Setup, s: State) {
    && WellFormed(s.cache) && |s.cache.order| <= setup.cache.capacity
    && forall k :: k in s.cache.entries ==> Backed(setup, s, k, s.cache.entries[k])
  }

  ghost predicate HitsBacked(setup: Setup, s: State) {
    forall i :: 0 <= i < |s.conns| && s.conns[i].hit.Some? ==>
      && Backed(setup, s, s.conns[i].key, s.conns[i].hit.value)
      && s.conns[i].hitAt - s.conns[i].hit.value.Timestamp() <= setup.cache.ttl
      && s.conns[i].key.verb == "GET"
  }

  ghost predicate Metered(s: State) {
    && s.metrics.total == Count(s.conns, InTotal)
    && s.metrics.rateLimited == Count(s.conns, WasLimited)
    && s.metrics.blocked == Count(s.conns, WasBlocked)
    && s.metrics.allowed == Count(s.conns, WasAllowed)
    && s.metrics.cached == Count(s.conns, WasCached)
    && s.metrics.errors == Count(s.conns, HasErred)
  }

  ghost predicate AllLocal(setup: Setup, s: State) {
    forall i :: 0 <= i < |s.conns| ==> Local(setup, s.conns[i])
  }

  ghost predicate AllScreened(s: State) {
    forall i :: 0 <= i < |s.conns| ==> Screened(s.conns[i])
  }

  ghost predicate Inv(setup: Setup, s: State) {
    AllLocal(setup, s) && AllScreened(s) && Metered(s) && CacheBacked(setup, s) && HitsBacked(setup, s)
  }

  lemma FlattenSnoc(chunks: seq<string>, data: string)
    ensures RR.Flatten(chunks + [data]) == RR.Flatten(chunks) + data
  {
    assert (chunks + [data])[..|chunks|] == chunks;
  }

  lemma AdvanceKeeps(setup: Setup, verb: string, p: RR.Progress, relayed: string, data: string)
    requires Kept(setup, verb, p, relayed)
    ensures Kept(setup, verb, RR.Advance(p, data, setup.limit), relayed + data)
  {
    hide RR.StatusOf;
    FlattenSnoc(p.kept, data);
  }

  lemma FinishKeepsLocal(setup: Setup, c: Conn, c': Conn, now: real)
    requires Local(setup, c) && c.phase.Streaming? && c' == c.(received := c'.received, ending := c'.ending)
    requires c.received <= c'.received && c'.ending != Open && (c'.ending == Whole ==> c'.received == c.received)
    ensures Local(setup, FinishStream(c', c.phase.progress, now))
  {
    hide RR.Flatten;
  }

  lemma TurnKeepsLocal(setup: Setup, c: Conn, turn: RR.Turn, now: real)
    requires Local(setup, c) && c.phase.Streaming?
    ensures Local(setup, TakeTurn(setup, c, c.phase.progress, turn, now))
  {
    hide RR.Advance, Kept;
    var p := c.phase.progress;
    match turn
    case Relayed(data) =>
      AdvanceKeeps(setup, c.key.verb, p, c.relayed, data);
    case SendFailed(data) =>
      FinishKeepsLocal(setup, c, c.(received := c.received + data, ending := Cut), now);
    case RecvFailed =>
      FinishKeepsLocal(setup, c, c.(ending := Cut), now);
    case EndOfStream =>
      FinishKeepsLocal(setup, c, c.(ending := Whole), now);
  }

  lemma DecideKeepsLocal(setup: Setup, m: Metrics, c: Conn, answer: Answer)
    requires Local(setup, c) && (Early(c.phase) || Deciding(c.phase))
    ensures Local(setup, Decide(m, c, answer).0)
  {
    hide RR.Flatten;
  }

  /** Phases in which a remote end has not been reached yet, or a tunnel runs. */
  predicate Dialling(p: Phase) {
    p.ConnectTunnel? || p.Send200? || p.Tunnelling? || p.ConnectOrigin? || p.SendRequest?
  }

  /** The ways out of the phases that serve a request. */
  lemma NextPhases(verb: string, phase: Phase, answer: Answer)
    requires !phase.CountCached? && !phase.Storing? && !phase.LookingUp? && !Early(phase) && !Deciding(phase)
    ensures var p := Next(verb, phase, answer);
            || p == phase
            || (p.Erring? && !phase.Done?)
            || (p.Done? && (Serving(phase) || phase.Send429? || phase.Send407? || phase.Send403?))
            || (Dialling(phase) && (p.Send502? || p.Send200? || p.Tunnelling?))
            || (phase.ConnectOrigin? && p.SendRequest?)
            || (phase.SendRequest? && p == Streaming(RR.Begin(verb)))
    ensures phase.Replaying? ==> Next(verb, phase, answer).Done?
  {
    hide RR.Begin;
  }

  lemma BeginIsKept(setup: Setup, verb: string)
    ensures Kept(setup, verb, RR.Begin(verb), "")
  {
    assert RR.Flatten([]) == "";
  }

  lemma ServeKeepsLocal(setup: Setup, now: real, c: Conn, answer: Answer)
    requires Local(setup, c) && !c.phase.Storing? && !c.phase.LookingUp? && !c.phase.CountCached?
    requires !Early(c.phase) && !Deciding(c.phase)
    ensures Local(setup, Serve(setup, now, c, answer))
  {
    hide RR.Begin, Kept;
    if c.phase.Streaming? && answer.Turn? {
      hide Local, TakeTurn;
      TurnKeepsLocal(setup, c, answer.turn, now);
    } else {
      hide Next;
      NextPhases(c.key.verb, c.phase, answer);
      BeginIsKept(setup, c.key.verb);
    }
  }

  lemma CacheStepKeepsLocal(setup: Setup, s: State, c: Conn, answer: Answer)
    requires Local(setup, c) && !answer.Raise? && (c.phase.LookingUp? || c.phase.CountCached? || c.phase.Storing?)
    ensures Local(setup, Move(setup, s, c, answer).0)
  {
    hide Get, Put, Decide, Serve, Kept;
    match c.phase
    case LookingUp =>
    case CountCached(_) =>
    case Storing(_) =>
  }

  lemma EndingKeepsLocal(setup: Setup, s: State, c: Conn, answer: Answer)
    requires Local(setup, c) && (c.phase.Done? || c.phase.Erring? || answer.Raise?)
    ensures Local(setup, Move(setup, s, c, answer).0)
  {
    hide Get, Put, Decide, Serve, Kept;
  }

  lemma MoveKeepsLocal(setup: Setup, s: State, c: Conn, answer: Answer)
    requires Local(setup, c)
    ensures Local(setup, Move(setup, s, c, answer).0)
  {
    hide Get, Put, Decide, Serve, Local;
    if c.phase.Done? || c.phase.Erring? || answer.Raise? {
      EndingKeepsLocal(setup, s, c, answer);
    } else if c.phase.LookingUp? || c.phase.CountCached? || c.phase.Storing? {
      CacheStepKeepsLocal(setup, s, c, answer);
    } else if Early(c.phase) || Deciding(c.phase) {
      DecideKeepsLocal(setup, s.metrics, c, answer);
    } else {
      ServeKeepsLocal(setup, s.now, c, answer);
    }
  }

  lemma DecideKeepsScreened(setup: Setup, m: Metrics, c: Conn, answer: Answer)
    requires Local(setup, c) && Screened(c) && (Early(c.phase) || Deciding(c.phase))
    ensures Screened(Decide(m, c, answer).0)
  {
    hide Kept, Storable;
  }

  lemma NextIsLater(verb: string, phase: Phase, answer: Answer)
    requires !Early(phase) && !Deciding(phase)
    ensures !Early(Next(verb, phase, answer)) && !Deciding(Next(verb, phase, answer))
  {
    hide RR.Begin;
  }

  /** Everything after the verdict keeps it, and the answers behind it. */
  ghost predicate KeepsVerdict(c: Conn, c': Conn) {
    && c'.verdict == c.verdict && c'.answers == c.answers
    && !Early(c'.phase) && !Deciding(c'.phase)
    && (Touched(c') ==> Touched(c) || Serving(c.phase))
  }

  lemma ServeKeepsVerdict(setup: Setup, now: real, c: Conn, answer: Answer)
    requires !Early(c.phase) && !Deciding(c.phase)
    ensures KeepsVerdict(c, Serve(setup, now, c, answer))
  {
    hide Next, RR.Advance, RR.StoreOf;
    NextIsLater(c.key.verb, c.phase, answer);
  }

  lemma MoveKeepsVerdict(setup: Setup, s: State, c: Conn, answer: Answer)
    requires !Early(c.phase) && !Deciding(c.phase)
    ensures KeepsVerdict(c, Move(setup, s, c, answer).0)
  {
    hide Get, Put, Serve, Decide;
    if c.phase.Done? || c.phase.Erring? || answer.Raise? || c.phase.LookingUp? || c.phase.CountCached? || c.phase.Storing? {
    } else {
      hide KeepsVerdict;
      ServeKeepsVerdict(setup, s.now, c, answer);
    }
  }

  lemma MoveKeepsScreened(setup: Setup, s: State, c: Conn, answer: Answer)
    requires Local(setup, c) && Screened(c)
    ensures Screened(Move(setup, s, c, answer).0)
  {
    if Early(c.phase) || Deciding(c.phase) {
      hide Decide, Streamed, Replayed;
      if !answer.Raise? {
        DecideKeepsScreened(setup, s.metrics, c, answer);
      }
    } else {
      hide Move, Streamed, Replayed;
      MoveKeepsVerdict(setup, s, c, answer);
    }
  }

  lemma NewConnIsScreened()
    ensures Screened(NewConn())
  {
  }

  lemma ApplyKeepsScreened(setup: Setup, s: State, event: Event)
    requires AllLocal(setup, s) && AllScreened(s)
    ensures AllScreened(Apply(setup, s, event))
  {
    hide Move, Local, Screened;
    if event.Step? && event.conn < |s.conns| {
      MoveKeepsScreened(setup, s, s.conns[event.conn], event.answer);
    } else if event.Accept? {
      NewConnIsScreened();
    }
  }

  function Delta(before: Conn, after: Conn, t: Trait): int {
    Weight(after, t) - Weight(before, t)
  }

  /** The counters move as the connection's record does. */
  ghost predicate MovesWith(m: Metrics, m': Metrics, c: Conn, c': Conn) {
    && m'.total == m.total + Delta(c, c', InTotal)
    && m'.rateLimited == m.rateLimited + Delta(c, c', WasLimited)
    && m'.blocked == m.blocked + Delta(c, c', WasBlocked)
    && m'.allowed == m.allowed + Delta(c, c', WasAllowed)
    && m'.cached == m.cached + Delta(c, c', WasCached)
    && m'.errors == m.errors + Delta(c, c', HasErred)
  }

  lemma ErringCounts(m: Metrics, c: Conn)
    requires Accounted(c) && c.phase.Erring?
    ensures MovesWith(m, m.(errors := m.errors + 1), c, c.(phase := Done, errors := c.errors + 1))
  {
  }

  lemma HitCounts(m: Metrics, c: Conn)
    requires Accounted(c) && c.phase.CountCached?
    ensures MovesWith(m, m.(cached := m.cached + 1), c, c.(phase := Replaying(c.phase.entry), cacheCounted := true))
  {
  }

  lemma UnchangedCounts(m: Metrics, c: Conn, c': Conn)
    requires c'.counted == c.counted && c'.verdict == c.verdict && c'.cacheCounted == c.cacheCounted && c'.errors == c.errors
    ensures MovesWith(m, m, c, c')
  {
  }

  lemma DecideCounts(m: Metrics, c: Conn, answer: Answer)
    requires Accounted(c) && (Early(c.phase) || Deciding(c.phase))
    ensures var (c', m') := Decide(m, c, answer);
            MovesWith(m, m', c, c')
  {
  }

  lemma ServeCounts(setup: Setup, now: real, c: Conn, answer: Answer)
    ensures var c' := Serve(setup, now, c, answer);
            c'.counted == c.counted && c'.verdict == c.verdict && c'.cacheCounted == c.cacheCounted && c'.errors == c.errors
  {
    hide Next, RR.Advance, RR.StoreOf, RR.Begin;
  }

  lemma MoveCounts(setup: Setup, s: State, c: Conn, answer: Answer)
    requires Local(setup, c)
    ensures var (c', _, m) := Move(setup, s, c, answer);
            MovesWith(s.metrics, m, c, c')
  {
    hide Get, Put, Streamed, Replayed, Decide, Serve, MovesWith;
    var (c', _, m) := Move(setup, s, c, answer);
    if c.phase.Erring? {
      ErringCounts(s.metrics, c);
    } else if c.phase.CountCached? && !answer.Raise? {
      HitCounts(s.metrics, c);
    } else if (Early(c.phase) || Deciding(c.phase)) && !answer.Raise? {
      DecideCounts(s.metrics, c, answer);
    } else {
      hide Accounted;
      ServeCounts(setup, s.now, c, answer);
      UnchangedCounts(s.metrics, c, c');
    }
  }

  lemma MoveKeepsMeters(setup: Setup, s: State, i: nat, answer: Answer)
    requires i < |s.conns| && Local(setup, s.conns[i]) && Metered(s)
    ensures Metered(Apply(setup, s, Step(i, answer)))
  {
    hide Move, Weight, Count, Local;
    var c' := Move(setup, s, s.conns[i], answer).0;
    MoveCounts(setup, s, s.conns[i], answer);
    CountUpdate(s.conns, i, c', InTotal);
    CountUpdate(s.conns, i, c', WasLimited);
    CountUpdate(s.conns, i, c', WasBlocked);
    CountUpdate(s.conns, i, c', WasAllowed);
    CountUpdate(s.conns, i, c', WasCached);
    CountUpdate(s.conns, i, c', HasErred);
  }

  lemma NewConnIsLocal(setup: Setup)
    ensures Local(setup, NewConn())
  {
  }

  lemma ApplyKeepsLocal(setup: Setup, s: State, event: Event)
    requires AllLocal(setup, s)
    ensures AllLocal(setup, Apply(setup, s, event))
  {
    hide Move, Local;
    if event.Step? && event.conn < |s.conns| {
      MoveKeepsLocal(setup, s, s.conns[event.conn], event.answer);
    } else if event.Accept? {
      NewConnIsLocal(setup);
    }
  }

  lemma ApplyKeepsMetered(setup: Setup, s: State, event: Event)
    requires AllLocal(setup, s) && Metered(s)
    ensures Metered(Apply(setup, s, event))
  {
    match event
    case Clock(_) =>
    case Accept =>
      CountAppend(s.conns, NewConn(), InTotal);
      CountAppend(s.conns, NewConn(), WasLimited);
      CountAppend(s.conns, NewConn(), WasBlocked);
      CountAppend(s.conns, NewConn(), WasAllowed);
      CountAppend(s.conns, NewConn(), WasCached);
      CountAppend(s.conns, NewConn(), HasErred);
    case Step(i, answer) =>
      if i < |s.conns| {
        MoveKeepsMeters(setup, s, i, answer);
      }
  }

  // ----- what the cache holds was relayed by somebody -----

  /** A connection that has stored something does not change any more. */
  lemma StoredStays(setup: Setup, s: State, event: Event, k: Key, e: Entry, j: nat)
    requires AllLocal(setup, s) && StoredBy(setup, s, k, e, j)
    ensures StoredBy(setup, Apply(setup, s, event), k, e, j)
  {
    hide Get, Put;
    assert Local(setup, s.conns[j]);
  }

  lemma BackedStays(setup: Setup, s: State, event: Event, k: Key, e: Entry)
    requires AllLocal(setup, s) && Backed(setup, s, k, e)
    ensures Backed(setup, Apply(setup, s, event), k, e)
  {
    hide Apply, AllLocal, StoredBy;
    var j: nat :| StoredBy(setup, s, k, e, j);
    StoredStays(setup, s, event, k, e, j);
  }

  lemma CacheAfterMove(setup: Setup, s: State, c: Conn, answer: Answer)
    requires Local(setup, c) && WellFormed(s.cache) && |s.cache.order| <= setup.cache.capacity
    ensures var cache := Move(setup, s, c, answer).1;
            && WellFormed(cache) && |cache.order| <= setup.cache.capacity
            && forall k :: k in cache.entries ==>
                 || (k in s.cache.entries && cache.entries[k] == s.cache.entries[k])
                 || (c.phase.Storing? && answer != Raise && k == c.key && cache.entries[k] == c.phase.entry)
  {
    hide Get, Put, WellFormed;
    if c.phase.LookingUp? {
      GetKeepsWellFormed(setup.cache, s.cache, c.key, s.now);
      GetKeepsEntries(setup.cache, s.cache, c.key, s.now);
    } else if c.phase.Storing? {
      PutKeepsEntries(setup.cache, s.cache, c.key, c.phase.entry, s.now);
    }
  }

  lemma ApplyKeepsCacheBacked(setup: Setup, s: State, event: Event)
    requires Inv(setup, s)
    ensures CacheBacked(setup, Apply(setup, s, event))
  {
    var s' := Apply(setup, s, event);
    if event.Step? && event.conn < |s.conns| {
      var c := s.conns[event.conn];
      assert Local(setup, c);
      CacheAfterMove(setup, s, c, event.answer);
      forall k | k in s'.cache.entries ensures Backed(setup, s', k, s'.cache.entries[k]) {
        if c.phase.Storing? && k == c.key && s'.cache.entries[k] == c.phase.entry && event.answer != Raise {
          assert StoredBy(setup, s', k, c.phase.entry, event.conn);
        } else {
          BackedStays(setup, s, event, k, s'.cache.entries[k]);
        }
      }
    } else {
      forall k | k in s'.cache.entries ensures Backed(setup, s', k, s'.cache.entries[k]) {
        BackedStays(setup, s, event, k, s'.cache.entries[k]);
      }
    }
  }

  lemma ServeTakesNoHits(setup: Setup, now: real, c: Conn, answer: Answer)
    ensures var c' := Serve(setup, now, c, answer);
            c'.hit == c.hit && c'.hitAt == c.hitAt && c'.key == c.key
  {
    hide Next, RR.StoreOf, RR.Advance;
  }

  lemma DecideTakesNoHits(m: Metrics, c: Conn, answer: Answer)
    requires Early(c.phase) || Deciding(c.phase)
    ensures var c' := Decide(m, c, answer).0;
            c'.hit == c.hit && c'.hitAt == c.hitAt && (c'.key == c.key || c.phase.Receiving?)
  {
  }

  /** The only statement that makes a hit is the lookup. */
  lemma MoveTakesHits(setup: Setup, s: State, c: Conn, answer: Answer)
    requires Replayed(c)
    ensures var c' := Move(setup, s, c, answer).0;
            c'.hit.Some? ==>
              && c'.key == c.key
              && ((c'.hit == c.hit && c'.hitAt == c.hitAt)
                  || (c.phase.LookingUp? && c'.hit == Get(setup.cache, s.cache, c.key, s.now).1 && c'.hitAt == s.now))
  {
    hide Get, Put, Serve, Decide;
    if Early(c.phase) || Deciding(c.phase) {
      DecideTakesNoHits(s.metrics, c, answer);
    } else {
      ServeTakesNoHits(setup, s.now, c, answer);
    }
  }

  /** A hit is either an old one or found in the cache just now. */
  lemma HitAfterMove(setup: Setup, s: State, event: Event, i: nat)
    requires Inv(setup, s) && i < |s.conns|
    ensures var c := Apply(setup, s, event).conns[i];
            c.hit.Some? ==>
              && Backed(setup, s, c.key, c.hit.value) && c.hitAt - c.hit.value.Timestamp() <= setup.cache.ttl
              && c.key.verb == "GET"
  {
    hide Get, Put, Backed, Metered, Move, WellFormed;
    var c := s.conns[i];
    assert Local(setup, c);
    if event.Step? && event.conn == i {
      MoveTakesHits(setup, s, c, event.answer);
      GetFinds(setup.cache, s.cache, c.key, s.now);
    }
  }

  lemma ApplyKeepsHitsBacked(setup: Setup, s: State, event: Event)
    requires Inv(setup, s)
    ensures HitsBacked(setup, Apply(setup, s, event))
  {
    var s' := Apply(setup, s, event);
    forall i | 0 <= i < |s'.conns| && s'.conns[i].hit.Some?
      ensures Backed(setup, s', s'.conns[i].key, s'.conns[i].hit.value)
              && s'.conns[i].hitAt - s'.conns[i].hit.value.Timestamp() <= setup.cache.ttl
              && s'.conns[i].key.verb == "GET"
    {
      if i < |s.conns| {
        HitAfterMove(setup, s, event, i);
        BackedStays(setup, s, event, s'.conns[i].key, s'.conns[i].hit.value);
      }
    }
  }

  lemma StartInv(setup: Setup, now: real)
    ensures Inv(setup, Start(now))
  {
  }

  lemma {:induction false} RunKeepsInv(setup: Setup, now: real, events: seq<Event>)
    ensures Inv(setup, Run(setup, Start(now), events))
    decreases |events|
  {
    hide Apply, AllLocal, AllScreened, Metered, CacheBacked, HitsBacked;
    if events == [] {
      StartInv(setup, now);
    } else {
      var before, event := events[..|events| - 1], events[|events| - 1];
      RunKeepsInv(setup, now, before);
      var s := Run(setup, Start(now), before);
      ApplyKeepsLocal(setup, s, event);
      ApplyKeepsScreened(setup, s, event);
      ApplyKeepsMetered(setup, s, event);
      ApplyKeepsCacheBacked(setup, s, event);
      ApplyKeepsHitsBacked(setup, s, event);
    }
  }

  // ----- main results -----

  lemma {:induction false} TraitsPartition(conns: seq<Conn>)
    requires forall i :: 0 <= i < |conns| ==> conns[i].verdict != Pending ==> conns[i].counted
    ensures Count(conns, InTotal)
            == Count(conns, WasLimited) + Count(conns, WasUnauthenticated) + Count(conns, WasBlocked)
               + Count(conns, WasAllowed) + Count(conns, Undecided)
  {
    if conns != [] {
      TraitsPartition(conns[1..]);
    }
  }

  lemma {:induction false} CountMonotone(conns: seq<Conn>, t: Trait, u: Trait)
    requires forall i :: 0 <= i < |conns| && Has(conns[i], t) ==> Has(conns[i], u)
    ensures Count(conns, t) <= Count(conns, u)
  {
    if conns != [] {
      CountMonotone(conns[1..], t, u);
    }
  }

  /** A counted request without a verdict is still being decided, or an exception ended it. */
  predicate InFlightOrAborted(c: Conn) {
    Deciding(c.phase) || c.phase == Erring || (c.phase == Done && c.errors == 1)
  }

  lemma {:induction false} CountAtMostAll(conns: seq<Conn>, t: Trait)
    ensures Count(conns, t) <= |conns|
  {
    if conns != [] {
      CountAtMostAll(conns[1..], t);
    }
  }

  lemma UndecidedMeans(setup: Setup, s: State)
    requires AllLocal(setup, s)
    ensures forall i :: 0 <= i < |s.conns| ==>
              && s.conns[i].errors <= 1
              && (s.conns[i].verdict != Pending ==> s.conns[i].counted)
              && (s.conns[i].cacheCounted ==> s.conns[i].verdict == Allowed)
              && (Has(s.conns[i], Undecided) ==> InFlightOrAborted(s.conns[i]))
  {
    forall i | 0 <= i < |s.conns|
      ensures s.conns[i].errors <= 1
              && (s.conns[i].verdict != Pending ==> s.conns[i].counted)
              && (s.conns[i].cacheCounted ==> s.conns[i].verdict == Allowed)
              && (Has(s.conns[i], Undecided) ==> InFlightOrAborted(s.conns[i]))
    {
      assert Local(setup, s.conns[i]);
    }
  }

  /** Conservation: in every reachable state the counters add up, a cache hit is an allowed request, and
      no connection ever counts two errors. */
  lemma CountersBalance(setup: Setup, now: real, events: seq<Event>)
    ensures var s := Run(setup, Start(now), events);
            && s.metrics.total == s.metrics.rateLimited + Count(s.conns, WasUnauthenticated) + s.metrics.blocked
                                  + s.metrics.allowed + Count(s.conns, Undecided)
            && s.metrics.cached <= s.metrics.allowed
            && s.metrics.errors == Count(s.conns, HasErred) <= |s.conns|
            && forall i :: 0 <= i < |s.conns| ==>
                 && s.conns[i].errors <= 1
                 && (Has(s.conns[i], Undecided) ==> InFlightOrAborted(s.conns[i]))
  {
    hide Run, Count, Local, CacheBacked, HitsBacked, InFlightOrAborted;
    RunKeepsInv(setup, now, events);
    var s := Run(setup, Start(now), events);
    UndecidedMeans(setup, s);
    TraitsPartition(s.conns);
    CountMonotone(s.conns, WasCached, WasAllowed);
    CountAtMostAll(s.conns, HasErred);
  }

  lemma ReachableIsLocal(setup: Setup, now: real, events: seq<Event>)
    ensures AllLocal(setup, Run(setup, Start(now), events))
  {
    hide Run, AllLocal, AllScreened, Metered, CacheBacked, HitsBacked;
    RunKeepsInv(setup, now, events);
  }

  lemma {:induction false} StoredForGood(setup: Setup, now: real, events: seq<Event>, n: nat, k: Key, e: Entry, j: nat)
    requires n <= |events| && StoredBy(setup, Run(setup, Start(now), events[..n]), k, e, j)
    ensures StoredBy(setup, Run(setup, Start(now), events), k, e, j)
    decreases |events|
  {
    hide Apply, StoredBy, Inv;
    if n == |events| {
      assert events[..n] == events;
    } else {
      var before, last := events[..|events| - 1], events[|events| - 1];
      assert before[..n] == events[..n];
      StoredForGood(setup, now, before, n, k, e, j);
      ReachableIsLocal(setup, now, before);
      StoredStays(setup, Run(setup, Start(now), before), last, k, e, j);
    }
  }

  /** Connection `i` is at its lookup, and is about to find what connection `j` has stored before. */
  ghost predicate AboutToHit(setup: Setup, s: State, i: nat, j: nat, k: Key, e: Entry, at: real) {
    && i < |s.conns| && s.conns[i].phase.LookingUp? && s.conns[i].key == k && s.conns[i].hit.None? && s.now == at
    && StoredBy(setup, s, k, e, j)
  }

  /** What a lookup finds was stored by some connection. */
  lemma FoundIsStored(setup: Setup, s: State, k: Key, e: Entry) returns (j: nat)
    requires CacheBacked(setup, s) && Get(setup.cache, s.cache, k, s.now).1 == Some(e)
    ensures StoredBy(setup, s, k, e, j)
  {
    hide Get, WellFormed;
    GetFinds(setup.cache, s.cache, k, s.now);
    assert Backed(setup, s, k, e);
    j :| StoredBy(setup, s, k, e, j);
  }

  /** Every hit has its moment in the run. */
  lemma {:induction false} MomentOfHit(setup: Setup, now: real, events: seq<Event>, i: nat) returns (n: nat, j: nat)
    requires var s := Run(setup, Start(now), events);
             i < |s.conns| && s.conns[i].hit.Some?
    ensures n < |events| && events[n].Step? && events[n].conn == i
    ensures var c := Run(setup, Start(now), events).conns[i];
            AboutToHit(setup, Run(setup, Start(now), events[..n]), i, j, c.key, c.hit.value, c.hitAt)
    decreases |events|
  {
    hide Move, Get, AllScreened, Metered, CacheBacked, HitsBacked;
    var before, last := events[..|events| - 1], events[|events| - 1];
    var s := Run(setup, Start(now), before);
    var c' := Run(setup, Start(now), events).conns[i];
    assert i < |s.conns|;
    var c := s.conns[i];
    RunKeepsInv(setup, now, before);
    assert Local(setup, c);
    if last.Step? && last.conn == i {
      MoveTakesHits(setup, s, c, last.answer);
    }
    if last.Step? && last.conn == i && !(c'.hit == c.hit && c'.hitAt == c.hitAt) {
      n := |before|;
      j := FoundIsStored(setup, s, c.key, c'.hit.value);
    } else {
      n, j := MomentOfHit(setup, now, before, i);
      assert before[..n] == events[..n];
    }
  }

  /** What connection `i` replayed is what connection `j` relayed and stored, and `events[n]` is the lookup of `i`, by
      when `j` had stored it. */
  ghost predicate Replays(setup: Setup, now: real, events: seq<Event>, i: nat, j: nat, n: nat)
    requires i < |Run(setup, Start(now), events).conns|
  {
    var s := Run(setup, Start(now), events);
    && j < |s.conns| && j != i
    && s.conns[j].key == s.conns[i].key && s.conns[j].key.verb == "GET"
    && s.conns[j].stored.Some? && s.conns[j].stored.value.timestamp.Some?
    && s.conns[i].hitAt - s.conns[j].stored.value.timestamp.value <= setup.cache.ttl
    && s.conns[i].replayed == Some(s.conns[j].stored.value.response)
    && s.conns[j].stored.value.response == s.conns[j].relayed
    && (s.conns[j].ending == Whole ==> s.conns[j].relayed == s.conns[j].received)
    && n < |events| && events[n].Step? && events[n].conn == i
    && AboutToHit(setup, Run(setup, Start(now), events[..n]), i, j, s.conns[i].key, s.conns[j].stored.value, s.conns[i].hitAt)
  }

  /** Replay: what a cache hit sends its client is, byte for byte, what another connection's GET of the same
      method, host, port and path relayed to its own client, and had stored, at most `ttl` before, when the lookup
      came; and if that connection's origin stream ended in order, it is all the origin sent. */
  lemma HitsReplayOneRelay(setup: Setup, now: real, events: seq<Event>, i: nat)
    requires var s := Run(setup, Start(now), events);
             i < |s.conns| && s.conns[i].replayed.Some?
    ensures exists j: nat, n: nat :: Replays(setup, now, events, i, j, n)
  {
    hide Run, Metered, CacheBacked, AllScreened;
    RunKeepsInv(setup, now, events);
    var s := Run(setup, Start(now), events);
    var c := s.conns[i];
    assert Local(setup, c);
    var n, j := MomentOfHit(setup, now, events, i);
    StoredForGood(setup, now, events, n, c.key, c.hit.value, j);
    assert Local(setup, s.conns[j]);
    assert Replays(setup, now, events, i, j, n);
  }

  /** With one size limit for both, the cache never discards what the relay decided to store: a handler about
      to store leaves its entry resident. */
  lemma StoredIsResident(setup: Setup, now: real, events: seq<Event>, i: nat)
    requires setup.cache.enabled && setup.cache.capacity >= 1 && setup.limit <= setup.cache.maxObjectSize
    requires var s := Run(setup, Start(now), events);
             i < |s.conns| && s.conns[i].phase.Storing?
    ensures var s := Run(setup, Start(now), events);
            var (k, e, after) := (s.conns[i].key, s.conns[i].phase.entry, Apply(setup, s, Step(i, Ok)).cache);
            k in after.entries && after.entries[k] == e
  {
    hide Run, Kept, Metered, HitsBacked, Put;
    RunKeepsInv(setup, now, events);
    var s := Run(setup, Start(now), events);
    assert Local(setup, s.conns[i]);
    PutIsResident(setup.cache, s.cache, s.conns[i].key, s.conns[i].phase.entry, s.now);
  }

  /** Screening under every interleaving: a connection that is being served, or has received or relayed a byte, or
      has used the cache, was let through by the limiter, then by the password check, then by the blocklist. */
  lemma OnlyClearedConnectionsServe(setup: Setup, now: real, events: seq<Event>, i: nat)
    requires i < |Run(setup, Start(now), events).conns|
    ensures var c := Run(setup, Start(now), events).conns[i];
            Touched(c) || Serving(c.phase) ==> c.verdict == Allowed && Cleared(c.answers)
  {
    hide Run, Replayed, Streamed, Metered, CacheBacked, HitsBacked;
    RunKeepsInv(setup, now, events);
    var c := Run(setup, Start(now), events).conns[i];
    assert Local(setup, c) && Screened(c);
  }
}
