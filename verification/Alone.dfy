/** The two views of a handler agree: left alone, a handler of the step machine does to the cache, the counters and its
    client just what the pipeline does. */
module Alone {
  import opened Options
  import opened Handler
  import opened LruCache
  import opened Metering
  import opened OutboundRequest
  import opened PasswordHash
  import opened RateLimiting
  import opened RequestParser
  import opened TokenBuckets
  import P = Proxy
  import RR = ResponseRelay

  /** What the outside world does next: the clock moves, or a statement of the handler gets its answer. */
  datatype Cue = At(now: real) | Says(answer: P.Answer)

  /** One handler, and what it shares. */
  datatype Solo = Solo(now: real, cache: Cache, metrics: Metrics, conn: P.Conn)

  function Act(setup: P.Setup, x: Solo, cue: Cue): Solo {
    match cue
    case At(now) => x.(now := now)
    case Says(answer) =>
      var (c, cache, m) := P.Move(setup, P.State(x.now, x.cache, x.metrics, []), x.conn, answer);
      Solo(x.now, cache, m, c)
  }

  function Play(setup: P.Setup, x: Solo, cues: seq<Cue>): Solo
    decreases |cues|
  {
    if cues == [] then x else Play(setup, Act(setup, x, cues[0]), cues[1..])
  }

  // ----- the cues of one connection -----

  const DONE := [Says(P.Ok)]

  /** A reply to the client, who may be gone. */
  function Telling(w: World): seq<Cue> {
    if w.listens then DONE else [Says(P.Fail), Says(P.Ok)]
  }

  function Turns(turns: seq<RR.Turn>): seq<Cue> {
    if turns == [] then [Says(P.Turn(RR.EndOfStream))]
    else if RR.Stops(turns[0]) then [Says(P.Turn(turns[0]))]
    else [Says(P.Turn(turns[0]))] + Turns(turns[1..])
  }

  function Failing(w: World): seq<Cue> {
    if w.connects then [Says(P.Ok), Says(P.Fail), Says(P.Ok), Says(P.Ok)] else [Says(P.Fail), Says(P.Ok), Says(P.Ok)]
  }

  /** The statements after the stream. */
  function Filing(site: Site, r: Request, w: World): seq<Cue> {
    if RR.StoreOf(RR.AfterChunks(r.verb, RR.Chunks(w.turns), site.limit)).Some? then [Says(P.Ok), Says(P.Ok)] else DONE
  }

  function Fetching(site: Site, r: Request, w: World): seq<Cue> {
    if !w.connects || !w.accepts then Failing(w)
    else
      [Says(P.Ok), Says(P.Ok)] + (Turns(w.turns) + Filing(site, r, w))
  }

  function Serving(site: Site, cache: Cache, r: Request, w: World): seq<Cue> {
    if r.verb == "CONNECT" then
      if w.connects && w.accepts then [Says(P.Ok), Says(P.Ok), Says(P.Ok)] else Failing(w)
    else if Look(site, cache, r, w).1.Some? then [Says(P.Ok), Says(P.Ok), Says(P.Ok)]
    else (if r.verb == "GET" then [Says(P.Ok), At(w.storedAt)] else [At(w.storedAt)]) + Fetching(site, r, w)
  }

  ghost function Screening(site: Site, s: Shared, r: Request, w: World): seq<Cue> {
    var (registry, passes) := Limit(site, s.registry, w);
    if !passes then
      if RetryAnswerOf(site, registry, w).DivisionByZero? then [Says(P.No), Says(P.Raise), Says(P.Ok)]
      else [Says(P.No), Says(P.Ok)] + Telling(w)
    else if PasswordOf(site, r) == Check.Raised then [Says(P.Yes), Says(P.Raise), Says(P.Ok)]
    else if !PasswordOf(site, r).ok then [Says(P.Yes), Says(P.No)] + Telling(w)
    else if OnBlocklist(site, r) then [Says(P.Yes), Says(P.Yes), Says(P.Yes), Says(P.Ok)] + Telling(w)
    else [Says(P.Yes), Says(P.Yes), Says(P.No), Says(P.Ok)] + Serving(site, s.cache, r, w)
  }

  ghost function Cues(site: Site, s: Shared, data: string, w: World): seq<Cue> {
    if data == "" then [Says(P.EmptyRead)]
    else
      match Parse(data, w.url)
      case Raised => [Says(P.Raise), Says(P.Ok)]
      case Rejected => [Says(P.Malformed), Says(P.Ok), Says(P.Ok)]
      case Parsed(r) => [Says(P.Request(KeyOf(r))), Says(P.Ok), At(w.lookupAt)] + Screening(site, s, r, w)
  }

  // ----- playing them -----

  lemma PlayOne(setup: P.Setup, x: Solo, a: Cue, rest: seq<Cue>)
    ensures Play(setup, x, [a] + rest) == Play(setup, Act(setup, x, a), rest)
  {
    assert ([a] + rest)[1..] == rest;
  }

  lemma PlayTwo(setup: P.Setup, x: Solo, a: Cue, b: Cue, rest: seq<Cue>)
    ensures Play(setup, x, [a, b] + rest) == Play(setup, Act(setup, Act(setup, x, a), b), rest)
  {
    hide Act;
    assert [a, b] + rest == [a] + ([b] + rest);
    PlayOne(setup, x, a, [b] + rest);
    PlayOne(setup, Act(setup, x, a), b, rest);
  }

  lemma PlayThree(setup: P.Setup, x: Solo, a: Cue, b: Cue, c: Cue, rest: seq<Cue>)
    ensures Play(setup, x, [a, b, c] + rest) == Play(setup, Act(setup, Act(setup, Act(setup, x, a), b), c), rest)
  {
    hide Act;
    assert [a, b, c] + rest == [a, b] + ([c] + rest);
    PlayTwo(setup, x, a, b, [c] + rest);
    PlayOne(setup, Act(setup, Act(setup, x, a), b), c, rest);
  }

  lemma PlayDone(setup: P.Setup, x: Solo)
    ensures Play(setup, x, DONE) == Act(setup, x, Says(P.Ok))
  {
    assert DONE == [Says(P.Ok)] + [];
    PlayOne(setup, x, Says(P.Ok), []);
  }

  /** The plain statements: they change nothing but where the handler stands. */
  lemma PlainStep(setup: P.Setup, x: Solo, answer: P.Answer)
    requires var p := x.conn.phase;
             p.Send429? || p.Send407? || p.Send403? || p.Send200? || p.Tunnelling? || p.Send502? || p.Logging?
             || p.ConnectOrigin? || p.ConnectTunnel? || p.SendRequest?
    requires answer == P.Ok || answer == P.Fail
    ensures Act(setup, x, Says(answer)) == x.(conn := x.conn.(phase := P.Next(x.conn.key.verb, x.conn.phase, answer)))
  {
    hide P.Next;
  }

  /** An exception is counted, and the connection is over. */
  function Erred(x: Solo): Solo {
    x.(metrics := Fail(x.metrics), conn := x.conn.(phase := P.Done, errors := x.conn.errors + 1))
  }

  lemma TellingEnds(setup: P.Setup, x: Solo, w: World)
    requires x.conn.phase.Send429? || x.conn.phase.Send407? || x.conn.phase.Send403?
    ensures Play(setup, x, Telling(w)) == if w.listens then x.(conn := x.conn.(phase := P.Done)) else Erred(x)
  {
    hide Play;
    if w.listens {
      PlayDone(setup, x);
    } else {
      assert [Says(P.Fail), Says(P.Ok)] == [Says(P.Fail)] + DONE;
      PlayOne(setup, x, Says(P.Fail), DONE);
      PlayDone(setup, Act(setup, x, Says(P.Fail)));
    }
  }

  lemma ErringEnds(setup: P.Setup, x: Solo)
    requires x.conn.phase.Erring?
    ensures Play(setup, x, DONE) == Erred(x)
  {
    hide Play;
    PlayDone(setup, x);
  }

  /** A call to the origin, or the reply that opens a tunnel, fails. */
  lemma FailureEnds(setup: P.Setup, x: Solo)
    requires x.conn.phase.ConnectOrigin? || x.conn.phase.ConnectTunnel? || x.conn.phase.SendRequest? || x.conn.phase.Send200?
    ensures Play(setup, x, [Says(P.Fail), Says(P.Ok), Says(P.Ok)]) == Erred(x)
  {
    hide Play, Act;
    assert [Says(P.Fail), Says(P.Ok), Says(P.Ok)] == [Says(P.Fail), Says(P.Ok)] + DONE;
    PlayTwo(setup, x, Says(P.Fail), Says(P.Ok), DONE);
    PlainStep(setup, x, P.Fail);
    var y := Act(setup, x, Says(P.Fail));
    PlainStep(setup, y, P.Ok);
    ErringEnds(setup, Act(setup, y, Says(P.Ok)));
  }

  lemma FailingEnds(setup: P.Setup, x: Solo, w: World)
    requires x.conn.phase.ConnectOrigin? || x.conn.phase.ConnectTunnel?
    ensures Play(setup, x, Failing(w)) == Erred(x)
  {
    hide Play;
    if w.connects {
      assert Failing(w) == [Says(P.Ok)] + [Says(P.Fail), Says(P.Ok), Says(P.Ok)];
      PlayOne(setup, x, Says(P.Ok), [Says(P.Fail), Says(P.Ok), Says(P.Ok)]);
      FailureEnds(setup, Act(setup, x, Says(P.Ok)));
    } else {
      FailureEnds(setup, x);
    }
  }

  // ----- streaming -----

  /** What streaming leaves alone. */
  predicate Kept(x: Solo, y: Solo) {
    && y.now == x.now && y.cache == x.cache && y.metrics == x.metrics && y.conn.key == x.conn.key
    && y.conn.verdict == x.conn.verdict && y.conn.replayed == x.conn.replayed
  }

  function AfterStream(progress: RR.Progress, now: real): P.Phase {
    match RR.StoreOf(progress)
    case None => P.Logging
    case Some(stored) => P.Storing(Entry(stored.response, Some(stored.size), Some(now)))
  }

  lemma OneTurn(setup: P.Setup, x: Solo, turn: RR.Turn, chunks: seq<string>)
    requires x.conn.phase == P.Streaming(RR.AfterChunks(x.conn.key.verb, chunks, setup.limit))
    requires x.conn.relayed == RR.Flatten(chunks)
    ensures var y := Act(setup, x, Says(P.Turn(turn)));
            && Kept(x, y)
            && if turn.Relayed?
               then && y.conn.phase == P.Streaming(RR.AfterChunks(x.conn.key.verb, chunks + [turn.data], setup.limit))
                    && y.conn.relayed == RR.Flatten(chunks + [turn.data])
               else && y.conn.phase == AfterStream(RR.AfterChunks(x.conn.key.verb, chunks, setup.limit), x.now)
                    && y.conn.relayed == RR.Flatten(chunks)
  {
    hide RR.Advance, RR.StoreOf;
    if turn.Relayed? {
      assert (chunks + [turn.data])[..|chunks|] == chunks;
    }
  }

  lemma {:induction false} TurnsEnd(setup: P.Setup, x: Solo, turns: seq<RR.Turn>, chunks: seq<string>)
    requires x.conn.phase == P.Streaming(RR.AfterChunks(x.conn.key.verb, chunks, setup.limit))
    requires x.conn.relayed == RR.Flatten(chunks)
    ensures var y := Play(setup, x, Turns(turns));
            && Kept(x, y) && y.conn.relayed == RR.Flatten(chunks + RR.Chunks(turns))
            && y.conn.phase == AfterStream(RR.AfterChunks(x.conn.key.verb, chunks + RR.Chunks(turns), setup.limit), x.now)
    decreases |turns|
  {
    hide Act, RR.AfterChunks, RR.Flatten, AfterStream;
    var turn := if turns == [] then RR.EndOfStream else turns[0];
    OneTurn(setup, x, turn, chunks);
    if turn.Relayed? {
      PlayOne(setup, x, Says(P.Turn(turn)), Turns(turns[1..]));
      TurnsEnd(setup, Act(setup, x, Says(P.Turn(turn))), turns[1..], chunks + [turn.data]);
      assert chunks + RR.Chunks(turns) == chunks + [turn.data] + RR.Chunks(turns[1..]);
    } else {
      assert Turns(turns) == [Says(P.Turn(turn))] + [];
      PlayOne(setup, x, Says(P.Turn(turn)), []);
      assert chunks + RR.Chunks(turns) == chunks;
    }
  }

  lemma {:induction false} PlayAppend(setup: P.Setup, x: Solo, a: seq<Cue>, b: seq<Cue>)
    ensures Play(setup, x, a + b) == Play(setup, Play(setup, x, a), b)
    decreases |a|
  {
    hide Act;
    if a == [] {
      assert a + b == b;
    } else {
      assert (a + b)[1..] == a[1..] + b;
      PlayAppend(setup, Act(setup, x, a[0]), a[1..], b);
    }
  }

  // ----- the whole connection -----

  /** What its client got, as the machine records it. */
  predicate Shows(c: P.Conn, reply: Reply) {
    && c.phase == P.Done
    && c.replayed == (if reply.Cached? then Some(reply.response) else None)
    && c.relayed == (if reply.Relayed? then reply.toClient else "")
    && (reply.Limited? <==> c.verdict == P.RateLimited) && (reply == Status(407) <==> c.verdict == P.AuthFailed)
    && (reply == Status(403) <==> c.verdict == P.Blocked) && (GoesOut(reply) <==> c.verdict == P.Allowed)
  }

  predicate Agrees(x: Solo, cache: Cache, metrics: Metrics, reply: Reply) {
    x.cache == cache && x.metrics == metrics && Shows(x.conn, reply)
  }

  /** Nothing has gone to or come from its client yet. */
  predicate Untouched(c: P.Conn) {
    c.replayed == None && c.relayed == ""
  }

  function SetupOf(site: Site): P.Setup {
    P.Setup(site.cache, site.limit)
  }

  lemma NothingStreamed(verb: string, limit: nat)
    ensures RR.AfterChunks(verb, [], limit) == RR.Begin(verb) && RR.Flatten([]) == ""
  {
  }

  lemma FilingEnds(site: Site, x: Solo, r: Request, w: World)
    requires x.conn.phase == AfterStream(RR.AfterChunks(r.verb, RR.Chunks(w.turns), site.limit), w.storedAt)
    requires x.conn.key == KeyOf(r) && x.now == w.storedAt
    ensures var y := Play(SetupOf(site), x, Filing(site, r, w));
            && y.cache == Store(site, x.cache, r, w) && y.metrics == x.metrics
            && y.conn == x.conn.(phase := P.Done, stored := y.conn.stored)
  {
    hide Play, Put, RR.Chunks, RR.StoreOf, RR.AfterChunks;
    var setup := SetupOf(site);
    if RR.StoreOf(RR.AfterChunks(r.verb, RR.Chunks(w.turns), site.limit)).Some? {
      assert [Says(P.Ok), Says(P.Ok)] == [Says(P.Ok)] + DONE;
      PlayOne(setup, x, Says(P.Ok), DONE);
      PlayDone(setup, Act(setup, x, Says(P.Ok)));
    } else {
      PlayDone(setup, x);
    }
  }

  lemma StreamEnds(site: Site, x: Solo, r: Request, w: World)
    requires x.conn.phase == P.Streaming(RR.Begin(r.verb)) && Untouched(x.conn) && x.conn.verdict == P.Allowed
    requires x.conn.key == KeyOf(r) && x.now == w.storedAt
    ensures Agrees(Play(SetupOf(site), x, Turns(w.turns) + Filing(site, r, w)), Store(site, x.cache, r, w), x.metrics,
                   Relayed(Build(r, Some(w.client)), RR.Flatten(RR.Chunks(w.turns))))
  {
    hide Play, Store, RR.Chunks, RR.AfterChunks, RR.Flatten, AfterStream, Filing, Turns, Build;
    NothingStreamed(r.verb, site.limit);
    PlayAppend(SetupOf(site), x, Turns(w.turns), Filing(site, r, w));
    TurnsEnd(SetupOf(site), x, w.turns, []);
    assert [] + RR.Chunks(w.turns) == RR.Chunks(w.turns);
    FilingEnds(site, Play(SetupOf(site), x, Turns(w.turns)), r, w);
  }

  lemma FetchingEnds(site: Site, x: Solo, r: Request, w: World)
    requires x.conn.phase.ConnectOrigin? && Untouched(x.conn) && x.conn.verdict == P.Allowed
    requires x.conn.key == KeyOf(r) && x.now == w.storedAt && r.verb != "CONNECT"
    ensures var y := Play(SetupOf(site), x, Fetching(site, r, w));
            if !w.connects || !w.accepts then Agrees(y, x.cache, Fail(x.metrics), Status(502))
            else Agrees(y, Store(site, x.cache, r, w), x.metrics,
                        Relayed(Build(r, Some(w.client)), RR.Flatten(RR.Chunks(w.turns))))
  {
    hide Play, Act, Store, RR.Flatten, RR.Chunks, Filing, Turns, Build;
    var setup := SetupOf(site);
    if !w.connects || !w.accepts {
      FailingEnds(setup, x, w);
    } else {
      var rest := Turns(w.turns) + Filing(site, r, w);
      PlayTwo(setup, x, Says(P.Ok), Says(P.Ok), rest);
      PlainStep(setup, x, P.Ok);
      PlainStep(setup, Act(setup, x, Says(P.Ok)), P.Ok);
      StreamEnds(site, x.(conn := x.conn.(phase := P.Streaming(RR.Begin(r.verb)))), r, w);
    }
  }

  lemma ReplayStep(setup: P.Setup, x: Solo)
    requires x.conn.phase.Replaying?
    ensures Act(setup, x, Says(P.Ok))
            == x.(conn := x.conn.(phase := P.Done, replayed := Some(x.conn.phase.entry.response)))
  {
  }

  lemma HitStep(setup: P.Setup, x: Solo)
    requires x.conn.phase.LookingUp? && Get(setup.cache, x.cache, x.conn.key, x.now).1.Some?
    ensures var (cache, found) := Get(setup.cache, x.cache, x.conn.key, x.now);
            var y := Act(setup, Act(setup, x, Says(P.Ok)), Says(P.Ok));
            && y.cache == cache && y.metrics == x.metrics.(cached := x.metrics.cached + 1)
            && y.conn.phase == P.Replaying(found.value)
            && y.conn.relayed == x.conn.relayed && y.conn.verdict == x.conn.verdict
  {
    hide Get;
  }

  lemma ReplayEnds(setup: P.Setup, x: Solo, w: World)
    requires x.conn.phase.LookingUp? && Untouched(x.conn) && x.conn.verdict == P.Allowed
    requires Get(setup.cache, x.cache, x.conn.key, x.now).1.Some?
    ensures var (cache, found) := Get(setup.cache, x.cache, x.conn.key, x.now);
            Agrees(Play(setup, x, [Says(P.Ok), Says(P.Ok), Says(P.Ok)]), cache,
                   x.metrics.(cached := x.metrics.cached + 1), Cached(found.value.response))
  {
    hide Play, Act;
    assert [Says(P.Ok), Says(P.Ok), Says(P.Ok)] == [Says(P.Ok), Says(P.Ok)] + DONE;
    PlayTwo(setup, x, Says(P.Ok), Says(P.Ok), DONE);
    HitStep(setup, x);
    PlayDone(setup, Act(setup, Act(setup, x, Says(P.Ok)), Says(P.Ok)));
    ReplayStep(setup, Act(setup, Act(setup, x, Says(P.Ok)), Says(P.Ok)));
  }

  lemma MissContinues(setup: P.Setup, x: Solo, storedAt: real, rest: seq<Cue>)
    requires x.conn.phase.LookingUp? && Get(setup.cache, x.cache, x.conn.key, x.now).1.None?
    ensures Play(setup, x, [Says(P.Ok), At(storedAt)] + rest)
            == Play(setup, Solo(storedAt, Get(setup.cache, x.cache, x.conn.key, x.now).0, x.metrics,
                                x.conn.(phase := P.ConnectOrigin)), rest)
  {
    hide Play, Get;
    PlayTwo(setup, x, Says(P.Ok), At(storedAt), rest);
  }

  lemma TunnelEnds(setup: P.Setup, x: Solo)
    requires x.conn.phase.ConnectTunnel?
    ensures Play(setup, x, [Says(P.Ok), Says(P.Ok), Says(P.Ok)]) == x.(conn := x.conn.(phase := P.Done))
  {
    hide Play, Act;
    assert [Says(P.Ok), Says(P.Ok), Says(P.Ok)] == [Says(P.Ok), Says(P.Ok)] + DONE;
    PlayTwo(setup, x, Says(P.Ok), Says(P.Ok), DONE);
    PlainStep(setup, x, P.Ok);
    var y := Act(setup, x, Says(P.Ok));
    PlainStep(setup, y, P.Ok);
    PlainStep(setup, Act(setup, y, Says(P.Ok)), P.Ok);
    PlayDone(setup, Act(setup, Act(setup, x, Says(P.Ok)), Says(P.Ok)));
  }

  lemma ClockOnly(setup: P.Setup, x: Solo, now: real)
    ensures Act(setup, x, At(now)) == x.(now := now)
  {
  }

  lemma ServingEnds(site: Site, s: Shared, x: Solo, r: Request, w: World)
    requires x.conn.phase == P.Dispatch(r.verb) && x.conn.key == KeyOf(r) && Untouched(x.conn) && x.conn.verdict == P.Allowed
    requires x.now == w.lookupAt && x.cache == s.cache && x.metrics == s.metrics
    ensures var (s', reply) := LetThrough(site, s, r, w);
            Agrees(Play(SetupOf(site), x, Serving(site, s.cache, r, w)), s'.cache, s'.metrics, reply)
  {
    hide Play, Get, Act, Store, Fetching, Failing, Build, RR.Flatten, RR.Chunks;
    var setup := SetupOf(site);
    if r.verb == "CONNECT" {
      if w.connects && w.accepts {
        TunnelEnds(setup, x);
      } else {
        FailingEnds(setup, x, w);
      }
    } else if r.verb == "GET" {
      if Look(site, s.cache, r, w).1.Some? {
        ReplayEnds(setup, x, w);
      } else {
        MissContinues(setup, x, w.storedAt, Fetching(site, r, w));
        var looked := Look(site, s.cache, r, w).0;
        FetchingEnds(site, Solo(w.storedAt, looked, x.metrics, x.conn.(phase := P.ConnectOrigin)), r, w);
      }
    } else {
      PlayOne(setup, x, At(w.storedAt), Fetching(site, r, w));
      ClockOnly(setup, x, w.storedAt);
      FetchingEnds(site, x.(now := w.storedAt), r, w);
    }
  }

  lemma LimitedEnds(setup: P.Setup, x: Solo, w: World)
    requires x.conn.phase.Limiting? && Untouched(x.conn)
    ensures Agrees(Play(setup, x, [Says(P.No), Says(P.Ok)] + Telling(w)), x.cache,
                   Told(x.metrics.(rateLimited := x.metrics.rateLimited + 1), w), Limited(0))
  {
    hide Play, Telling;
    PlayTwo(setup, x, Says(P.No), Says(P.Ok), Telling(w));
    TellingEnds(setup, Act(setup, Act(setup, x, Says(P.No)), Says(P.Ok)), w);
  }

  lemma RaisedEnds(setup: P.Setup, x: Solo, answer: P.Answer)
    requires x.conn.phase.Limiting? && Untouched(x.conn) && x.conn.verdict == P.Pending
    requires answer == P.No || answer == P.Yes
    ensures Agrees(Play(setup, x, [Says(answer), Says(P.Raise), Says(P.Ok)]), x.cache, Fail(x.metrics), Silent)
  {
    hide Play;
    assert [Says(answer), Says(P.Raise), Says(P.Ok)] == [Says(answer), Says(P.Raise)] + DONE;
    PlayTwo(setup, x, Says(answer), Says(P.Raise), DONE);
    ErringEnds(setup, Act(setup, Act(setup, x, Says(answer)), Says(P.Raise)));
  }

  lemma RefusedEnds(setup: P.Setup, x: Solo, w: World)
    requires x.conn.phase.Limiting? && Untouched(x.conn)
    ensures Agrees(Play(setup, x, [Says(P.Yes), Says(P.No)] + Telling(w)), x.cache, Told(x.metrics, w), Status(407))
  {
    hide Play, Telling;
    PlayTwo(setup, x, Says(P.Yes), Says(P.No), Telling(w));
    TellingEnds(setup, Act(setup, Act(setup, x, Says(P.Yes)), Says(P.No)), w);
  }

  /** The statements up to the verdict. */
  lemma DecideStep(setup: P.Setup, x: Solo, answer: P.Answer)
    requires (P.Early(x.conn.phase) || P.Deciding(x.conn.phase)) && answer != P.Raise
    ensures var (c, m) := P.Decide(x.metrics, x.conn, answer);
            Act(setup, x, Says(answer)) == x.(conn := c, metrics := m)
  {
    hide P.Decide;
  }

  /** Past the limiter and the password check, the blocklist answers, and its answer is counted. */
  lemma FilterSteps(setup: P.Setup, x: Solo, answer: P.Answer, rest: seq<Cue>)
    requires x.conn.phase.Limiting? && (answer == P.No || answer == P.Yes)
    ensures var phase := if answer == P.Yes then P.Send403 else P.Dispatch(x.conn.key.verb);
            var verdict := if answer == P.Yes then P.Blocked else P.Allowed;
            var m := x.metrics;
            var counted := if answer == P.Yes then m.(blocked := m.blocked + 1) else m.(allowed := m.allowed + 1);
            Play(setup, x, [Says(P.Yes), Says(P.Yes), Says(answer), Says(P.Ok)] + rest)
            == Play(setup, x.(metrics := counted, conn := x.conn.(phase := phase, verdict := verdict,
                      answers := x.conn.answers + [P.Yes] + [P.Yes] + [answer])), rest)
  {
    hide Play, Act;
    assert [Says(P.Yes), Says(P.Yes), Says(answer), Says(P.Ok)] + rest
           == [Says(P.Yes), Says(P.Yes), Says(answer)] + ([Says(P.Ok)] + rest);
    PlayThree(setup, x, Says(P.Yes), Says(P.Yes), Says(answer), [Says(P.Ok)] + rest);
    DecideStep(setup, x, P.Yes);
    var a := Act(setup, x, Says(P.Yes));
    DecideStep(setup, a, P.Yes);
    var b := Act(setup, a, Says(P.Yes));
    DecideStep(setup, b, answer);
    var c := Act(setup, b, Says(answer));
    PlayOne(setup, c, Says(P.Ok), rest);
    DecideStep(setup, c, P.Ok);
  }

  lemma BlockedEnds(setup: P.Setup, x: Solo, w: World)
    requires x.conn.phase.Limiting? && Untouched(x.conn)
    ensures Agrees(Play(setup, x, [Says(P.Yes), Says(P.Yes), Says(P.Yes), Says(P.Ok)] + Telling(w)), x.cache,
                   Told(x.metrics.(blocked := x.metrics.blocked + 1), w), Status(403))
  {
    hide Play, Telling, Act;
    FilterSteps(setup, x, P.Yes, Telling(w));
    TellingEnds(setup, x.(metrics := x.metrics.(blocked := x.metrics.blocked + 1),
                          conn := x.conn.(phase := P.Send403, verdict := P.Blocked,
                                          answers := x.conn.answers + [P.Yes] + [P.Yes] + [P.Yes])), w);
  }

  lemma ScreeningEnds(site: Site, s: Shared, x: Solo, r: Request, w: World)
    requires x.conn.phase.Limiting? && x.conn.key == KeyOf(r) && Untouched(x.conn) && x.conn.verdict == P.Pending
    requires x.now == w.lookupAt && x.cache == s.cache && x.metrics == s.metrics.(total := s.metrics.total + 1)
    ensures var (s', reply) := Screen(site, s, r, w);
            Agrees(Play(SetupOf(site), x, Screening(site, s, r, w)), s'.cache, s'.metrics, reply)
  {
    hide Play, Act, Telling, Serving, LetThrough, Limit, RetryAnswerOf, PasswordOf, OnBlocklist, P.Dispatch;
    var setup := SetupOf(site);
    var (registry, passes) := Limit(site, s.registry, w);
    if !passes {
      RaisedEnds(setup, x, P.No);
      LimitedEnds(setup, x, w);
    } else if PasswordOf(site, r) == Check.Raised {
      RaisedEnds(setup, x, P.Yes);
    } else if !PasswordOf(site, r).ok {
      RefusedEnds(setup, x, w);
    } else if OnBlocklist(site, r) {
      BlockedEnds(setup, x, w);
    } else {
      var m := x.metrics.(allowed := x.metrics.allowed + 1);
      FilterSteps(setup, x, P.No, Serving(site, s.cache, r, w));
      ServingEnds(site, Shared(registry, s.cache, m),
                  x.(metrics := m, conn := x.conn.(phase := P.Dispatch(r.verb), verdict := P.Allowed,
                                                   answers := x.conn.answers + [P.Yes] + [P.Yes] + [P.No])), r, w);
    }
  }

  lemma PlayNothing(setup: P.Setup, x: Solo)
    ensures Play(setup, x, []) == x
  {
  }

  lemma RaiseStep(setup: P.Setup, x: Solo)
    requires x.conn.phase != P.Done && x.conn.phase != P.Erring
    ensures Act(setup, x, Says(P.Raise)) == x.(conn := x.conn.(phase := P.Erring))
  {
  }

  /** Nothing was read, or nothing that is a request. */
  lemma NothingReadEnds(setup: P.Setup, now: real, cache: Cache, m: Metrics)
    ensures Agrees(Play(setup, Solo(now, cache, m, P.NewConn()), [Says(P.EmptyRead)]), cache, m, Silent)
  {
    hide Play, Act;
    var x := Solo(now, cache, m, P.NewConn());
    assert [Says(P.EmptyRead)] == [Says(P.EmptyRead)] + [];
    PlayOne(setup, x, Says(P.EmptyRead), []);
    DecideStep(setup, x, P.EmptyRead);
    PlayNothing(setup, Act(setup, x, Says(P.EmptyRead)));
  }

  lemma UnreadableEnds(setup: P.Setup, now: real, cache: Cache, m: Metrics)
    ensures Agrees(Play(setup, Solo(now, cache, m, P.NewConn()), [Says(P.Raise), Says(P.Ok)]), cache, Fail(m), Silent)
  {
    hide Play, Act;
    var x := Solo(now, cache, m, P.NewConn());
    assert [Says(P.Raise), Says(P.Ok)] == [Says(P.Raise)] + DONE;
    PlayOne(setup, x, Says(P.Raise), DONE);
    RaiseStep(setup, x);
    ErringEnds(setup, Act(setup, x, Says(P.Raise)));
  }

  lemma MalformedEnds(setup: P.Setup, now: real, cache: Cache, m: Metrics)
    ensures Agrees(Play(setup, Solo(now, cache, m, P.NewConn()), [Says(P.Malformed), Says(P.Ok), Says(P.Ok)]),
                   cache, Fail(m), Status(400))
  {
    hide Play, Act;
    var x := Solo(now, cache, m, P.NewConn());
    assert [Says(P.Malformed), Says(P.Ok), Says(P.Ok)] == [Says(P.Malformed), Says(P.Ok)] + DONE;
    PlayTwo(setup, x, Says(P.Malformed), Says(P.Ok), DONE);
    DecideStep(setup, x, P.Malformed);
    var y := Act(setup, x, Says(P.Malformed));
    DecideStep(setup, y, P.Ok);
    ErringEnds(setup, Act(setup, y, Says(P.Ok)));
  }

  lemma RequestBegins(setup: P.Setup, now: real, cache: Cache, m: Metrics, k: Key, later: real, rest: seq<Cue>)
    ensures Play(setup, Solo(now, cache, m, P.NewConn()), [Says(P.Request(k)), Says(P.Ok), At(later)] + rest)
            == Play(setup, Solo(later, cache, m.(total := m.total + 1),
                                P.NewConn().(phase := P.Limiting, key := k, counted := true)), rest)
  {
    hide Play;
    PlayThree(setup, Solo(now, cache, m, P.NewConn()), Says(P.Request(k)), Says(P.Ok), At(later), rest);
  }

  /** A handler of the machine with nobody beside it, given the answers the pipeline computes, leaves the cache and the
      counters as the pipeline does, and gives its client the same. */
  lemma HandlerAlone(site: Site, s: Shared, data: string, w: World, now: real)
    ensures var (s', reply) := Handle(site, s, data, w);
            Agrees(Play(SetupOf(site), Solo(now, s.cache, s.metrics, P.NewConn()), Cues(site, s, data, w)),
                   s'.cache, s'.metrics, reply)
  {
    hide Play, Act, Parse, Screen, Screening, Agrees;
    var setup := SetupOf(site);
    NothingReadEnds(setup, now, s.cache, s.metrics);
    UnreadableEnds(setup, now, s.cache, s.metrics);
    MalformedEnds(setup, now, s.cache, s.metrics);
    if data != "" && Parse(data, w.url).Parsed? {
      var r := Parse(data, w.url).request;
      RequestBegins(setup, now, s.cache, s.metrics, KeyOf(r), w.lookupAt, Screening(site, s, r, w));
      ScreeningEnds(site, s, Solo(w.lookupAt, s.cache, s.metrics.(total := s.metrics.total + 1),
                                  P.NewConn().(phase := P.Limiting, key := KeyOf(r), counted := true)), r, w);
    }
  }

  // ----- in the machine -----

  function EventOf(cue: Cue, i: nat): P.Event {
    match cue
    case At(now) => P.Clock(now)
    case Says(answer) => P.Step(i, answer)
  }

  function Events(cues: seq<Cue>, i: nat): seq<P.Event> {
    seq(|cues|, n requires 0 <= n < |cues| => EventOf(cues[n], i))
  }

  lemma MoveIsItsOwn(setup: P.Setup, s: P.State)
    ensures forall conn, answer :: P.Move(setup, s, conn, answer) == P.Move(setup, s.(conns := []), conn, answer)
  {
  }

  /** Playing alone is a run of the machine in which nobody else moves. */
  lemma {:induction false} PlayIsRun(setup: P.Setup, s: P.State, i: nat, cues: seq<Cue>)
    requires i < |s.conns|
    ensures var y := Play(setup, Solo(s.now, s.cache, s.metrics, s.conns[i]), cues);
            P.Run(setup, s, Events(cues, i)) == P.State(y.now, y.cache, y.metrics, s.conns[i := y.conn])
    decreases |cues|
  {
    hide P.Move;
    if cues != [] {
      var before, last := cues[..|cues| - 1], cues[|cues| - 1];
      PlayIsRun(setup, s, i, before);
      assert Events(cues, i)[..|cues| - 1] == Events(before, i);
      assert cues == before + [last];
      var x := Solo(s.now, s.cache, s.metrics, s.conns[i]);
      PlayAppend(setup, x, before, [last]);
      assert [last] == [last] + [];
      PlayOne(setup, Play(setup, x, before), last, []);
      PlayNothing(setup, Act(setup, Play(setup, x, before), last));
      MoveIsItsOwn(setup, P.Run(setup, s, Events(before, i)));
    } else {
      assert s.conns[i := s.conns[i]] == s.conns;
    }
  }

  /** So the machine can do whatever the pipeline does: from any state, a connection that is accepted and served before
      anybody else moves leaves the machine where the pipeline says, and everybody else where they were. */
  lemma MachineRunsPipeline(site: Site, s: P.State, registry: Registry, data: string, w: World)
    ensures var shared := Shared(registry, s.cache, s.metrics);
            var (s', reply) := Handle(site, shared, data, w);
            var n := |s.conns|;
            var end := P.Run(SetupOf(site), P.Apply(SetupOf(site), s, P.Accept), Events(Cues(site, shared, data, w), n));
            && end.cache == s'.cache && end.metrics == s'.metrics
            && |end.conns| == n + 1 && end.conns[..n] == s.conns && Shows(end.conns[n], reply)
  {
    hide Play, Cues, Handle, Shows;
    var setup, shared, n := SetupOf(site), Shared(registry, s.cache, s.metrics), |s.conns|;
    var s1 := P.Apply(setup, s, P.Accept);
    HandlerAlone(site, shared, data, w, s.now);
    PlayIsRun(setup, s1, n, Cues(site, shared, data, w));
    assert s1.conns[n] == P.NewConn();
  }
}
