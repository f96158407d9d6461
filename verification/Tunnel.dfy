/** The CONNECT tunnel: two relay threads, one per direction, and the handler thread that waits for them. */
module Tunnel {
  import opened Buffers

  /** How a relay loop was left: at the end of its input, or by an error. */
  datatype Outcome = Clean | Failed

  /** The call a relay thread is about to make; after `Shut` it has returned. */
  datatype Stage = Reading | Sending | Finished(outcome: Outcome) | Shut(outcome: Outcome)

  /** One direction: what its source has still to say, the chunk in hand, and what its destination was given. */
  datatype Pump = Pump(rest: string, pending: string, delivered: string, stage: Stage)

  /** What the operating system answers to a call. */
  datatype Answer = Bytes(count: nat) | Raises

  function Fresh(input: string): Pump {
    Pump(input, "", "", Reading)
  }

  /** A call moves at least one byte and at most `most`. */
  function Clamp(count: nat, most: nat): (k: nat)
    requires most > 0
    ensures 1 <= k <= most
  {
    if count == 0 then 1 else if count > most then most else count
  }

  function Receive(p: Pump, count: nat): Pump {
    if p.rest == "" then p.(stage := Finished(Clean))
    else
      var k := Clamp(count, Least(BUFFER_SIZE, |p.rest|));
      p.(rest := p.rest[k..], pending := p.rest[..k], stage := Sending)
  }

  function Send(p: Pump, count: nat): Pump {
    if p.pending == "" then p.(stage := Reading)
    else
      var k := Clamp(count, |p.pending|);
      p.(pending := p.pending[k..], delivered := p.delivered + p.pending[..k],
         stage := if k == |p.pending| then Reading else Sending)
  }

  /** One call of a relay thread. The write half is shut whatever way the loop ended. */
  function Turn(p: Pump, answer: Answer): Pump {
    match p.stage
    case Reading => if answer.Raises? then p.(stage := Finished(Failed)) else Receive(p, answer.count)
    case Sending => if answer.Raises? then p.(stage := Finished(Failed)) else Send(p, answer.count)
    case Finished(outcome) => p.(stage := Shut(outcome))
    case Shut(_) => p
  }

  function Play(p: Pump, answers: seq<Answer>): Pump
    decreases |answers|
  {
    if answers == [] then p else Play(Turn(p, answers[0]), answers[1..])
  }

  // ----- the relay thread as a loop -----

  lemma {:induction false} ShutIsFinal(p: Pump, answers: seq<Answer>)
    requires p.stage.Shut?
    ensures Play(p, answers) == p
    decreases |answers|
  {
    if answers != [] {
      ShutIsFinal(p, answers[1..]);
    }
  }

  /** The final clause of the thread. */
  method Leave(p: Pump, answers: seq<Answer>, i: nat) returns (r: Pump)
    requires p.stage.Finished? && i <= |answers|
    ensures r == Play(p, answers[i..])
  {
    if i == |answers| {
      return p;
    }
    r := p.(stage := Shut(p.stage.outcome));
    ShutIsFinal(r, answers[i..][1..]);
  }

  /** Reads a chunk, sends all of it, and again until the input ends or a call raises; then shuts the write half.
      The thread is left waiting where the answers run out. */
  method Forward(input: string, answers: seq<Answer>) returns (p: Pump)
    ensures p == Play(Fresh(input), answers)
  {
    var rest, delivered := input, "";
    var i := 0;
    var outcome := Clean;
    while i < |answers|
      invariant i <= |answers|
      invariant Play(Fresh(input), answers) == Play(Pump(rest, "", delivered, Reading), answers[i..])
      decreases |answers| - i
    {
      if answers[i].Raises? {
        p := Leave(Pump(rest, "", delivered, Finished(Failed)), answers, i + 1);
        return;
      }
      if rest == "" {
        p := Leave(Pump(rest, "", delivered, Finished(Clean)), answers, i + 1);
        return;
      }
      var k := Clamp(answers[i].count, Least(BUFFER_SIZE, |rest|));
      var data := rest[..k];
      rest := rest[k..];
      i := i + 1;
      ghost var start := i;
      while data != ""
        invariant start <= i <= |answers|
        invariant Play(Fresh(input), answers)
               == Play(Pump(rest, data, delivered, if data == "" then Reading else Sending), answers[i..])
        decreases |data|
      {
        if i == |answers| {
          return Pump(rest, data, delivered, Sending);
        }
        if answers[i].Raises? {
          p := Leave(Pump(rest, data, delivered, Finished(Failed)), answers, i + 1);
          return;
        }
        var n := Clamp(answers[i].count, |data|);
        delivered := delivered + data[..n];
        data := data[n..];
        i := i + 1;
      }
    }
    p := Pump(rest, "", delivered, Reading);
  }

  // ----- one direction -----

  /** Left its loop at the end of its input. */
  predicate IsComplete(p: Pump) {
    p.stage == Finished(Clean) || p.stage == Shut(Clean)
  }

  /** Every byte is delivered, in hand, or still to be read, in that order. */
  ghost predicate Conserves(p: Pump, input: string) {
    && p.delivered + p.pending + p.rest == input
    && |p.pending| <= BUFFER_SIZE
    && (p.stage.Reading? ==> p.pending == "")
    && (p.stage.Sending? ==> p.pending != "")
    && (IsComplete(p) ==> p.pending == p.rest == "")
  }

  lemma ReceiveConserves(p: Pump, count: nat, input: string)
    requires Conserves(p, input) && p.stage.Reading?
    ensures Conserves(Receive(p, count), input)
  {
    if p.rest != "" {
      var q := Receive(p, count);
      assert q.pending + q.rest == p.rest;
      assert q.delivered + q.pending + q.rest == p.delivered + (q.pending + q.rest);
      assert p.delivered + p.pending + p.rest == p.delivered + p.rest;
    }
  }

  lemma SendConserves(p: Pump, count: nat, input: string)
    requires Conserves(p, input) && p.stage.Sending?
    ensures Conserves(Send(p, count), input)
  {
    var q := Send(p, count);
    var k := Clamp(count, |p.pending|);
    assert p.pending == p.pending[..k] + q.pending;
    assert q.delivered + q.pending + q.rest == p.delivered + (p.pending[..k] + q.pending) + p.rest;
  }

  lemma TurnConserves(p: Pump, answer: Answer, input: string)
    requires Conserves(p, input)
    ensures Conserves(Turn(p, answer), input)
  {
    hide Receive, Send;
    if answer.Bytes? && p.stage.Reading? {
      ReceiveConserves(p, answer.count, input);
    } else if answer.Bytes? && p.stage.Sending? {
      SendConserves(p, answer.count, input);
    }
  }

  lemma {:induction false} PlayConserves(p: Pump, answers: seq<Answer>, input: string)
    requires Conserves(p, input)
    ensures Conserves(Play(p, answers), input)
    decreases |answers|
  {
    if answers != [] {
      TurnConserves(p, answers[0], input);
      PlayConserves(Turn(p, answers[0]), answers[1..], input);
    }
  }

  ghost predicate Quiet(answers: seq<Answer>) {
    forall a :: a in answers ==> a.Bytes?
  }

  predicate HasFailed(p: Pump) {
    p.stage == Finished(Failed) || p.stage == Shut(Failed)
  }

  /** Only a call that raises makes a direction fail. */
  lemma {:induction false} QuietNeverFails(p: Pump, answers: seq<Answer>)
    requires Quiet(answers) && !HasFailed(p)
    ensures !HasFailed(Play(p, answers))
    decreases |answers|
  {
    if answers != [] {
      assert answers[0] in answers;
      QuietNeverFails(Turn(p, answers[0]), answers[1..]);
    }
  }

  /** What a relay thread has still to do, at most. */
  function Work(p: Pump): nat {
    match p.stage
    case Reading => 2 * |p.rest| + 3
    case Sending => 2 * |p.rest| + |p.pending| + 3
    case Finished(_) => 1
    case Shut(_) => 0
  }

  lemma {:induction false} PlayFinishes(p: Pump, answers: seq<Answer>, input: string)
    requires Conserves(p, input) && |answers| >= Work(p)
    ensures Play(p, answers).stage.Shut?
    decreases |answers|
  {
    if p.stage.Shut? {
      ShutIsFinal(p, answers);
    } else {
      TurnConserves(p, answers[0], input);
      PlayFinishes(Turn(p, answers[0]), answers[1..], input);
    }
  }

  // ----- two threads on two sockets -----

  /** A connected socket: what its peer sent and nobody read yet, what its peer was given, whether its write half is
      shut, and whether it is closed. */
  datatype Socket = Socket(inbound: string, outbound: string, shut: bool, closed: bool)

  /** A relay thread's own variables. */
  datatype Thread = Thread(pending: string, stage: Stage)

  datatype Side = Upward | Downward

  /** The handler thread waits for one relay thread, then for the other, then closes the server's socket and then
      the client's. */
  datatype Waiting = ForUpward | ForDownward | ClosingServer | ClosingClient | Gone

  /** The upward thread reads the client's socket and writes the server's; the downward thread the other way round. */
  datatype State = State(client: Socket, server: Socket, up: Thread, down: Thread, handler: Waiting)

  datatype Event = Call(side: Side, answer: Answer) | Wait(timedOut: bool)

  function Start(sentUp: string, sentDown: string): State {
    State(Socket(sentUp, "", false, false), Socket(sentDown, "", false, false),
          Thread("", Reading), Thread("", Reading), ForUpward)
  }

  function ReadFrom(src: Socket, count: nat): (Socket, string)
    requires src.inbound != ""
  {
    var k := Clamp(count, Least(BUFFER_SIZE, |src.inbound|));
    (src.(inbound := src.inbound[k..]), src.inbound[..k])
  }

  function WriteTo(dst: Socket, data: string): Socket {
    dst.(outbound := dst.outbound + data)
  }

  /** One call of a relay thread. A closed socket fails every call, a shut write half only those that write. */
  function CallOn(src: Socket, dst: Socket, t: Thread, answer: Answer): (Socket, Socket, Thread) {
    match t.stage
    case Reading =>
      if src.closed || answer.Raises? then (src, dst, t.(stage := Finished(Failed)))
      else if src.inbound == "" then (src, dst, t.(stage := Finished(Clean)))
      else
        var (src', data) := ReadFrom(src, answer.count);
        (src', dst, Thread(data, Sending))
    case Sending =>
      if dst.closed || dst.shut || answer.Raises? then (src, dst, t.(stage := Finished(Failed)))
      else if t.pending == "" then (src, dst, t.(stage := Reading))
      else
        var k := Clamp(answer.count, |t.pending|);
        (src, WriteTo(dst, t.pending[..k]), Thread(t.pending[k..], if k == |t.pending| then Reading else Sending))
    case Finished(outcome) =>
      (src, if dst.closed || answer.Raises? then dst else dst.(shut := true), t.(stage := Shut(outcome)))
    case Shut(_) => (src, dst, t)
  }

  function Apply(s: State, event: Event): State {
    match event
    case Call(Upward, answer) =>
      var (client, server, up) := CallOn(s.client, s.server, s.up, answer);
      s.(client := client, server := server, up := up)
    case Call(Downward, answer) =>
      var (server, client, down) := CallOn(s.server, s.client, s.down, answer);
      s.(client := client, server := server, down := down)
    case Wait(timedOut) =>
      match s.handler
      case ForUpward => if timedOut || s.up.stage.Shut? then s.(handler := ForDownward) else s
      case ForDownward => if timedOut || s.down.stage.Shut? then s.(handler := ClosingServer) else s
      case ClosingServer => s.(handler := ClosingClient, server := s.server.(closed := true))
      case ClosingClient => s.(handler := Gone, client := s.client.(closed := true))
      case Gone => s
  }

  function Run(s: State, events: seq<Event>): State
    decreases |events|
  {
    if events == [] then s else Run(Apply(s, events[0]), events[1..])
  }

  function SourceOf(s: State, side: Side): Socket {
    if side.Upward? then s.client else s.server
  }

  function TargetOf(s: State, side: Side): Socket {
    if side.Upward? then s.server else s.client
  }

  function ThreadOf(s: State, side: Side): Thread {
    if side.Upward? then s.up else s.down
  }

  /** One direction, as the two sockets and its thread show it. */
  function PumpOf(s: State, side: Side): Pump {
    var t := ThreadOf(s, side);
    Pump(SourceOf(s, side).inbound, t.pending, TargetOf(s, side).outbound, t.stage)
  }

  /** What an answer amounts to for the call a thread is about to make. */
  function Effective(s: State, side: Side, answer: Answer): Answer {
    var stage := ThreadOf(s, side).stage;
    if (stage.Reading? && SourceOf(s, side).closed)
       || (stage.Sending? && (TargetOf(s, side).closed || TargetOf(s, side).shut)) then Raises else answer
  }

  /** A call does to its own direction what the thread does alone with that answer. */
  lemma CallMovesOwn(s: State, side: Side, answer: Answer)
    ensures PumpOf(Apply(s, Call(side, answer)), side) == Turn(PumpOf(s, side), Effective(s, side, answer))
  {
  }

  /** And nothing to the other one, although they share both sockets: not to what it reads or delivers, and not to how
      its next call fares, be the call a read, a write or the shutdown. */
  lemma CallLeavesOther(s: State, side: Side, answer: Answer, other: Side, later: Answer)
    requires other != side
    ensures PumpOf(Apply(s, Call(side, answer)), other) == PumpOf(s, other)
    ensures Effective(Apply(s, Call(side, answer)), other, later) == Effective(s, other, later)
  {
  }

  // ----- runs -----

  /** A write half is shut only after its thread's loop, and sockets are closed only by the handler's last steps. */
  ghost predicate InOrder(s: State) {
    && (s.server.shut ==> s.up.stage.Shut?) && (s.client.shut ==> s.down.stage.Shut?)
    && (s.server.closed <==> s.handler.ClosingClient? || s.handler.Gone?)
    && (s.client.closed <==> s.handler.Gone?)
  }

  lemma ApplyInOrder(s: State, event: Event)
    requires InOrder(s)
    ensures InOrder(Apply(s, event))
  {
  }

  lemma {:induction false} RunInOrder(s: State, events: seq<Event>)
    requires InOrder(s)
    ensures InOrder(Run(s, events))
    decreases |events|
  {
    hide InOrder, Apply;
    if events != [] {
      ApplyInOrder(s, events[0]);
      RunInOrder(Apply(s, events[0]), events[1..]);
    }
  }

  /** The answers to one direction's calls. */
  function Answers(events: seq<Event>, side: Side): seq<Answer> {
    if events == [] then []
    else if events[0].Call? && events[0].side == side then [events[0].answer] + Answers(events[1..], side)
    else Answers(events[1..], side)
  }

  /** What they amount to in this run. */
  function Seen(s: State, events: seq<Event>, side: Side): seq<Answer>
    decreases |events|
  {
    if events == [] then []
    else
      var rest := Seen(Apply(s, events[0]), events[1..], side);
      if events[0].Call? && events[0].side == side then [Effective(s, side, events[0].answer)] + rest else rest
  }

  lemma EventMoves(s: State, event: Event, side: Side)
    ensures PumpOf(Apply(s, event), side)
            == if event.Call? && event.side == side then Turn(PumpOf(s, side), Effective(s, side, event.answer))
               else PumpOf(s, side)
  {
    hide CallOn, Turn;
    if event.Call? {
      CallMovesOwn(s, event.side, event.answer);
      if event.side != side {
        CallLeavesOther(s, event.side, event.answer, side, Raises);
      }
    }
  }

  /** Every run is, for each direction, a run of its thread alone. */
  lemma {:induction false} RunIsPlay(s: State, events: seq<Event>, side: Side)
    ensures PumpOf(Run(s, events), side) == Play(PumpOf(s, side), Seen(s, events, side))
    ensures |Seen(s, events, side)| == |Answers(events, side)|
    decreases |events|
  {
    hide Apply, PumpOf, Turn, Effective;
    if events != [] {
      EventMoves(s, events[0], side);
      RunIsPlay(Apply(s, events[0]), events[1..], side);
      if events[0].Call? && events[0].side == side {
        assert Seen(s, events, side)[1..] == Seen(Apply(s, events[0]), events[1..], side);
      }
    }
  }

  /** The handler is waiting for this direction's thread... */
  predicate WaitsFor(h: Waiting, side: Side) {
    if side.Upward? then h.ForUpward? else h.ForDownward?
  }

  /** ...or has done so. */
  predicate WaitedFor(h: Waiting, side: Side) {
    !h.ForUpward? && (side.Downward? ==> !h.ForDownward?)
  }

  /** A wait that runs out while the thread it is for is still at work. */
  predicate GivesUp(s: State, event: Event, side: Side) {
    event == Wait(true) && WaitsFor(s.handler, side) && !ThreadOf(s, side).stage.Shut?
  }

  predicate GivenUp(s: State, events: seq<Event>, side: Side)
    decreases |events|
  {
    events != [] && (GivesUp(s, events[0], side) || GivenUp(Apply(s, events[0]), events[1..], side))
  }

  /** A handler that has not given a thread up moves on only past its end. */
  ghost predicate Patient(s: State, side: Side) {
    InOrder(s) && (WaitedFor(s.handler, side) ==> ThreadOf(s, side).stage.Shut?)
  }

  lemma ApplyPatient(s: State, event: Event, side: Side)
    requires Patient(s, side) && !GivesUp(s, event, side)
    ensures Patient(Apply(s, event), side)
  {
    ApplyInOrder(s, event);
  }

  /** So closing the sockets spoils no call of it. */
  lemma PatientMove(s: State, side: Side, answer: Answer)
    requires Patient(s, side)
    ensures Turn(PumpOf(s, side), Effective(s, side, answer)) == Turn(PumpOf(s, side), answer)
  {
  }

  lemma {:induction false} PatientRun(s: State, events: seq<Event>, side: Side)
    requires Patient(s, side) && !GivenUp(s, events, side)
    ensures Patient(Run(s, events), side)
    ensures PumpOf(Run(s, events), side) == Play(PumpOf(s, side), Answers(events, side))
    decreases |events|
  {
    hide Apply, PumpOf, Turn, Effective, Patient, GivesUp;
    if events != [] {
      ApplyPatient(s, events[0], side);
      EventMoves(s, events[0], side);
      PatientRun(Apply(s, events[0]), events[1..], side);
      if events[0].Call? && events[0].side == side {
        PatientMove(s, side, events[0].answer);
        assert Answers(events, side)[1..] == Answers(events[1..], side);
      }
    }
  }

  function Sent(sentUp: string, sentDown: string, side: Side): string {
    if side.Upward? then sentUp else sentDown
  }

  lemma StartIsPatient(sentUp: string, sentDown: string, side: Side)
    ensures Patient(Start(sentUp, sentDown), side)
    ensures PumpOf(Start(sentUp, sentDown), side) == Fresh(Sent(sentUp, sentDown, side))
  {
  }

  /** Neither thread changes what the other reads, delivers or how it ends: unless the wait for its own thread ran out
      too early, a direction is, under every interleaving with the other's calls, its shutdown, whatever comes of the
      other wait, and the final close, where its own answers alone bring it. */
  lemma DirectionsAreIndependent(sentUp: string, sentDown: string, events: seq<Event>, side: Side)
    requires !GivenUp(Start(sentUp, sentDown), events, side)
    ensures PumpOf(Run(Start(sentUp, sentDown), events), side)
            == Play(Fresh(Sent(sentUp, sentDown, side)), Answers(events, side))
  {
    StartIsPatient(sentUp, sentDown, side);
    PatientRun(Start(sentUp, sentDown), events, side);
  }

  /** In every interleaving, each side was given, in order, a beginning of what the other side sent; what is missing is
      at most one buffer in hand plus what was not read. A direction that ended without an error delivered everything,
      and one that failed saw a call raise or was given up. */
  lemma DeliveredInOrder(sentUp: string, sentDown: string, events: seq<Event>, side: Side)
    ensures var p := PumpOf(Run(Start(sentUp, sentDown), events), side);
            var sent := Sent(sentUp, sentDown, side);
            && p.delivered <= sent
            && sent == p.delivered + p.pending + p.rest && |p.pending| <= BUFFER_SIZE
            && (IsComplete(p) ==> p.delivered == sent)
            && (HasFailed(p) ==> !Quiet(Answers(events, side)) || GivenUp(Start(sentUp, sentDown), events, side))
  {
    hide Play, Run, Seen, Quiet, GivenUp, Start;
    var input := Sent(sentUp, sentDown, side);
    StartIsPatient(sentUp, sentDown, side);
    RunIsPlay(Start(sentUp, sentDown), events, side);
    var seen := Seen(Start(sentUp, sentDown), events, side);
    PlayConserves(Fresh(input), seen, input);
    if !GivenUp(Start(sentUp, sentDown), events, side) && Quiet(Answers(events, side)) {
      DirectionsAreIndependent(sentUp, sentDown, events, side);
      QuietNeverFails(Fresh(input), Answers(events, side));
    }
  }

  lemma {:induction false} RunSplit(s: State, first: seq<Event>, second: seq<Event>)
    ensures Run(s, first + second) == Run(Run(s, first), second)
    decreases |first|
  {
    if first == [] {
      assert first + second == second;
    } else {
      assert (first + second)[1..] == first[1..] + second;
      RunSplit(Apply(s, first[0]), first[1..], second);
    }
  }

  /** A write half is shut only when its thread's loop is over, in every interleaving, and from then on nothing more is
      written to that socket. */
  lemma NothingAfterShutdown(sentUp: string, sentDown: string, events: seq<Event>, more: seq<Event>, side: Side)
    requires TargetOf(Run(Start(sentUp, sentDown), events), side).shut
    ensures var s, later := Run(Start(sentUp, sentDown), events), Run(Start(sentUp, sentDown), events + more);
            ThreadOf(s, side).stage.Shut? && PumpOf(later, side) == PumpOf(s, side)
  {
    hide Run, Apply, Seen;
    var s := Start(sentUp, sentDown);
    StartIsPatient(sentUp, sentDown, side);
    RunInOrder(s, events);
    RunSplit(s, events, more);
    RunIsPlay(Run(s, events), more, side);
    ShutIsFinal(PumpOf(Run(s, events), side), Seen(Run(s, events), more, side));
  }

  // ----- the end of input is passed on -----

  lemma RunStep(s: State, event: Event, rest: seq<Event>)
    ensures Run(s, [event] + rest) == Run(Apply(s, event), rest)
    ensures forall side :: Answers([event] + rest, side)
              == (if event.Call? && event.side == side then [event.answer] else []) + Answers(rest, side)
  {
    assert ([event] + rest)[1..] == rest;
  }

  /** A thread that is over has shut the write half it wrote to. */
  ghost predicate Told(s: State, side: Side) {
    ThreadOf(s, side).stage.Shut? ==> TargetOf(s, side).shut
  }

  lemma ApplyTells(s: State, event: Event, side: Side)
    requires Patient(s, side) && Told(s, side)
    requires event.Call? && event.side == side ==> event.answer.Bytes?
    ensures Told(Apply(s, event), side)
  {
  }

  lemma {:induction false} RunTells(s: State, events: seq<Event>, side: Side)
    requires Patient(s, side) && Told(s, side) && !GivenUp(s, events, side) && Quiet(Answers(events, side))
    ensures Told(Run(s, events), side)
    decreases |events|
  {
    hide Apply, Patient, Told, GivesUp;
    if events != [] {
      ApplyTells(s, events[0], side);
      ApplyPatient(s, events[0], side);
      RunTells(Apply(s, events[0]), events[1..], side);
    }
  }

  /** The other side learns that the input has ended: when a thread is over, none of its calls has raised and it was not
      given up, the write half it wrote to is shut, in every interleaving. */
  lemma EndOfInputIsPassedOn(sentUp: string, sentDown: string, events: seq<Event>, side: Side)
    requires Quiet(Answers(events, side)) && !GivenUp(Start(sentUp, sentDown), events, side)
    ensures var s := Run(Start(sentUp, sentDown), events);
            ThreadOf(s, side).stage.Shut? <==> TargetOf(s, side).shut
  {
    hide Run, GivenUp, Quiet, Answers, Apply;
    StartIsPatient(sentUp, sentDown, side);
    RunTells(Start(sentUp, sentDown), events, side);
    RunInOrder(Start(sentUp, sentDown), events);
  }

  lemma ShutStays(s: State, event: Event, side: Side)
    requires TargetOf(s, side).shut
    ensures TargetOf(Apply(s, event), side).shut
  {
  }

  lemma {:induction false} ShutForGood(s: State, events: seq<Event>, side: Side)
    requires TargetOf(s, side).shut
    ensures TargetOf(Run(s, events), side).shut
    decreases |events|
  {
    hide Apply, TargetOf;
    if events != [] {
      ShutStays(s, events[0], side);
      ShutForGood(Apply(s, events[0]), events[1..], side);
    }
  }

  /** The same after an error: whatever ended the loop, unless the shutdown itself raises or the thread was given up before
      it, the write half is shut from then on. */
  lemma ErrorsArePassedOnToo(sentUp: string, sentDown: string, first: seq<Event>, count: nat, more: seq<Event>, side: Side)
    requires ThreadOf(Run(Start(sentUp, sentDown), first), side).stage.Finished?
    requires !GivenUp(Start(sentUp, sentDown), first, side)
    ensures TargetOf(Run(Start(sentUp, sentDown), first + [Call(side, Bytes(count))] + more), side).shut
  {
    hide Run, GivenUp;
    var s, call := Start(sentUp, sentDown), Call(side, Bytes(count));
    StartIsPatient(sentUp, sentDown, side);
    PatientRun(s, first, side);
    RunSplit(s, first, [call] + more);
    RunStep(Run(s, first), call, more);
    assert first + [call] + more == first + ([call] + more);
    ShutForGood(Apply(Run(s, first), call), more, side);
  }

  lemma OverAndQuiet(sentUp: string, sentDown: string, events: seq<Event>, side: Side)
    requires ThreadOf(Run(Start(sentUp, sentDown), events), side).stage.Shut?
    requires Quiet(Answers(events, side)) && !GivenUp(Start(sentUp, sentDown), events, side)
    ensures PumpOf(Run(Start(sentUp, sentDown), events), side)
            == Pump("", "", Sent(sentUp, sentDown, side), Shut(Clean))
    ensures TargetOf(Run(Start(sentUp, sentDown), events), side).shut
  {
    hide Play, Run, Quiet, Answers, GivenUp, Start;
    EndOfInputIsPassedOn(sentUp, sentDown, events, side);
    var input := Sent(sentUp, sentDown, side);
    var p := Play(Fresh(input), Answers(events, side));
    DirectionsAreIndependent(sentUp, sentDown, events, side);
    PlayConserves(Fresh(input), Answers(events, side), input);
    QuietNeverFails(Fresh(input), Answers(events, side));
    assert p.stage == Shut(p.stage.outcome) && p.stage.outcome.Clean?;
  }

  /** Termination: a direction is over after `2n + 3` calls at most, however they interleave with the other's, where `n`
      bytes were sent to it; and if no call raised and it was not given up, all of them arrived, and then the end of
      input. */
  lemma FinishesAndDelivers(sentUp: string, sentDown: string, events: seq<Event>, side: Side)
    requires |Answers(events, side)| >= 2 * |Sent(sentUp, sentDown, side)| + 3
    ensures var p := PumpOf(Run(Start(sentUp, sentDown), events), side);
            && p.stage.Shut?
            && (Quiet(Answers(events, side)) && !GivenUp(Start(sentUp, sentDown), events, side)
                ==> p == Pump("", "", Sent(sentUp, sentDown, side), Shut(Clean))
                    && TargetOf(Run(Start(sentUp, sentDown), events), side).shut)
  {
    hide Play, Run, Seen, Quiet, Answers, GivenUp, Start;
    var input := Sent(sentUp, sentDown, side);
    StartIsPatient(sentUp, sentDown, side);
    RunIsPlay(Start(sentUp, sentDown), events, side);
    var seen := Seen(Start(sentUp, sentDown), events, side);
    PlayFinishes(Fresh(input), seen, input);
    if Quiet(Answers(events, side)) && !GivenUp(Start(sentUp, sentDown), events, side) {
      OverAndQuiet(sentUp, sentDown, events, side);
    }
  }

  /** The close: when a socket is closed, a thread that was not given up is over, and if none of its calls raised it has
      lost nothing. */
  lemma CloseLosesNothing(sentUp: string, sentDown: string, events: seq<Event>, side: Side)
    requires !GivenUp(Start(sentUp, sentDown), events, side)
    requires var s := Run(Start(sentUp, sentDown), events);
             s.client.closed || s.server.closed
    ensures var s := Run(Start(sentUp, sentDown), events);
            && ThreadOf(s, side).stage.Shut?
            && (Quiet(Answers(events, side)) ==> TargetOf(s, side).outbound == Sent(sentUp, sentDown, side)
                                                 && TargetOf(s, side).shut)
  {
    hide Play, Run, Quiet, Answers, GivenUp, Start;
    StartIsPatient(sentUp, sentDown, side);
    PatientRun(Start(sentUp, sentDown), events, side);
    if Quiet(Answers(events, side)) {
      OverAndQuiet(sentUp, sentDown, events, side);
    }
  }

  /** Nobody is given up when no wait times out. */
  lemma {:induction false} NoTimeoutNoGivingUp(s: State, events: seq<Event>, side: Side)
    requires Wait(true) !in events
    ensures !GivenUp(s, events, side)
    decreases |events|
  {
    if events != [] {
      assert events[0] in events && forall e :: e in events[1..] ==> e in events;
      NoTimeoutNoGivingUp(Apply(s, events[0]), events[1..], side);
    }
  }

  lemma {:induction false} FailedStays(p: Pump, answers: seq<Answer>)
    requires HasFailed(p)
    ensures HasFailed(Play(p, answers))
    decreases |answers|
  {
    if answers != [] {
      FailedStays(Turn(p, answers[0]), answers[1..]);
    }
  }

  /** A call that comes upon a closed socket ends its direction. */
  lemma {:induction false} SpoiledCallFails(s: State, events: seq<Event>, side: Side)
    requires Quiet(Answers(events, side)) && !Quiet(Seen(s, events, side))
    ensures HasFailed(PumpOf(Run(s, events), side))
    decreases |events|
  {
    hide Apply, HasFailed;
    if events != [] {
      var next := Apply(s, events[0]);
      EventMoves(s, events[0], side);
      if events[0].Call? && events[0].side == side {
        assert events[0].answer in Answers(events, side);
        assert forall a :: a in Answers(events[1..], side) ==> a in Answers(events, side);
        if Effective(s, side, events[0].answer).Raises? {
          RunIsPlay(next, events[1..], side);
          FailedStays(PumpOf(next, side), Seen(next, events[1..], side));
          return;
        }
      }
      SpoiledCallFails(next, events[1..], side);
    }
  }

  /** How bytes are lost without a raising call: exactly by a call that comes upon a socket the handler had closed. */
  lemma DeliversAllIff(sentUp: string, sentDown: string, events: seq<Event>, side: Side)
    requires ThreadOf(Run(Start(sentUp, sentDown), events), side).stage.Shut? && Quiet(Answers(events, side))
    ensures PumpOf(Run(Start(sentUp, sentDown), events), side)
            == Pump("", "", Sent(sentUp, sentDown, side), Shut(Clean))
       <==> Quiet(Seen(Start(sentUp, sentDown), events, side))
  {
    hide Play, Run, Seen, Quiet, Answers;
    var input := Sent(sentUp, sentDown, side);
    var seen := Seen(Start(sentUp, sentDown), events, side);
    StartIsPatient(sentUp, sentDown, side);
    RunIsPlay(Start(sentUp, sentDown), events, side);
    if Quiet(seen) {
      PlayConserves(Fresh(input), seen, input);
      QuietNeverFails(Fresh(input), seen);
      var p := Play(Fresh(input), seen);
      assert p.stage == Shut(p.stage.outcome) && p.stage.outcome.Clean?;
    } else {
      SpoiledCallFails(Start(sentUp, sentDown), events, side);
    }
  }

  // ----- what giving up costs -----

  function TwoCalls(side: Side): seq<Event> {
    [Call(side, Bytes(1)), Call(side, Bytes(1))]
  }

  function Closing(side: Side): seq<Event> {
    (if side.Upward? then [Wait(true)] else []) + ([Wait(false), Wait(false)] + TwoCalls(side))
  }

  /** The rest of a run in which the handler gives one thread up, and closes both sockets before that thread calls. */
  function Abandoning(side: Side): (events: seq<Event>)
    ensures events != [] && events[0] == Wait(true)
  {
    [Wait(true)] + Closing(side)
  }

  /** Both sockets closed, nothing else changed. */
  function ClosedOn(s: State): State {
    s.(client := s.client.(closed := true), server := s.server.(closed := true), handler := Gone)
  }

  lemma CallsAreQuiet(side: Side)
    ensures Quiet(Answers(TwoCalls(side), side))
  {
    RunStep(Start("", ""), Call(side, Bytes(1)), [Call(side, Bytes(1))]);
    RunStep(Start("", ""), Call(side, Bytes(1)), []);
    assert TwoCalls(side) == [Call(side, Bytes(1))] + [Call(side, Bytes(1))];
    assert [Call(side, Bytes(1))] + [] == [Call(side, Bytes(1))];
  }

  lemma AbandoningCloses(s: State, side: Side)
    requires WaitsFor(s.handler, side)
    ensures Run(s, Abandoning(side)) == Run(ClosedOn(s), TwoCalls(side)) && Quiet(Answers(Abandoning(side), side))
  {
    hide Run, Answers;
    var calls := TwoCalls(side);
    var one, two := [Wait(false)] + calls, [Wait(false)] + ([Wait(false)] + calls);
    assert [Wait(false), Wait(false)] + calls == two;
    var closing := s.(handler := ClosingServer);
    RunStep(closing, Wait(false), one);
    RunStep(Apply(closing, Wait(false)), Wait(false), calls);
    assert Apply(Apply(closing, Wait(false)), Wait(false)) == ClosedOn(s);
    if side.Upward? {
      RunStep(s, Wait(true), Closing(side));
      RunStep(s.(handler := ForDownward), Wait(true), two);
    } else {
      assert Closing(side) == two;
      RunStep(s, Wait(true), two);
    }
    CallsAreQuiet(side);
  }

  lemma RunNothing(s: State)
    ensures Run(s, []) == s
  {
  }

  /** A thread at work fails at its next call on closed sockets. */
  lemma ClosedFails(s: State, side: Side)
    requires var stage := ThreadOf(s, side).stage;
             stage.Reading? || stage.Sending? || stage == Finished(Failed)
    ensures var p := PumpOf(Run(ClosedOn(s), TwoCalls(side)), side);
            p.stage == Shut(Failed) && p.delivered == PumpOf(s, side).delivered
  {
    hide Run;
    var call := Call(side, Bytes(1));
    assert TwoCalls(side) == [call] + [call] && [call] + [] == [call];
    RunStep(ClosedOn(s), call, [call]);
    RunStep(Apply(ClosedOn(s), call), call, []);
    RunNothing(Apply(Apply(ClosedOn(s), call), call));
  }

  lemma {:induction false} GivenUpLater(s: State, first: seq<Event>, second: seq<Event>, side: Side)
    requires GivenUp(Run(s, first), second, side)
    ensures GivenUp(s, first + second, side)
    decreases |first|
  {
    if first == [] {
      assert first + second == second;
    } else {
      assert (first + second)[1..] == first[1..] + second;
      GivenUpLater(Apply(s, first[0]), first[1..], second, side);
    }
  }

  /** Giving a thread up can always cost what it has not delivered yet: whatever the run so far, as long as bytes are
      missing when its wait runs out, the run can go on so that they never arrive, although no call raises of itself. */
  lemma GivingUpLoses(sentUp: string, sentDown: string, events: seq<Event>, side: Side)
    requires var s := Run(Start(sentUp, sentDown), events);
             && WaitsFor(s.handler, side) && !ThreadOf(s, side).stage.Shut?
             && PumpOf(s, side).delivered != Sent(sentUp, sentDown, side)
    ensures Quiet(Answers(Abandoning(side), side))
    ensures GivenUp(Start(sentUp, sentDown), events + Abandoning(side), side)
    ensures var p := PumpOf(Run(Start(sentUp, sentDown), events + Abandoning(side)), side);
            p.stage == Shut(Failed) && p.delivered == PumpOf(Run(Start(sentUp, sentDown), events), side).delivered
  {
    hide Run, Abandoning, Closing, TwoCalls;
    var s := Run(Start(sentUp, sentDown), events);
    DeliveredInOrder(sentUp, sentDown, events, side);
    RunSplit(Start(sentUp, sentDown), events, Abandoning(side));
    AbandoningCloses(s, side);
    var stage := ThreadOf(s, side).stage;
    assert !IsComplete(PumpOf(s, side));
    assert stage.Finished? ==> stage == Finished(stage.outcome) && stage.outcome.Failed?;
    ClosedFails(s, side);
    GivenUpLater(Start(sentUp, sentDown), events, Abandoning(side), side);
  }

  /** For every input there is such a run: in both directions, nothing at all arrives. */
  lemma EveryInputCanBeLost(sentUp: string, sentDown: string, side: Side) returns (events: seq<Event>)
    requires Sent(sentUp, sentDown, side) != ""
    ensures Quiet(Answers(events, side)) && GivenUp(Start(sentUp, sentDown), events, side)
    ensures var p := PumpOf(Run(Start(sentUp, sentDown), events), side);
            p.stage == Shut(Failed) && p.delivered == ""
  {
    hide Run, Abandoning;
    var s := Start(sentUp, sentDown);
    var first := if side.Upward? then [] else [Wait(true)];
    RunNothing(s);
    RunStep(s, Wait(true), []);
    assert [Wait(true)] + [] == [Wait(true)];
    RunNothing(Apply(s, Wait(true)));
    GivingUpLoses(sentUp, sentDown, first, side);
    events := first + Abandoning(side);
    if side.Downward? {
      RunStep(s, Wait(true), Abandoning(side));
    } else {
      assert [] + Abandoning(side) == Abandoning(side);
    }
  }
}
