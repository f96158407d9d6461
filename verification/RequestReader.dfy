/** Reading one request off a socket: the framing loop, and what it does not depend on. */
module RequestReader {
  import opened Buffers
  import opened Options
  import opened Text
  import opened HeadLines

  const MAX_HEADER_SIZE: nat := 65536

  /** The other end of a socket: the bytes it sends, at each offset how many of them are ready together,
      and whether the stream ends in an error (a timeout, a reset) or in an orderly close. */
  datatype Peer = Peer(stream: string, ready: seq<nat>, failing: bool)

  predicate ValidPeer(peer: Peer) {
    |peer.ready| == |peer.stream| && forall n :: n in peer.ready ==> n >= 1
  }

  /** How many bytes recv(max) takes at an offset before the end. */
  function Taken(peer: Peer, pos: nat, max: nat): (n: nat)
    requires ValidPeer(peer) && pos < |peer.stream|
    ensures n <= max && pos + n <= |peer.stream| && (max > 0 ==> n >= 1)
  {
    assert peer.ready[pos] in peer.ready;
    Least(Least(peer.ready[pos], max), |peer.stream| - pos)
  }

  datatype Received = Chunk(data: string) | Closed | Failed

  class Socket {
    const peer: Peer
    var pos: nat

    ghost predicate Valid()
      reads this
    {
      ValidPeer(peer) && pos <= |peer.stream|
    }

    constructor (peer: Peer)
      requires ValidPeer(peer)
      ensures Valid() && this.peer == peer && pos == 0
    {
      this.peer := peer;
      pos := 0;
    }

    method Recv(max: nat) returns (r: Received)
      requires Valid() && max > 0
      modifies this
      ensures Valid()
      ensures old(pos) == |peer.stream| ==> pos == old(pos) && r == (if peer.failing then Failed else Closed)
      ensures old(pos) < |peer.stream| ==>
                pos == old(pos) + Taken(peer, old(pos), max) && r == Chunk(peer.stream[old(pos)..pos])
    {
      if pos == |peer.stream| {
        return if peer.failing then Failed else Closed;
      }
      var n := Taken(peer, pos, max);
      r := Chunk(peer.stream[pos..pos + n]);
      pos := pos + n;
    }
  }

  /** The value of the first Content-Length line, request line included in the search. */
  function ExtractContentLength(lines: seq<string>): Option<int> {
    if lines == [] then None
    else if StartsWith(Lower(lines[0]), "content-length:") then
      match FindChar(lines[0], ':')
      case None => None
      case Some(i) => ParseInt(Strip(lines[0][i + 1..]))
    else ExtractContentLength(lines[1..])
  }

  /** How many body bytes the head at the front of `data` announces. */
  function Announced(data: string, headerEnd: nat): nat
    requires headerEnd <= |data|
  {
    match ExtractContentLength(Split(data[..headerEnd], CRLF))
    case None => 0
    case Some(n) => if n > 0 then n else 0
  }

  predicate Complete(data: string) {
    Find(data, TERMINATOR).Some?
  }

  /** Both remember how many bytes the loop then holds. */
  datatype HeadPhase = Oversize(pos: nat) | Stopped(pos: nat)

  /** Where the first loop stops. */
  function ReadHead(peer: Peer, pos: nat): (phase: HeadPhase)
    requires ValidPeer(peer) && pos <= |peer.stream|
    ensures pos <= phase.pos <= |peer.stream|
    decreases |peer.stream| - pos
  {
    if Complete(peer.stream[..pos]) then Stopped(pos)
    else if pos > MAX_HEADER_SIZE then Oversize(pos)
    else if pos == |peer.stream| then Stopped(pos)
    else ReadHead(peer, pos + Taken(peer, pos, BUFFER_SIZE))
  }

  /** Where the second loop stops. */
  function ReadBody(peer: Peer, pos: nat, goal: nat): (end: nat)
    requires ValidPeer(peer) && pos <= |peer.stream|
    ensures end == if pos >= goal then pos else Least(goal, |peer.stream|)
    decreases |peer.stream| - pos
  {
    if pos >= goal || pos == |peer.stream| then pos
    else ReadBody(peer, pos + Taken(peer, pos, Least(BUFFER_SIZE, goal - pos)), goal)
  }

  /** Where a read that saw a complete head at `pos` ends. */
  function BodyGoal(data: string): nat {
    match Find(data, TERMINATOR)
    case None => 0
    case Some(i) => i + 4 + Announced(data, i + 4)
  }

  /** The bytes the reader returns. */
  function Read(peer: Peer): (data: string)
    requires ValidPeer(peer)
  {
    match ReadHead(peer, 0)
    case Oversize(_) => ""
    case Stopped(pos) => peer.stream[..ReadBody(peer, pos, BodyGoal(peer.stream[..pos]))]
  }

  /** First loop: everything up to the blank line, or whatever came before the end. */
  method AccumulateHead(sock: Socket) returns (data: string, oversize: bool)
    requires sock.Valid() && sock.pos == 0
    modifies sock
    ensures sock.Valid() && data == sock.peer.stream[..sock.pos]
    ensures ReadHead(sock.peer, 0) == if oversize then Oversize(sock.pos) else Stopped(sock.pos)
  {
    hide Complete;
    var peer := sock.peer;
    data := "";
    while !Complete(data)
      invariant sock.Valid() && data == peer.stream[..sock.pos]
      invariant ReadHead(peer, 0) == ReadHead(peer, sock.pos)
      decreases |peer.stream| - sock.pos
    {
      if |data| > MAX_HEADER_SIZE {
        return data, true;
      }
      var r := sock.Recv(BUFFER_SIZE);
      if !r.Chunk? {
        return data, false;
      }
      data := data + r.data;
    }
    return data, false;
  }

  /** Second loop: until the announced length is in. */
  method AccumulateBody(sock: Socket, head: string, goal: nat) returns (data: string)
    requires sock.Valid() && head == sock.peer.stream[..sock.pos]
    modifies sock
    ensures data == sock.peer.stream[..ReadBody(sock.peer, old(sock.pos), goal)]
  {
    var peer := sock.peer;
    data := head;
    var remaining := goal - |data|;
    while remaining > 0
      invariant sock.Valid() && data == peer.stream[..sock.pos]
      invariant remaining == goal - |data|
      invariant ReadBody(peer, old(sock.pos), goal) == ReadBody(peer, sock.pos, goal)
      decreases |peer.stream| - sock.pos
    {
      var r := sock.Recv(Least(BUFFER_SIZE, remaining));
      if !r.Chunk? {
        break;
      }
      data := data + r.data;
      remaining := remaining - |r.data|;
    }
  }

  lemma NoGoalNoBody(peer: Peer, pos: nat)
    requires ValidPeer(peer) && pos <= |peer.stream|
    ensures forall goal: nat :: goal <= pos ==> ReadBody(peer, pos, goal) == pos
  {
  }

  /** The reader as it runs: empty bytes for an oversized head. */
  method RecvHttpRequest(sock: Socket) returns (data: string)
    requires sock.Valid() && sock.pos == 0
    modifies sock
    ensures data == Read(sock.peer)
  {
    hide Split, ReadHead, ReadBody, ExtractContentLength;
    var oversize: bool;
    data, oversize := AccumulateHead(sock);
    if oversize {
      return "";
    }
    var found := Find(data, TERMINATOR);
    if found.None? {
      NoGoalNoBody(sock.peer, sock.pos);
      return;
    }
    var headerEnd := found.value + |TERMINATOR|;
    var contentLength := ExtractContentLength(Split(data[..headerEnd], CRLF));
    if contentLength.Some? && contentLength.value > 0 {
      data := AccumulateBody(sock, data, headerEnd + contentLength.value);
    } else {
      NoGoalNoBody(sock.peer, sock.pos);
    }
  }

  // ----- what does not depend on how the stream is cut -----

  /** Prefixes that reach past the first blank line are complete, and find it at the same place. */
  lemma CompleteFrom(stream: string, pos: nat)
    requires Complete(stream) && pos <= |stream|
    ensures Complete(stream[..pos]) <==> pos >= Find(stream, TERMINATOR).value + 4
    ensures Complete(stream[..pos]) ==> Find(stream[..pos], TERMINATOR) == Find(stream, TERMINATOR)
  {
    var i := Find(stream, TERMINATOR).value;
    forall j: nat | j + 4 <= pos ensures OccursAt(stream[..pos], TERMINATOR, j) <==> OccursAt(stream, TERMINATOR, j) {
      OccursInPrefix(stream, pos, TERMINATOR, j);
    }
    if pos >= i + 4 {
      FindIs(stream[..pos], TERMINATOR, i);
    }
  }

  /** The first loop stops within one buffer after the blank line, and never before it. */
  lemma {:induction false} HeadStops(peer: Peer, pos: nat)
    requires ValidPeer(peer) && Complete(peer.stream)
    requires var h := Find(peer.stream, TERMINATOR).value + 4;
             h <= MAX_HEADER_SIZE + 1 && pos < h
    ensures var h := Find(peer.stream, TERMINATOR).value + 4;
            ReadHead(peer, pos).Stopped? && h <= ReadHead(peer, pos).pos < h + BUFFER_SIZE
    decreases |peer.stream| - pos
  {
    hide FindFrom;
    var h := Find(peer.stream, TERMINATOR).value + 4;
    CompleteFrom(peer.stream, pos);
    var next := pos + Taken(peer, pos, BUFFER_SIZE);
    CompleteFrom(peer.stream, next);
    if next < h {
      HeadStops(peer, next);
    }
  }

  lemma SameAnnounced(stream: string, pos: nat, h: nat)
    requires h <= pos <= |stream|
    ensures Announced(stream[..pos], h) == Announced(stream, h)
  {
    assert stream[..pos][..h] == stream[..h];
  }

  /** Framing: however the stream is cut, the reader returns a prefix of it that holds the head and the
      announced body, or what there is of it, and at most one buffer more. */
  lemma ReadFrames(peer: Peer)
    requires ValidPeer(peer) && Complete(peer.stream)
    requires Find(peer.stream, TERMINATOR).value + 4 <= MAX_HEADER_SIZE + 1
    ensures var h := Find(peer.stream, TERMINATOR).value + 4;
            var full := Least(h + Announced(peer.stream, h), |peer.stream|);
            && Read(peer) <= peer.stream
            && full <= |Read(peer)| && (|Read(peer)| == full || |Read(peer)| < h + BUFFER_SIZE)
            && Find(Read(peer), TERMINATOR) == Some(h - 4)
  {
    hide Announced, FindFrom;
    var h := Find(peer.stream, TERMINATOR).value + 4;
    CompleteFrom(peer.stream, 0);
    HeadStops(peer, 0);
    var pos := ReadHead(peer, 0).pos;
    CompleteFrom(peer.stream, pos);
    SameAnnounced(peer.stream, pos, h);
    CompleteFrom(peer.stream, |Read(peer)|);
  }

  /** The header phase never holds more than the limit and one buffer, and it gives up only beyond the limit. */
  lemma {:induction false} HeadIsBounded(peer: Peer, pos: nat)
    requires ValidPeer(peer) && pos <= |peer.stream| && pos <= MAX_HEADER_SIZE + BUFFER_SIZE
    ensures ReadHead(peer, pos).pos <= MAX_HEADER_SIZE + BUFFER_SIZE
    ensures ReadHead(peer, pos).Oversize? ==> MAX_HEADER_SIZE < ReadHead(peer, pos).pos
    decreases |peer.stream| - pos
  {
    if !Complete(peer.stream[..pos]) && pos <= MAX_HEADER_SIZE && pos < |peer.stream| {
      HeadIsBounded(peer, pos + Taken(peer, pos, BUFFER_SIZE));
    }
  }

  /** One byte at a time. */
  function Trickle(stream: string): (peer: Peer)
    ensures ValidPeer(peer) && peer.stream == stream
  {
    Peer(stream, seq(|stream|, _ => 1), false)
  }

  lemma {:induction false} TrickleOverflows(stream: string, pos: nat)
    requires Complete(stream) && pos <= MAX_HEADER_SIZE + 1
    requires Find(stream, TERMINATOR).value + 4 > MAX_HEADER_SIZE + 1
    ensures ReadHead(Trickle(stream), pos).Oversize?
    decreases MAX_HEADER_SIZE + 1 - pos
  {
    hide FindFrom;
    CompleteFrom(stream, pos);
    if pos <= MAX_HEADER_SIZE {
      TrickleOverflows(stream, pos + 1);
    }
  }

  lemma HeadIsRead(peer: Peer)
    requires ValidPeer(peer) && Complete(peer.stream)
    requires Find(peer.stream, TERMINATOR).value + 4 <= MAX_HEADER_SIZE + 1
    ensures Complete(Read(peer))
  {
    hide FindFrom, BodyGoal;
    CompleteFrom(peer.stream, 0);
    HeadStops(peer, 0);
    CompleteFrom(peer.stream, |Read(peer)|);
  }

  /** A head is read under every cut of its stream exactly when it ends within one byte of the limit. */
  lemma EveryCutReadsHeadIff(stream: string)
    requires Complete(stream)
    ensures (forall peer :: ValidPeer(peer) && peer.stream == stream ==> Complete(Read(peer)))
            <==> Find(stream, TERMINATOR).value + 4 <= MAX_HEADER_SIZE + 1
  {
    if Find(stream, TERMINATOR).value + 4 <= MAX_HEADER_SIZE + 1 {
      forall peer | ValidPeer(peer) && peer.stream == stream ensures Complete(Read(peer)) {
        HeadIsRead(peer);
      }
    } else {
      CompleteFrom(stream, 0);
      TrickleOverflows(stream, 0);
      assert Read(Trickle(stream)) == "";
      assert !Complete("");
    }
  }
}
