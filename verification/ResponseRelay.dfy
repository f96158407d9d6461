/** Streaming a response to the client, and deciding whether it is stored. */
module ResponseRelay {
  import opened Options
  import opened Text
  import opened HeadLines

  /** One turn of the loop: a chunk from the origin that the client accepted or not, an error on the
      origin's side, or the end of the response. */
  datatype Turn = Relayed(data: string) | SendFailed(data: string) | RecvFailed | EndOfStream

  predicate Stops(turn: Turn) {
    !turn.Relayed?
  }

  /** Second word of the first line, as a number. */
  function StatusOf(chunk: string): Option<int> {
    var line := match Find(chunk, "\r\n") case None => chunk case Some(i) => chunk[..i];
    var words := Fields(line, 2, ByteBlanks);
    if |words| >= 2 then ParseInt(words[1]) else None
  }

  /** The loop's variables. */
  datatype Progress = Progress(total: nat, cacheable: bool, status: Option<int>, kept: seq<string>)

  function Begin(verb: string): Progress {
    Progress(0, verb == "GET", None, [])
  }

  /** One relayed chunk. */
  function Advance(p: Progress, data: string, limit: nat): Progress {
    var status := if p.status.None? then StatusOf(data) else p.status;
    var refused := p.status.None? && status.Some? && status.value != 0 && status.value != 200;
    if !p.cacheable || refused then p.(status := status, cacheable := false)
    else
      var total := p.total + |data|;
      if total <= limit then Progress(total, true, status, p.kept + [data])
      else Progress(total, false, status, [])
  }

  function Chunks(turns: seq<Turn>): seq<string> {
    if turns == [] || Stops(turns[0]) then [] else [turns[0].data] + Chunks(turns[1..])
  }

  function AfterChunks(verb: string, chunks: seq<string>, limit: nat): Progress {
    if chunks == [] then Begin(verb)
    else Advance(AfterChunks(verb, chunks[..|chunks| - 1], limit), chunks[|chunks| - 1], limit)
  }

  function Flatten(chunks: seq<string>): string {
    if chunks == [] then "" else Flatten(chunks[..|chunks| - 1]) + chunks[|chunks| - 1]
  }

  datatype Stored = Stored(response: string, size: nat)

  /** What is put in the cache when the loop is over. */
  function StoreOf(p: Progress): Option<Stored> {
    if p.cacheable && p.kept != [] then Some(Stored(Flatten(p.kept), p.total)) else None
  }

  /** The streaming loop as it runs over what the two sockets do. Leaving the loop on an error does not
      undo anything: what was relayed so far may still be stored. */
  method StreamResponse(verb: string, turns: seq<Turn>, limit: nat) returns (sent: string, stored: Option<Stored>)
    ensures sent == Flatten(Chunks(turns))
    ensures stored == StoreOf(AfterChunks(verb, Chunks(turns), limit))
  {
    hide StatusOf;
    var responseChunks: seq<string> := [];
    var totalSize: nat := 0;
    var cacheable := verb == "GET";
    var statusCode: Option<int> := None;
    sent := "";
    var i := 0;
    ghost var done: seq<string> := [];
    while i < |turns|
      invariant 0 <= i <= |turns|
      invariant Chunks(turns) == done + Chunks(turns[i..])
      invariant sent == Flatten(done)
      invariant AfterChunks(verb, done, limit) == Progress(totalSize, cacheable, statusCode, responseChunks)
    {
      var turn := turns[i];
      if Stops(turn) {
        break;
      }
      var data := turn.data;
      sent := sent + data;
      if statusCode.None? {
        statusCode := StatusOf(data);
        if statusCode.Some? && statusCode.value != 0 && statusCode.value != 200 {
          cacheable := false;
        }
      }
      if cacheable {
        totalSize := totalSize + |data|;
        if totalSize <= limit {
          responseChunks := responseChunks + [data];
        } else {
          cacheable := false;
          responseChunks := [];
        }
      }
      assert turns[i..][1..] == turns[i + 1..];
      assert (done + [data])[..|done|] == done;
      done := done + [data];
      i := i + 1;
    }
    assert Chunks(turns) == done;
    if cacheable && responseChunks != [] {
      stored := Some(Stored(Flatten(responseChunks), totalSize));
    } else {
      stored := None;
    }
  }

  // ----- what is stored -----

  /** The status that decides: the first one a relayed chunk yields. */
  function Deciding(chunks: seq<string>): Option<int> {
    if chunks == [] then None
    else
      var before := Deciding(chunks[..|chunks| - 1]);
      if before.Some? then before else StatusOf(chunks[|chunks| - 1])
  }

  predicate Acceptable(status: Option<int>) {
    status.None? || status.value == 0 || status.value == 200
  }

  /** The loop's variables, in terms of what was relayed. */
  lemma {:induction false} ProgressMeans(verb: string, chunks: seq<string>, limit: nat)
    ensures var p := AfterChunks(verb, chunks, limit);
            && p.status == Deciding(chunks)
            && (p.cacheable <==> verb == "GET" && Acceptable(Deciding(chunks)) && |Flatten(chunks)| <= limit)
            && (p.cacheable ==> p.kept == chunks && p.total == |Flatten(chunks)|)
    decreases |chunks|
  {
    hide StatusOf;
    if chunks != [] {
      ProgressMeans(verb, chunks[..|chunks| - 1], limit);
      assert chunks == chunks[..|chunks| - 1] + [chunks[|chunks| - 1]];
    }
  }

  /** Stored if and only if: a GET, at least one chunk relayed, nothing but 200 (or 0, or no status at
      all) decided, and within the size limit. And then it is all that was relayed, byte for byte. */
  lemma StoredIff(verb: string, turns: seq<Turn>, limit: nat)
    ensures var chunks := Chunks(turns);
            var stored := StoreOf(AfterChunks(verb, chunks, limit));
            && (stored.Some? <==> verb == "GET" && chunks != [] && Acceptable(Deciding(chunks)) && |Flatten(chunks)| <= limit)
            && (stored.Some? ==> stored.value.response == Flatten(chunks)
                                 && stored.value.size == |Flatten(chunks)| <= limit)
  {
    ProgressMeans(verb, Chunks(turns), limit);
  }

  // ----- independence from how the response is cut -----

  /** The origin's whole response arrived and was passed on: every turn a relayed, non-empty chunk, then the end. */
  predicate Complete(turns: seq<Turn>, response: string) {
    && |turns| >= 1 && turns[|turns| - 1].EndOfStream?
    && (forall i :: 0 <= i < |turns| - 1 ==> turns[i].Relayed? && turns[i].data != "")
    && Flatten(Chunks(turns)) == response
  }

  /** What the loop relays: every chunk up to the first turn that is no relayed chunk, and nothing after it. */
  lemma {:induction false} RelaysUpToTheFirstStop(turns: seq<Turn>, n: nat)
    requires n <= |turns| && (forall i :: 0 <= i < n ==> turns[i].Relayed?) && (n < |turns| ==> !turns[n].Relayed?)
    ensures |Chunks(turns)| == n
    ensures forall i :: 0 <= i < n ==> Chunks(turns)[i] == turns[i].data
  {
    if n > 0 {
      RelaysUpToTheFirstStop(turns[1..], n - 1);
    }
  }

  lemma ChunksOfComplete(turns: seq<Turn>)
    requires |turns| >= 1 && turns[|turns| - 1].EndOfStream?
    requires forall i :: 0 <= i < |turns| - 1 ==> turns[i].Relayed?
    ensures |Chunks(turns)| == |turns| - 1
    ensures forall i :: 0 <= i < |turns| - 1 ==> Chunks(turns)[i] == turns[i].data
  {
    RelaysUpToTheFirstStop(turns, |turns| - 1);
  }

  lemma {:induction false} FlattenStarts(chunks: seq<string>)
    requires chunks != []
    ensures chunks[0] <= Flatten(chunks)
    decreases |chunks|
  {
    if |chunks| > 1 {
      FlattenStarts(chunks[..|chunks| - 1]);
    } else {
      assert chunks[..0] == [];
    }
  }

  lemma {:induction false} DecidingIsFirst(chunks: seq<string>)
    requires chunks != [] && StatusOf(chunks[0]).Some?
    ensures Deciding(chunks) == StatusOf(chunks[0])
    decreases |chunks|
  {
    if |chunks| > 1 {
      DecidingIsFirst(chunks[..|chunks| - 1]);
    } else {
      assert chunks[..0] == [];
    }
  }

  /** A first chunk that holds the whole status line yields the status of the whole response. */
  lemma StatusFromPrefix(response: string, n: nat)
    requires Find(response, "\r\n").Some? && Find(response, "\r\n").value + 2 <= n <= |response|
    ensures StatusOf(response[..n]) == StatusOf(response)
  {
    var i := Find(response, "\r\n").value;
    forall j: nat | j + 2 <= n ensures OccursAt(response[..n], "\r\n", j) <==> OccursAt(response, "\r\n", j) {
      OccursInPrefix(response, n, "\r\n", j);
    }
    FindIs(response[..n], "\r\n", i);
    assert response[..n][..i] == response[..i];
  }

  /** For a response whose status line arrives in the first chunk, storing depends on the response only,
      not on how it is cut: a GET answered 200, within the limit. */
  lemma StoredWhateverTheCut(verb: string, turns: seq<Turn>, limit: nat, response: string)
    requires Complete(turns, response) && response != ""
    requires Find(response, "\r\n").Some? && StatusOf(response).Some? && StatusOf(response).value != 0
    requires |turns[0].data| >= Find(response, "\r\n").value + 2
    ensures StoreOf(AfterChunks(verb, Chunks(turns), limit))
            == if verb == "GET" && StatusOf(response) == Some(200) && |response| <= limit
               then Some(Stored(response, |response|)) else None
  {
    hide StatusOf;
    var chunks := Chunks(turns);
    ChunksOfComplete(turns);
    assert chunks == [] ==> Flatten(chunks) == "";
    FlattenStarts(chunks);
    StatusFromPrefix(response, |chunks[0]|);
    assert chunks[0] == response[..|chunks[0]|];
    DecidingIsFirst(chunks);
    StoredIff(verb, turns, limit);
  }

  /** When the first chunk yields a status, however it is cut, that status alone decides for a whole response. */
  lemma StoredIffFirstStatus(turns: seq<Turn>, limit: nat, response: string)
    requires Complete(turns, response) && response != "" && |response| <= limit && StatusOf(turns[0].data).Some?
    ensures StoreOf(AfterChunks("GET", Chunks(turns), limit)).Some?
            <==> StatusOf(turns[0].data).value == 200 || StatusOf(turns[0].data).value == 0
  {
    hide StatusOf;
    var chunks := Chunks(turns);
    ChunksOfComplete(turns);
    assert chunks == [] ==> Flatten(chunks) == "";
    DecidingIsFirst(chunks);
    StoredIff("GET", turns, limit);
  }

  lemma NumberWord(version: string, code: string, rest: string)
    requires version != "" && (forall c :: c in version ==> !IsBlank(c, ByteBlanks))
    requires code != "" && (forall c :: c in code ==> !IsBlank(c, ByteBlanks))
    requires rest == "" || IsBlank(rest[0], ByteBlanks)
    ensures var words := Fields(version + " " + code + rest, 2, ByteBlanks);
            |words| >= 2 && words[1] == code
  {
    hide Fields;
    var tail := code + rest;
    assert version + " " + code + rest == version + (" " + tail);
    FieldsStep(version, " " + tail, 2, ByteBlanks);
    FieldsPad(tail, 1, ByteBlanks);
    FieldsStep(code, rest, 1, ByteBlanks);
  }

  lemma NoLineBreak(s: string)
    requires '\r' !in s
    ensures OneLine(s) && Find(s, "\r\n").None?
  {
    forall i | 0 <= i < |s| ensures !BreakAt(s, i) {
      assert s[i] in s;
    }
    OneLineOccurs(s);
  }

  lemma CodesRead()
    ensures ParseInt("2") == Some(2) && ParseInt("200") == Some(200)
  {
    assert Decimal(2) == "2" && Decimal(20) == "20" && Decimal(200) == "200";
    ParseDecimalInt(2);
    ParseDecimalInt(200);
  }

  lemma PartialStatus()
    ensures StatusOf("HTTP/1.1 2") == Some(2)
  {
    hide ParseInt, Fields, FindFrom;
    CodesRead();
    NumberWord("HTTP/1.1", "2", "");
    assert "HTTP/1.1" + " " + "2" + "" == "HTTP/1.1 2";
    NoLineBreak("HTTP/1.1 2");
  }

  lemma WholeStatus()
    ensures StatusOf("HTTP/1.1 200 OK\r\n\r\n") == Some(200)
  {
    hide ParseInt, Fields, FindFrom;
    var line := "HTTP/1.1 200 OK";
    CodesRead();
    NumberWord("HTTP/1.1", "200", " OK");
    assert "HTTP/1.1" + " " + "200" + " OK" == line;
    NoLineBreak(line);
    FirstLineBreak(line, "\r\n");
    var whole := line + CRLF + "\r\n";
    assert whole == "HTTP/1.1 200 OK\r\n\r\n" && whole[..|line|] == line;
  }

  lemma TwoChunks(a: string, b: string)
    requires a != "" && b != ""
    ensures var turns := [Relayed(a), Relayed(b), EndOfStream];
            && Complete(turns, a + b) && Chunks(turns) == [a, b] && Flatten([a, b]) == a + b
            && Deciding([a, b]) == if StatusOf(a).Some? then StatusOf(a) else StatusOf(b)
  {
    hide StatusOf;
    var turns := [Relayed(a), Relayed(b), EndOfStream];
    ChunksOfComplete(turns);
    assert Chunks(turns) == [a, b];
    assert [a, b][..1] == [a] && [a][..0] == [];
    assert Flatten([a]) == a && Deciding([]) == None && Deciding([a]) == StatusOf(a);
  }

  /** When the first chunk stops inside the status code, a good response is not stored. */
  lemma SplitStatusIsNotStored()
    ensures var turns := [Relayed("HTTP/1.1 2"), Relayed("00 OK\r\n\r\n"), EndOfStream];
            && Complete(turns, "HTTP/1.1 200 OK\r\n\r\n")
            && StatusOf("HTTP/1.1 200 OK\r\n\r\n") == Some(200)
            && StoreOf(AfterChunks("GET", Chunks(turns), 524288)) == None
  {
    hide StatusOf, Complete, Chunks, Deciding, Flatten;
    var a, b := "HTTP/1.1 2", "00 OK\r\n\r\n";
    TwoChunks(a, b);
    PartialStatus();
    WholeStatus();
    assert a + b == "HTTP/1.1 200 OK\r\n\r\n";
    StoredIff("GET", [Relayed(a), Relayed(b), EndOfStream], 524288);
  }

  lemma NoNumber(word: string)
    requires word == "Not"
    ensures ParseInt(word) == None
  {
    assert word[2] == 't' && word[0] == 'N';
    StripTrimmed(word, ByteBlanks);
  }

  lemma BareVersion()
    ensures StatusOf("HTTP/1.1 ") == None
  {
    hide FindFrom, ParseInt;
    FieldsStep("HTTP/1.1", " ", 2, ByteBlanks);
    assert "HTTP/1.1" + " " == "HTTP/1.1 ";
    assert LStrip(" ", ByteBlanks) == "";
    NoLineBreak("HTTP/1.1 ");
  }

  lemma ReasonIsNoStatus()
    ensures StatusOf("404 Not Found\r\n\r\n") == None
  {
    hide ParseInt, Fields, FindFrom;
    var line := "404 Not Found";
    NumberWord("404", "Not", " Found");
    assert "404" + " " + "Not" + " Found" == line;
    NoNumber("Not");
    NoLineBreak(line);
    FirstLineBreak(line, "\r\n");
    var whole := line + CRLF + "\r\n";
    assert whole == "404 Not Found\r\n\r\n" && whole[..|line|] == line;
  }

  /** When the first chunk stops before the status code, an error response is stored. */
  lemma NotFoundIsStored()
    ensures var turns := [Relayed("HTTP/1.1 "), Relayed("404 Not Found\r\n\r\n"), EndOfStream];
            && Complete(turns, "HTTP/1.1 404 Not Found\r\n\r\n")
            && StoreOf(AfterChunks("GET", Chunks(turns), 524288))
               == Some(Stored("HTTP/1.1 404 Not Found\r\n\r\n", |"HTTP/1.1 404 Not Found\r\n\r\n"|))
  {
    hide StatusOf, Complete, Chunks, Deciding, Flatten;
    var a, b := "HTTP/1.1 ", "404 Not Found\r\n\r\n";
    TwoChunks(a, b);
    BareVersion();
    ReasonIsNoStatus();
    assert a + b == "HTTP/1.1 404 Not Found\r\n\r\n";
    StoredIff("GET", [Relayed(a), Relayed(b), EndOfStream], 524288);
  }
}
