/** The reader and the parser together. */
module Framing {
  import opened Buffers
  import opened Options
  import opened Text
  import opened HeadLines
  import opened RequestReader
  import opened OrderedDict
  import opened RequestParser
  import opened Messages

  /** The same outcome, down to every field but the body. */
  predicate SameHead(a: Outcome, b: Outcome) {
    match a
    case Rejected => b.Rejected?
    case Raised => b.Raised?
    case Parsed(r) => b.Parsed? && r.(body := "") == b.request.(body := "")
  }

  /** What lies behind the head decides the body, and nothing else. */
  lemma SameLines(x: string, y: string, url: Option<UrlParts>)
    requires Head(x).Some? && Head(y).Some? && Head(x).value.0 == Head(y).value.0
    ensures SameHead(Parse(x, url), Parse(y, url))
    ensures Parse(x, url).Parsed? ==> Parse(x, url).request.body == Head(x).value.1
                                      && Parse(y, url).request.body == Head(y).value.1
  {
    hide Head, DestinationOf, HeadersOf, Fields, ContentLengthOf;
  }

  /** Two sockets that deliver the same bytes, however cut, yield the same request: every field of the
      head, and the announced body bytes. */
  lemma CutsDoNotMatter(a: Peer, b: Peer, url: Option<UrlParts>)
    requires ValidPeer(a) && ValidPeer(b) && a.stream == b.stream && Complete(a.stream)
    requires var h := Find(a.stream, TERMINATOR).value + 4;
             h <= MAX_HEADER_SIZE + 1 && h + Announced(a.stream, h) <= |a.stream|
    ensures var h := Find(a.stream, TERMINATOR).value + 4;
            var length := Announced(a.stream, h);
            var x, y := Parse(Read(a), url), Parse(Read(b), url);
            && SameHead(x, y)
            && (x.Parsed? ==> |x.request.body| >= length && |y.request.body| >= length
                              && x.request.body[..length] == y.request.body[..length] == a.stream[h..h + length])
  {
    hide Announced, FindFrom, Read, Parse, SameHead;
    ReadFrames(a);
    ReadFrames(b);
    var h := Find(a.stream, TERMINATOR).value + 4;
    assert Read(a)[..h] == Read(b)[..h] == a.stream[..h];
    assert Head(Read(a)) == Some((Split(a.stream[..h], CRLF), Read(a)[h..]));
    assert Head(Read(b)) == Some((Split(a.stream[..h], CRLF), Read(b)[h..]));
    SameLines(Read(a), Read(b), url);
  }

  // ----- the announced length, from the lines -----

  const LENGTH := "content-length"

  lemma ColonStays(line: string, key: string)
    requires ':' !in key && |key| <= |line| && Lower(line[..|key|]) == key
    ensures forall i :: 0 <= i < |key| ==> line[i] != ':'
  {
    forall i | 0 <= i < |key| ensures line[i] != ':' {
      assert LowerChar(line[i]) == key[i] && key[i] in key;
    }
  }

  /** The reader looks for a line that begins with the name and a colon, in any case. */
  lemma BeginsIff(line: string, key: string)
    requires ':' !in key
    ensures StartsWith(Lower(line), key + ":") <==> FindChar(line, ':') == Some(|key|) && Lower(line[..|key|]) == key
  {
    var n := |key|;
    if n < |line| {
      assert Lower(line)[..n + 1] == Lower(line[..n]) + [LowerChar(line[n])];
      assert LowerChar(line[n]) == ':' <==> line[n] == ':';
      assert (key + ":")[..n] == key && (Lower(line[..n]) + [LowerChar(line[n])])[..n] == Lower(line[..n]);
      if Lower(line[..n]) == key {
        ColonStays(line, key);
      }
    }
  }

  lemma LengthIsTrimmed(name: string)
    requires Lower(name) == LENGTH
    ensures ':' !in LENGTH && Trimmed(name)
  {
    assert LENGTH[0] == 'c' && LENGTH[13] == 'h';
    assert LowerChar(name[0]) == 'c' && LowerChar(name[13]) == 'h';
  }

  /** The parser would take such a line too. */
  lemma BeginsNames(line: string)
    requires StartsWith(Lower(line), "content-length:")
    ensures Names(line, LENGTH)
  {
    hide Lower, FindChar, StartsWith;
    assert "content-length:" == LENGTH + ":";
    assert ':' !in LENGTH;
    BeginsIff(line, LENGTH);
    LengthIsTrimmed(line[..14]);
    StripTrimmed(line[..14], TextBlanks);
  }

  lemma FirstColon(line: string, n: nat)
    requires n < |line| && line[n] == ':' && forall i :: 0 <= i < n ==> line[i] != ':'
    ensures FindChar(line, ':') == Some(n)
  {
  }

  lemma NamedLine(name: string, value: string)
    requires Lower(name) == LENGTH
    ensures ':' !in name && Trimmed(name)
    ensures FindChar(name + ":" + value, ':') == Some(14) && (name + ":" + value)[15..] == value
    ensures StartsWith(Lower(name + ":" + value), "content-length:")
  {
    hide Lower, FindChar, StartsWith;
    var line := name + ":" + value;
    assert "content-length:" == LENGTH + ":";
    LengthIsTrimmed(name);
    assert line[..14] == name && line[14] == ':';
    ColonStays(line, LENGTH);
    assert forall i :: 0 <= i < 14 ==> line[i] == name[i];
    FirstColon(line, 14);
    BeginsIff(line, LENGTH);
  }

  /** The first line that begins so decides. */
  lemma {:induction false} LengthReads(before: seq<string>, name: string, value: string, after: seq<string>, n: int)
    requires NoneNames(before, LENGTH) && Lower(name) == LENGTH && Strip(value) == DecimalInt(n)
    ensures ExtractContentLength(before + [name + ":" + value] + after) == Some(n)
    decreases |before|
  {
    hide Lower, Strip, ParseInt, StartsWith, Names, DecimalInt;
    var lines := before + [name + ":" + value] + after;
    if before == [] {
      NamedLine(name, value);
      assert lines[0] == name + ":" + value;
      ParseDecimalInt(n);
    } else {
      if StartsWith(Lower(lines[0]), "content-length:") {
        BeginsNames(lines[0]);
        assert false;
      }
      assert lines[1..] == before[1..] + [name + ":" + value] + after;
      LengthReads(before[1..], name, value, after, n);
    }
  }

  lemma {:induction false} NoLength(lines: seq<string>)
    requires forall i :: 0 <= i < |lines| ==> !StartsWith(Lower(lines[i]), "content-length:")
    ensures ExtractContentLength(lines) == None
  {
    hide Lower, StartsWith;
    if lines != [] {
      NoLength(lines[1..]);
    }
  }

  lemma UnnamedDoNotBegin(lines: seq<string>)
    requires NoneNames(lines, LENGTH)
    ensures forall i :: 0 <= i < |lines| ==> !StartsWith(Lower(lines[i]), "content-length:")
  {
    hide Lower, StartsWith, Names;
    forall i | 0 <= i < |lines| ensures !StartsWith(Lower(lines[i]), "content-length:") {
      if StartsWith(Lower(lines[i]), "content-length:") {
        BeginsNames(lines[i]);
        assert false;
      }
    }
  }

  /** What the reader returns of a message, given what the head announces. */
  lemma ReadMessage(peer: Peer, first: string, lines: seq<string>, body: string)
    requires ValidPeer(peer) && HeadLike([first] + lines) && peer.stream == Message(first, lines, body)
    requires |Join([first] + lines, CRLF)| + 4 <= MAX_HEADER_SIZE + 1
    ensures var h := |Join([first] + lines, CRLF)| + 4;
            var length := ExtractContentLength([first] + lines + ["", ""]);
            var full := h + if length.Some? && length.value > 0 then Least(length.value, |body|) else 0;
            && h <= |Read(peer)| && Read(peer) <= peer.stream
            && full <= |Read(peer)| && (|Read(peer)| == full || |Read(peer)| < h + BUFFER_SIZE)
            && Head(Read(peer)) == Some(([first] + lines + ["", ""], Read(peer)[h..]))
            && Read(peer)[h..] <= body
  {
    hide Find, Read, Split, ExtractContentLength, Join, HeadLike;
    var h := |Join([first] + lines, CRLF)| + 4;
    MessageHead(first, lines, body);
    ReadFrames(peer);
    assert peer.stream[h..] == body;
    assert Read(peer)[..h] == peer.stream[..h];
    assert Read(peer)[h..] == body[..|Read(peer)| - h];
  }

  lemma DecimalIsText(n: int)
    ensures DecimalInt(n) != ""
  {
  }

  /** The law of the announced length: with one Content-Length line, in whatever case and with whatever blanks around the
      number, every cut of the stream is read up to the last byte announced, or to the end if there are fewer; and the
      parser finds the same length. */
  lemma AnnouncedBodyIsRead(peer: Peer, first: string, before: seq<string>, name: string, value: string,
                            after: seq<string>, body: string, n: nat, url: Option<UrlParts>)
    requires ValidPeer(peer) && peer.stream == Message(first, before + [name + ":" + value] + after, body)
    requires HeadLike([first] + (before + [name + ":" + value] + after))
    requires |Join([first] + (before + [name + ":" + value] + after), CRLF)| + 4 <= MAX_HEADER_SIZE + 1
    requires Lower(name) == "content-length" && Strip(value) == DecimalInt(n)
    requires NoneNames([first] + before, "content-length") && NoneNames(after, "content-length")
    ensures var h := |Join([first] + (before + [name + ":" + value] + after), CRLF)| + 4;
            var full := h + Least(n, |body|);
            && Read(peer) <= peer.stream && full <= |Read(peer)|
            && (|Read(peer)| == full || |Read(peer)| < h + BUFFER_SIZE)
            && (var r := Parse(Read(peer), url);
                r.Parsed? ==> r.request.contentLength == Some(n)
                              && r.request.body <= body && |r.request.body| >= Least(n, |body|))
  {
    hide Message, Read, Head, ExtractContentLength, Join, HeadLike, NoneNames, Lower, Strip, DecimalInt, HeadersOf,
         DestinationOf, Fields, ParseInt;
    var line := name + ":" + value;
    var lines := before + [line] + after;
    ReadMessage(peer, first, lines, body);
    assert [first] + lines + ["", ""] == ([first] + before) + [line] + (after + ["", ""]);
    LengthReads([first] + before, name, value, after + ["", ""], n);
    var h := |Join([first] + lines, CRLF)| + 4;
    assert ([first] + lines + ["", ""])[1..] == lines + ["", ""];
    BlankLinesAddNothing(lines);
    NamedLine(name, value);
    StripTrimmed(name, TextBlanks);
    LastFieldReads(before, name, value, after);
    ParseDecimalInt(n);
    DecimalIsText(n);
  }

  lemma BlankNamesNothing()
    ensures !Names("", LENGTH)
  {
  }

  /** Without such a line the reader does not wait for a body. */
  lemma UnannouncedBodyIsNotAwaited(peer: Peer, first: string, lines: seq<string>, body: string, url: Option<UrlParts>)
    requires ValidPeer(peer) && peer.stream == Message(first, lines, body) && HeadLike([first] + lines)
    requires |Join([first] + lines, CRLF)| + 4 <= MAX_HEADER_SIZE + 1
    requires NoneNames([first] + lines, "content-length")
    ensures |Read(peer)| < |Join([first] + lines, CRLF)| + 4 + BUFFER_SIZE
    ensures var r := Parse(Read(peer), url);
            r.Parsed? ==> r.request.contentLength == None
  {
    hide Message, Read, Head, ExtractContentLength, Join, HeadLike, Names, HeadersOf, DestinationOf, Fields;
    ReadMessage(peer, first, lines, body);
    BlankNamesNothing();
    assert NoneNames([first] + lines + ["", ""], LENGTH);
    UnnamedDoNotBegin([first] + lines + ["", ""]);
    NoLength([first] + lines + ["", ""]);
    assert ([first] + lines + ["", ""])[1..] == lines + ["", ""];
    BlankLinesAddNothing(lines);
    assert forall i :: 0 <= i < |lines| ==> lines[i] == ([first] + lines)[i + 1];
    UnnamedFieldIsAbsent(lines, LENGTH);
  }

  lemma SpacedNameDoesNotBegin(name: string, value: string)
    requires ':' !in name && Strip(name) != name
    ensures !StartsWith(Lower(name + ":" + value), "content-length:")
  {
    hide Lower, FindChar, StartsWith, Strip;
    var line := name + ":" + value;
    assert "content-length:" == LENGTH + ":" && ':' !in LENGTH;
    assert line[|name|] == ':' && line[..|name|] == name;
    assert forall i :: 0 <= i < |name| ==> line[i] == name[i] && name[i] in name;
    FirstColon(line, |name|);
    BeginsIff(line, LENGTH);
    if Lower(name) == LENGTH {
      LengthIsTrimmed(name);
      StripTrimmed(name, TextBlanks);
    }
  }

  /** With one Content-Length line, as the parser reads it, the reader sees the length the parser finds if and only if
      there are no blanks around the name; otherwise it does not wait for the body. */
  lemma ReaderSeesLengthIff(first: string, before: seq<string>, name: string, value: string, after: seq<string>, n: int)
    requires NoneNames([first] + before, "content-length") && NoneNames(after, "content-length")
    requires ':' !in name && Lower(Strip(name)) == "content-length" && Strip(value) == DecimalInt(n)
    ensures var lines := before + [name + ":" + value] + after;
            && ContentLengthOf(HeadersOf(lines)) == Some(n)
            && ExtractContentLength([first] + lines) == if Strip(name) == name then Some(n) else None
  {
    hide Lower, Strip, StartsWith, Names, ParseInt, DecimalInt, HeadersOf, ExtractContentLength;
    var line := name + ":" + value;
    var all := [first] + (before + [line] + after);
    assert all == [first] + before + [line] + after;
    LastFieldReads(before, name, value, after);
    ParseDecimalInt(n);
    DecimalIsText(n);
    if Strip(name) == name {
      LengthReads([first] + before, name, value, after, n);
    } else {
      UnnamedDoNotBegin([first] + before);
      UnnamedDoNotBegin(after);
      SpacedNameDoesNotBegin(name, value);
      forall i | 0 <= i < |all| ensures !StartsWith(Lower(all[i]), "content-length:") {
        assert i < |before| + 1 ==> all[i] == ([first] + before)[i];
        assert i > |before| + 1 ==> all[i] == after[i - |before| - 2];
      }
      NoLength(all);
    }
  }
}
