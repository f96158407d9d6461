/** What a downstream parser reads back from the request this proxy sends. */
module RoundTrip {
  import opened Options
  import opened Text
  import opened HeadLines
  import opened OrderedDict
  import opened RequestParser
  import opened Messages
  import opened OutboundRequest

  /** Client addresses as the socket reports them. */
  predicate Address(ip: string) {
    ip != "" && Solid(ip)
  }

  predicate AddressOrNone(clientIp: Option<string>) {
    clientIp.Some? ==> clientIp.value == "" || Address(clientIp.value)
  }

  /** When the printed Host header names the same host and port: the default HTTPS port is lost, and on
      port 80 the bare host must not itself read as something else. */
  predicate HostSurvives(host: string, port: int) {
    port != 443 && (port == 80 ==> Trimmed(host) && HostAndPort(host).None?)
  }

  /** The header the next parser finds under each name. */
  function ExpectedHeader(r: Request, clientIp: Option<string>, key: string): Option<string> {
    if key == "via" then Some("1.1 proxy")
    else if key == "connection" then Some("close")
    else if key == "host" then Some(Strip(HostValue(r.host, r.port)))
    else if !Kept(key) then None
    else if key == "x-forwarded-for" then
      var forwarded := ForwardedFor(Get(r.headers, key), clientIp);
      if forwarded.Some? then forwarded else Get(r.headers, key)
    else Get(r.headers, key)
  }

  // ----- one printed line, read back -----

  lemma PrintedIsOneLine(key: string, value: string)
    requires OneLine(key) && OneLine(value)
    ensures OneLine(key + ": " + value)
  {
    var sep := ": " + value;
    OneLineConcat(": ", value);
    forall i | 0 <= i < |key + sep| ensures !BreakAt(key + sep, i) {
      if i < |key| {
        assert !BreakAt(key, i);
      } else {
        assert !BreakAt(sep, i - |key|);
      }
    }
    assert key + ": " + value == key + sep;
  }

  lemma RestIsClean(headers: Dict)
    requires CleanHeaders(headers) && headers != []
    ensures CleanHeaders(headers[1..]) && CleanKey(headers[0].0) && CleanValue(headers[0].1)
    ensures !Has(headers[1..], headers[0].0)
  {
    assert forall i :: 0 <= i < |headers[1..]| ==> headers[1..][i] == headers[i + 1];
  }

  /** The kept headers read back as they were. */
  lemma {:induction false} KeptReadsBack(before: seq<string>, headers: Dict, name: string)
    requires CleanHeaders(headers)
    ensures Get(HeadersOf(before + KeptLines(headers)), name)
            == if Kept(name) && Has(headers, name) then Get(headers, name) else Get(HeadersOf(before), name)
    decreases |headers|
  {
    hide Kept, HeadersOf, Strip, CleanHeaders;
    if headers == [] {
      assert before + KeptLines(headers) == before;
    } else {
      var key, value, rest := headers[0].0, headers[0].1, headers[1..];
      RestIsClean(headers);
      assert Get(headers, name) == if key == name then Some(value) else Get(rest, name);
      if Kept(key) {
        var more := before + [key + ": " + value];
        assert before + KeptLines(headers) == more + KeptLines(rest);
        KeptReadsBack(more, rest, name);
        StripPadded(value);
        ReadsNext(before, key, value, name);
      } else {
        assert before + KeptLines(headers) == before + KeptLines(rest);
        KeptReadsBack(before, rest, name);
      }
    }
  }

  lemma ForwardedIsClean(headers: Dict, clientIp: Option<string>)
    requires CleanHeaders(headers) && AddressOrNone(clientIp)
    ensures var f := ForwardedFor(Get(headers, "x-forwarded-for"), clientIp);
            f.Some? ==> CleanValue(f.value) && f.value != ""
  {
    var existing := Get(headers, "x-forwarded-for");
    if existing.Some? {
      var i := GetIsPair(headers, "x-forwarded-for");
      assert CleanValue(headers[i].1);
    }
    if clientIp.Some? && clientIp.value != "" {
      var ip := clientIp.value;
      SolidIsOneLine(ip);
      assert ip[0] in ip && ip[|ip| - 1] in ip;
      if existing.Some? && existing.value != "" {
        OneLineConcat(existing.value, ", ");
        OneLineConcat(existing.value + ", ", ip);
      }
    }
  }

  lemma StripPadding(text: string)
    ensures Strip(" " + text) == Strip(text)
  {
    var padded := " " + text;
    assert padded[0] == ' ' && padded[1..] == text;
    assert LStrip(padded, TextBlanks) == LStrip(text, TextBlanks);
  }

  lemma DecimalIsOneLine(z: int)
    ensures OneLine(DecimalInt(z)) && DecimalInt(z) != "" && ':' !in DecimalInt(z) && Solid(DecimalInt(z))
  {
    SolidIsOneLine(DecimalInt(z));
  }

  lemma HostValueFacts(host: string, port: int)
    requires host != "" && !IsBlank(host[0], TextBlanks) && OneLine(host)
    ensures OneLine(HostValue(host, port))
    ensures port != 80 && port != 443 ==> Trimmed(HostValue(host, port))
  {
    hide DecimalInt;
    if port != 80 && port != 443 {
      var digits := DecimalInt(port);
      DecimalIsOneLine(port);
      assert digits[|digits| - 1] in digits;
      OneLineConcat(":", digits);
      forall i | 0 <= i < |host + (":" + digits)| ensures !BreakAt(host + (":" + digits), i) {
        if i < |host| {
          assert !BreakAt(host, i);
        } else {
          assert !BreakAt(":" + digits, i - |host|);
        }
      }
      assert host + ":" + digits == host + (":" + digits);
    }
  }

  lemma HostLineReads(value: string, name: string)
    ensures Get(HeadersOf(["Host: " + value]), name) == if name == "host" then Some(Strip(value)) else None
  {
    hide Strip;
    assert "Host: " == "Host" + ": ";
    assert ["Host: " + value] == [] + ["Host" + ": " + value];
    ReadsNext([], "Host", value, name);
    StripPadding(value);
    assert Lower("Host") == "host";
  }

  lemma ConnectionLineReads(lines: seq<string>, name: string)
    ensures Get(HeadersOf(lines + ["Connection: close"]), name)
            == if name == "connection" then Some("close") else Get(HeadersOf(lines), name)
  {
    hide HeadersOf;
    assert "Connection: close" == "Connection" + ": " + "close";
    ReadsNext(lines, "Connection", "close", name);
    StripPadded("close");
    assert Lower("Connection") == "connection";
  }

  lemma ForwardedLineReads(lines: seq<string>, value: string, name: string)
    requires Trimmed(value)
    ensures Get(HeadersOf(lines + ["X-Forwarded-For: " + value]), name)
            == if name == "x-forwarded-for" then Some(value) else Get(HeadersOf(lines), name)
  {
    hide HeadersOf;
    assert "X-Forwarded-For: " + value == "X-Forwarded-For" + ": " + value;
    ReadsNext(lines, "X-Forwarded-For", value, name);
    StripPadded(value);
    assert Lower("X-Forwarded-For") == "x-forwarded-for";
  }

  lemma ViaLineReads(lines: seq<string>, name: string)
    ensures Get(HeadersOf(lines + ["Via: 1.1 proxy"]), name)
            == if name == "via" then Some("1.1 proxy") else Get(HeadersOf(lines), name)
  {
    hide HeadersOf;
    assert "Via: 1.1 proxy" == "Via" + ": " + "1.1 proxy";
    ReadsNext(lines, "Via", "1.1 proxy", name);
    StripPadded("1.1 proxy");
    assert Lower("Via") == "via";
  }

  lemma FixedNames()
    ensures Kept("x-forwarded-for") && Kept("via") && !Kept("connection") && !Kept("host")
  {
    assert "x-forwarded-for"[0] == 'x' && "via"[0] == 'v';
    assert forall h :: h in HOP_BY_HOP ==> h[0] != 'x' && h[0] != 'v';
  }

  /** Every header the printer writes is found again, with the value intended, and no other is. */
  lemma HeadersReadBack(r: Request, clientIp: Option<string>, name: string)
    requires Forwardable(r) && AddressOrNone(clientIp)
    ensures Get(HeadersOf(HeaderLines(r, clientIp)), name) == ExpectedHeader(r, clientIp, name)
  {
    hide Kept, HeadersOf, KeptLines, HostValue, ForwardedFor, Strip, Get;
    var value := HostValue(r.host, r.port);
    var forwarded := ForwardedFor(Get(r.headers, "x-forwarded-for"), clientIp);
    var hostLine := ["Host: " + value];
    var one := hostLine + KeptLines(r.headers);
    var two := one + ["Connection: close"];
    var three := if forwarded.Some? then two + ["X-Forwarded-For: " + forwarded.value] else two;
    assert HeaderLines(r, clientIp) == three + ["Via: 1.1 proxy"];
    FixedNames();
    ViaLineReads(three, name);
    ForwardedIsClean(r.headers, clientIp);
    if forwarded.Some? {
      ForwardedLineReads(two, forwarded.value, name);
    }
    ConnectionLineReads(one, name);
    KeptReadsBack(hostLine, r.headers, name);
    HostLineReads(value, name);
  }

  // ----- the whole request, read back -----

  lemma {:induction false} KeptLinesAreLines(headers: Dict)
    requires CleanHeaders(headers)
    ensures forall i :: 0 <= i < |KeptLines(headers)| ==> OneLine(KeptLines(headers)[i]) && KeptLines(headers)[i] != ""
    decreases |headers|
  {
    if headers != [] {
      var rest := headers[1..];
      assert CleanKey(headers[0].0) && CleanValue(headers[0].1);
      assert forall i :: 0 <= i < |rest| ==> rest[i] == headers[i + 1];
      KeptLinesAreLines(rest);
      PrintedIsOneLine(headers[0].0, headers[0].1);
    }
  }

  lemma HeaderLinesAreLines(r: Request, clientIp: Option<string>)
    requires Forwardable(r) && AddressOrNone(clientIp)
    ensures var lines := HeaderLines(r, clientIp);
            forall i :: 0 <= i < |lines| ==> OneLine(lines[i]) && lines[i] != ""
  {
    hide KeptLines, HostValue, ForwardedFor, Get, CleanHeaders;
    var value := HostValue(r.host, r.port);
    var forwarded := ForwardedFor(Get(r.headers, "x-forwarded-for"), clientIp);
    HostValueFacts(r.host, r.port);
    OneLineConcat("Host: ", value);
    KeptLinesAreLines(r.headers);
    ForwardedIsClean(r.headers, clientIp);
    if forwarded.Some? {
      OneLineConcat("X-Forwarded-For: ", forwarded.value);
    }
  }

  lemma HeaderLinesNonEmpty(r: Request, clientIp: Option<string>)
    ensures HeaderLines(r, clientIp) != []
  {
  }

  lemma BuiltIsMessage(r: Request, clientIp: Option<string>)
    requires Forwardable(r) && AddressOrNone(clientIp)
    ensures Build(r, clientIp) == Message(Asking(r.verb, r.path.value), HeaderLines(r, clientIp), SentBody(r))
    ensures HeadLike(HeaderLines(r, clientIp))
  {
    hide HeaderLines, SentBody, CleanHeaders;
    HeaderLinesAreLines(r, clientIp);
    var first, rest := RequestLine(r), HeaderLines(r, clientIp);
    HeaderLinesNonEmpty(r, clientIp);
    assert ([first] + rest)[1..] == rest;
  }

  /** The head of the printed request, as the parser cuts it. */
  lemma BuiltHead(r: Request, clientIp: Option<string>)
    requires Forwardable(r) && AddressOrNone(clientIp)
    ensures Head(Build(r, clientIp)) == Some(([RequestLine(r)] + HeaderLines(r, clientIp) + ["", ""], SentBody(r)))
  {
    hide HeaderLines, SentBody, Fields, Head, Message, OneLine, CleanHeaders, Build;
    BuiltIsMessage(r, clientIp);
    AskingReads(r.verb, r.path.value);
    MessageHead(Asking(r.verb, r.path.value), HeaderLines(r, clientIp), SentBody(r));
  }

  /** Parsing what was built comes down to where its Host header points. */
  lemma BuiltParses(r: Request, clientIp: Option<string>, url: Option<UrlParts>)
    requires Forwardable(r) && AddressOrNone(clientIp)
    ensures var headers := HeadersOf(HeaderLines(r, clientIp));
            && ContentLengthOf(headers) == r.contentLength
            && Parse(Build(r, clientIp), url)
               == Assemble(r.verb, headers, DestinationOf(r.verb, r.path.value, headers, url), SentBody(r))
  {
    hide HeaderLines, SentBody, HeadersOf, DestinationOf, Build, Get, Assemble, Parse, Message, HeadLike, Asking;
    BuiltIsMessage(r, clientIp);
    MessageParses(r.verb, r.path.value, HeaderLines(r, clientIp), SentBody(r), url);
    HeadersReadBack(r, clientIp, "content-length");
  }

  predicate SameDestination(a: Request, b: Request) {
    a.verb == b.verb && a.host == b.host && a.port == b.port && a.path == b.path
  }

  /** What a Host header names. */
  function Named(text: string): (string, int) {
    match HostAndPort(text)
    case None => (text, 80)
    case Some(to) => to
  }

  lemma PrintedPortReads(host: string, port: int)
    ensures HostAndPort(host + ":" + DecimalInt(port)) == Some((host, port))
  {
    hide DecimalInt, ParseInt;
    var digits := DecimalInt(port);
    var text := host + ":" + digits;
    DecimalIsOneLine(port);
    assert text[|host|] == ':';
    assert forall j :: |host| < j < |text| ==> text[j] == digits[j - |host| - 1] && text[j] in digits;
    assert FindLast(text, ':') == Some(|host|);
    assert text[..|host|] == host && text[|host| + 1..] == digits;
    ParseDecimalInt(port);
  }

  lemma StripShortens(text: string)
    ensures |Strip(text)| <= |text| && (Strip(text) == text <==> Trimmed(text))
  {
    var i, j := StripIsPiece(text, TextBlanks);
    if Trimmed(text) {
      StripTrimmed(text, TextBlanks);
    }
  }

  lemma HostSurvivesIff(host: string, port: int)
    requires host != "" && !IsBlank(host[0], TextBlanks) && OneLine(host)
    ensures HostSurvives(host, port) <==> Named(Strip(HostValue(host, port))) == (host, port)
  {
    hide Strip, Trimmed, DecimalInt, ParseInt;
    if port != 80 && port != 443 {
      HostValueFacts(host, port);
      StripShortens(HostValue(host, port));
      PrintedPortReads(host, port);
    } else {
      StripShortens(host);
    }
  }

  /** The round trip, exactly: the next parser finds the same method, host, port and path if and only
      if the Host header that was printed still names them. */
  lemma DestinationSurvivesIff(r: Request, clientIp: Option<string>, url: Option<UrlParts>)
    requires Forwardable(r) && AddressOrNone(clientIp)
    ensures var again := Parse(Build(r, clientIp), url);
            (again.Parsed? && SameDestination(again.request, r)) <==> HostSurvives(r.host, r.port)
  {
    hide HeaderLines, Build, HeadersOf, Get, Parse, HostAndPort, Strip, HostValue, HostSurvives;
    BuiltParses(r, clientIp, url);
    HeadersReadBack(r, clientIp, "host");
    FixedNames();
    HostSurvivesIff(r.host, r.port);
  }

  /** And then everything else comes back too: each header as intended, the length, and the body, if the method is one
      that has a body or the length announces one. */
  lemma RoundTripRestores(r: Request, clientIp: Option<string>, url: Option<UrlParts>, name: string)
    requires Forwardable(r) && AddressOrNone(clientIp) && HostSurvives(r.host, r.port)
    ensures var again := Parse(Build(r, clientIp), url);
            && again.Parsed? && SameDestination(again.request, r)
            && Get(again.request.headers, name) == ExpectedHeader(r, clientIp, name)
            && again.request.contentLength == r.contentLength
            && again.request.body
               == (if r.verb == "POST" || r.verb == "PUT" || r.verb == "PATCH"
                      || (r.contentLength.Some? && r.contentLength.value > 0) then r.body else "")
  {
    hide HeaderLines, Build, HeadersOf, Get, Parse, DestinationOf, ExpectedHeader;
    DestinationSurvivesIff(r, clientIp, url);
    BuiltParses(r, clientIp, url);
    HeadersReadBack(r, clientIp, name);
  }
}
