/** Requests, as bytes, with which the round trip and the reader fall short. */
module FailingInputs {
  import opened Buffers
  import opened HeadLines
  import opened Messages
  import opened Options
  import opened OrderedDict
  import opened OutboundRequest
  import opened RequestParser
  import opened RequestReader
  import opened RoundTrip
  import opened Text

  // ----- requests of a few lines -----

  /** A request for the root of a host. */
  function Plain(host: string): string {
    Message(Asking("GET", "/"), ["Host: " + host], "")
  }

  lemma HostField(host: string)
    requires Trimmed(host)
    ensures Get(HeadersOf(["Host: " + host]), "host") == Some(host)
    ensures HeadersOf(["Host: " + host]) == [("host", host)]
  {
    var value := " " + host;
    assert "Host: " + host == "Host" + ":" + value;
    assert ["Host: " + host][..0] == [];
    FieldReads([], "Host", value);
    StripPadded(host);
    StripTrimmed("Host", TextBlanks);
    assert Lower("Host") == "host";
  }

  lemma HostLine(host: string)
    requires OneLine(host)
    ensures OneLine("Host: " + host)
  {
    OneLineConcat("Host: ", host);
  }

  /** What the parser makes of it. */
  lemma PlainParses(host: string, url: Option<UrlParts>)
    requires Trimmed(host) && OneLine(host) && Named(host).0 != ""
    ensures Parse(Plain(host), url)
            == Parsed(Request("GET", Named(host).0, Named(host).1, Some("/"), [("host", host)], None, ""))
  {
    hide Parse, Message, HeadersOf, HostAndPort, OneLine, Trimmed;
    assert Word("GET") && Word("/") && !AbsoluteForm("/");
    HostLine(host);
    MessageParses("GET", "/", ["Host: " + host], "", url);
    HostField(host);
    assert "content-length"[0] == 'c' && "host"[0] == 'h';
    assert Get([("host", host)], "content-length") == Get([], "content-length") == None;
  }

  /** Where a printed request leads the next parser. */
  lemma ComesBackAs(r: Request, clientIp: Option<string>, url: Option<UrlParts>)
    requires Forwardable(r) && AddressOrNone(clientIp) && Named(Strip(HostValue(r.host, r.port))).0 != ""
    ensures var again := Parse(Build(r, clientIp), url);
            && again.Parsed? && again.request.verb == r.verb && again.request.path == r.path
            && (again.request.host, again.request.port) == Named(Strip(HostValue(r.host, r.port)))
  {
    hide HeaderLines, Build, HeadersOf, Get, Parse, HostAndPort, Strip, HostValue;
    BuiltParses(r, clientIp, url);
    HeadersReadBack(r, clientIp, "host");
    FixedNames();
  }

  // ----- a host that reads as host and port -----

  lemma Eighty()
    ensures DecimalInt(80) == "80"
  {
    assert Decimal(8) == "8";
  }

  lemma SolidPieces(name: string, number: nat)
    requires Solid(name) && name != ""
    ensures var host := name + ":" + Decimal(number);
            && Trimmed(host) && Trimmed(host + ":80") && OneLine(host + ":80")
  {
    hide Decimal;
    var host := name + ":" + Decimal(number);
    assert forall c :: c in Decimal(number) ==> IsDigit(c);
    assert Solid(host) && Solid(host + ":80");
    assert host[0] in host && host[|host| - 1] in host;
    assert (host + ":80")[0] == host[0] && (host + ":80")[|host| + 2] == '0';
    SolidIsOneLine(host + ":80");
  }

  /** For every name and number: the request for host `name:number` at port 80 comes back as one for `name` at port
      `number`. */
  lemma NumberBecomesPort(name: string, number: nat, clientIp: Option<string>, url: Option<UrlParts>)
    requires Solid(name) && name != "" && AddressOrNone(clientIp)
    ensures var r := Parse(Plain(name + ":" + Decimal(number) + ":80"), None);
            && r.Parsed? && r.request.host == name + ":" + Decimal(number) && r.request.port == 80
            && var again := Parse(Build(r.request, clientIp), url);
               again.Parsed? && again.request.host == name && again.request.port == number
  {
    hide Plain, Build, Parse, HostAndPort, Decimal, Strip, Solid, Forwardable;
    var host := name + ":" + Decimal(number);
    var text := host + ":80";
    SolidPieces(name, number);
    Eighty();
    assert DecimalInt(number) == Decimal(number);
    assert text == host + ":" + "80";
    PrintedPortReads(host, 80);
    PrintedPortReads(name, number);
    PlainParses(text, None);
    ParsedIsForwardable(Plain(text), None);
    StripTrimmed(host, TextBlanks);
    ComesBackAs(Parse(Plain(text), None).request, clientIp, url);
  }

  lemma PlainBytes(host: string)
    ensures Plain(host) == "GET / HTTP/1.1\r\nHost: " + host + "\r\n\r\n"
  {
    assert Asking("GET", "/") == "GET / HTTP/1.1";
    var lines := ["GET / HTTP/1.1", "Host: " + host];
    assert lines[1..] == ["Host: " + host];
    assert Join(lines, CRLF) == "GET / HTTP/1.1" + CRLF + ("Host: " + host);
    assert "GET / HTTP/1.1" + CRLF + "Host: " == "GET / HTTP/1.1\r\nHost: ";
    assert Plain(host) == "GET / HTTP/1.1" + CRLF + "Host: " + host + TERMINATOR;
  }

  /** One such request, from its bytes on. */
  lemma HostWithNumberMoves(url: Option<UrlParts>)
    ensures var r := Parse("GET / HTTP/1.1\r\nHost: a:1:80\r\n\r\n", None);
            && r.Parsed? && r.request.host == "a:1" && r.request.port == 80
            && var again := Parse(Build(r.request, None), url);
               again.Parsed? && again.request.host == "a" && again.request.port == 1
  {
    hide Parse, Build, Plain;
    assert Decimal(1) == "1" && Solid("a");
    assert "a" + ":" + "1" == "a:1" && "a" + ":" + "1" + ":80" == "a:1:80";
    NumberBecomesPort("a", 1, None, url);
    PlainBytes("a:1:80");
    assert "GET / HTTP/1.1\r\nHost: " + "a:1:80" + "\r\n\r\n" == "GET / HTTP/1.1\r\nHost: a:1:80\r\n\r\n";
  }

  // ----- the port of HTTPS -----

  lemma FourFourThree()
    ensures DecimalInt(443) == "443"
  {
    assert Decimal(4) == "4" && Decimal(44) == "44";
  }

  lemma HttpsPieces(name: string)
    requires Solid(name) && name != "" && ':' !in name
    ensures var text := name + ":443";
            && Trimmed(text) && OneLine(text) && Named(text) == (name, 443)
            && Trimmed(name) && Named(name) == (name, 80)
  {
    hide ParseInt, Decimal, FindLast;
    var text := name + ":443";
    assert Solid(text) && text[0] == name[0] && text[|text| - 1] == '3';
    assert name[0] in name && name[|name| - 1] in name;
    SolidIsOneLine(text);
    FourFourThree();
    assert text == name + ":" + "443";
    PrintedPortReads(name, 443);
    assert forall j :: 0 <= j < |name| ==> name[j] in name && name[j] != ':';
  }

  /** For every name without a colon: the request for port 443 comes back as one for port 80. */
  lemma HttpsPortIsLost(name: string, clientIp: Option<string>, url: Option<UrlParts>)
    requires Solid(name) && name != "" && ':' !in name && AddressOrNone(clientIp)
    ensures var r := Parse(Plain(name + ":443"), None);
            && r.Parsed? && r.request.host == name && r.request.port == 443
            && var again := Parse(Build(r.request, clientIp), url);
               again.Parsed? && again.request.host == name && again.request.port == 80
  {
    hide Plain, Build, Parse, Strip, Forwardable, Named, Solid, Trimmed, OneLine;
    var text := name + ":443";
    HttpsPieces(name);
    PlainParses(text, None);
    ParsedIsForwardable(Plain(text), None);
    StripTrimmed(name, TextBlanks);
    ComesBackAs(Parse(Plain(text), None).request, clientIp, url);
  }

  /** One such request, from its bytes on. */
  lemma HttpsRequestMoves(url: Option<UrlParts>)
    ensures var r := Parse("GET / HTTP/1.1\r\nHost: a:443\r\n\r\n", None);
            && r.Parsed? && r.request.host == "a" && r.request.port == 443
            && var again := Parse(Build(r.request, None), url);
               again.Parsed? && again.request.host == "a" && again.request.port == 80
  {
    hide Parse, Build, Plain;
    assert Solid("a") && ':' !in "a";
    assert "a" + ":443" == "a:443";
    HttpsPortIsLost("a", None, url);
    PlainBytes("a:443");
    assert "GET / HTTP/1.1\r\nHost: " + "a:443" + "\r\n\r\n" == "GET / HTTP/1.1\r\nHost: a:443\r\n\r\n";
  }

  // ----- a head beyond the limit -----

  function Filler(n: nat): string {
    seq(n, _ => 'x')
  }

  function LongLines(n: nat): seq<string> {
    ["Host: a", "X: " + Filler(n)]
  }

  /** A request with one long header. */
  function Long(n: nat): string {
    Message(Asking("GET", "/"), LongLines(n), "")
  }

  lemma FillerLine(n: nat)
    ensures OneLine("X: " + Filler(n)) && OneLine("Host: a")
  {
    OneLineConcat("X: ", Filler(n));
  }

  lemma LongLength(n: nat)
    ensures |Join([Asking("GET", "/")] + LongLines(n), CRLF)| == n + 28
  {
    var first, lines := Asking("GET", "/"), LongLines(n);
    assert first == "GET / HTTP/1.1";
    assert ([first] + lines)[1..] == lines && lines[1..] == ["X: " + Filler(n)];
    assert Join(lines, CRLF) == "Host: a" + CRLF + ("X: " + Filler(n));
  }

  lemma LongLinesAreLines(n: nat)
    ensures HeadLike(LongLines(n))
  {
    hide OneLine, Filler;
    FillerLine(n);
  }

  lemma RootReads()
    ensures OneLine(Asking("GET", "/")) && Asking("GET", "/") != ""
  {
    hide OneLine, Asking, Fields;
    assert Word("GET") && Word("/");
    AskingReads("GET", "/");
  }

  lemma LongHead(n: nat)
    ensures |Long(n)| == n + 32 && Find(Long(n), TERMINATOR) == Some(|Long(n)| - 4)
  {
    hide Find, OneLine, Join, Asking, LongLines, Head;
    LongLinesAreLines(n);
    RootReads();
    LongLength(n);
    MessageHead(Asking("GET", "/"), LongLines(n), "");
  }

  /** A well-formed request whatever the filler... */
  lemma LongParses(n: nat, url: Option<UrlParts>)
    ensures Parse(Long(n), url).Parsed? && Parse(Long(n), url).request.host == "a"
  {
    hide Parse, Message, HeadersOf, OneLine, Filler, ContentLengthOf;
    assert Word("GET") && Word("/") && !AbsoluteForm("/");
    LongLinesAreLines(n);
    MessageParses("GET", "/", LongLines(n), "", url);
    var lines := ["Host: " + "a"];
    assert "Host: " + "a" == "Host: a" && "X" + ": " + Filler(n) == "X: " + Filler(n);
    assert LongLines(n) == lines + ["X" + ": " + Filler(n)];
    ReadsNext(lines, "X", Filler(n), "host");
    HostField("a");
    assert Lower("X")[0] == 'x' && "host"[0] == 'h';
    assert HostAndPort("a") == None;
  }

  /** ...and one that the reader refuses when it trickles in, once its head ends beyond byte 65537. */
  lemma LongHeadIsRefused(n: nat, url: Option<UrlParts>)
    requires n + 32 > MAX_HEADER_SIZE + 1
    ensures Parse(Long(n), url).Parsed?
    ensures Read(Trickle(Long(n))) == ""
  {
    hide Parse, Long, Find, Trickle;
    LongParses(n, url);
    LongHead(n);
    CompleteFrom(Long(n), 0);
    TrickleOverflows(Long(n), 0);
  }

  /** Delivered in whole buffers... */
  function Eager(stream: string): (peer: Peer)
    ensures ValidPeer(peer) && peer.stream == stream
  {
    Peer(stream, seq(|stream|, _ => BUFFER_SIZE), false)
  }

  lemma {:induction false} EagerStops(stream: string, pos: nat)
    requires Complete(stream) && Find(stream, TERMINATOR).value + 4 == |stream|
    requires MAX_HEADER_SIZE < |stream| <= MAX_HEADER_SIZE + BUFFER_SIZE
    requires pos % BUFFER_SIZE == 0 && pos <= MAX_HEADER_SIZE
    ensures ReadHead(Eager(stream), pos) == Stopped(|stream|)
    decreases |stream| - pos
  {
    hide Find, Complete;
    CompleteFrom(stream, pos);
    var next := pos + Taken(Eager(stream), pos, BUFFER_SIZE);
    if pos < MAX_HEADER_SIZE {
      EagerStops(stream, next);
    } else {
      assert next == |stream|;
      CompleteFrom(stream, next);
    }
  }

  /** ...the same bytes are read. */
  lemma LongHeadIsRead(n: nat)
    requires MAX_HEADER_SIZE < n + 32 <= MAX_HEADER_SIZE + BUFFER_SIZE
    ensures Read(Eager(Long(n))) == Long(n)
  {
    hide Long, Find, Eager, BodyGoal;
    LongHead(n);
    EagerStops(Long(n), 0);
    assert Long(n)[..|Long(n)|] == Long(n);
  }
}
