/** From the bytes of a request to its method, destination, headers and body. */
module RequestParser {
  import opened Options
  import opened Text
  import opened HeadLines
  import opened OrderedDict

  datatype Request = Request(
    verb: string,
    host: string,
    port: int,
    path: Option<string>,
    headers: Dict,
    contentLength: Option<int>,
    body: string)

  /** Rejected requests are answered 400; a raised ValueError reaches the handler's last resort. */
  datatype Outcome = Rejected | Raised | Parsed(request: Request)

  // ----- the URL library's answer for an absolute target -----

  datatype UrlPort = NoPort | PortNumber(number: nat) | BadPort

  datatype UrlParts = UrlParts(scheme: string, hostname: Option<string>, port: UrlPort, path: string, query: string)

  /** Parts of a target that has no blanks in it. */
  predicate SaneParts(u: UrlParts) {
    && (u.hostname.Some? ==> u.hostname.value != "" && Solid(u.hostname.value))
    && Solid(u.path) && Solid(u.query) && (u.path == "" || u.path[0] == '/')
  }

  // ----- headers -----

  function AddHeader(d: Dict, line: string): Dict {
    match FindChar(line, ':')
    case None => d
    case Some(i) => Set(d, Lower(Strip(line[..i])), Strip(line[i + 1..]))
  }

  function HeadersOf(lines: seq<string>): Dict {
    if lines == [] then []
    else AddHeader(HeadersOf(lines[..|lines| - 1]), lines[|lines| - 1])
  }

  function ContentLengthOf(headers: Dict): Option<int> {
    match Get(headers, "content-length")
    case None => None
    case Some(text) => if text == "" then None else ParseInt(text)
  }

  // ----- destination -----

  datatype Destination = Nowhere | BadUrl | Destination(host: string, port: int, path: Option<string>)

  predicate AbsoluteForm(target: string) {
    StartsWith(target, "http://") || StartsWith(target, "https://")
  }

  /** host:port, split at the last colon; None when there is no colon or no number after it. */
  function HostAndPort(text: string): Option<(string, int)> {
    match FindLast(text, ':')
    case None => None
    case Some(i) =>
      match ParseInt(text[i + 1..])
      case None => None
      case Some(port) => Some((text[..i], port))
  }

  function UrlDestination(url: Option<UrlParts>): Destination {
    if url.None? || url.value.port.BadPort? then BadUrl
    else
      var u := url.value;
      var usual := if u.scheme == "https" then 443 else 80;
      var port := if u.port.PortNumber? && u.port.number != 0 then u.port.number else usual;
      var path := if u.path == "" then "/" else u.path;
      Destination(if u.hostname.Some? then u.hostname.value else "", port,
                  Some(if u.query == "" then path else path + "?" + u.query))
  }

  function DestinationOf(verb: string, target: string, headers: Dict, url: Option<UrlParts>): Destination {
    if verb == "CONNECT" then
      match HostAndPort(target)
      case None => Nowhere
      case Some((host, port)) => Destination(host, port, None)
    else if AbsoluteForm(target) then UrlDestination(url)
    else
      match Get(headers, "host")
      case None => Nowhere
      case Some(text) =>
        match HostAndPort(text)
        case None => Destination(text, 80, Some(target))
        case Some((host, port)) => Destination(host, port, Some(target))
  }

  function Assemble(verb: string, headers: Dict, to: Destination, body: string): Outcome {
    match to
    case Nowhere => Rejected
    case BadUrl => Raised
    case Destination(host, port, path) =>
      if host == "" then Rejected
      else Parsed(Request(verb, host, port, path, headers, ContentLengthOf(headers), body))
  }

  /** The lines of the head, and the rest of the data. */
  function Head(data: string): Option<(seq<string>, string)> {
    match Find(data, TERMINATOR)
    case None => None
    case Some(i) => Some((Split(data[..i + 4], CRLF), data[i + 4..]))
  }

  function Parse(data: string, url: Option<UrlParts>): Outcome {
    match Head(data)
    case None => Rejected
    case Some((lines, body)) =>
      var words := Fields(lines[0], 2);
      if |words| != 3 then Rejected
      else
        var headers := HeadersOf(lines[1..]);
        Assemble(words[0], headers, DestinationOf(words[0], words[1], headers, url), body)
  }

  /** The header loop. */
  method ReadHeaders(lines: seq<string>) returns (headers: Dict)
    ensures headers == HeadersOf(lines)
  {
    headers := [];
    var i := 0;
    while i < |lines|
      invariant 0 <= i <= |lines|
      invariant headers == HeadersOf(lines[..i])
    {
      var line := lines[i];
      var colon := FindChar(line, ':');
      if line != "" && colon.Some? {
        var key, value := line[..colon.value], line[colon.value + 1..];
        headers := Set(headers, Lower(Strip(key)), Strip(value));
      }
      assert lines[..i + 1][..i] == lines[..i];
      i := i + 1;
    }
    assert lines[..i] == lines;
  }

  /** An empty host stands for no host. */
  method ResolveDestination(verb: string, target: string, headers: Dict, url: Option<UrlParts>)
    returns (to: Destination)
    ensures var expected := DestinationOf(verb, target, headers, url);
            if expected.Nowhere? then to.Nowhere? || (to.Destination? && to.host == "") else to == expected
  {
    var host, port, path := "", 80, Some("/");
    if verb == "CONNECT" {
      var split := HostAndPort(target);
      if split.None? {
        return Nowhere;
      }
      host, port, path := split.value.0, split.value.1, None;
    } else if AbsoluteForm(target) {
      if url.None? || url.value.port.BadPort? {
        return BadUrl;
      }
      var u := url.value;
      host := if u.hostname.Some? then u.hostname.value else "";
      port := if u.scheme == "https" then 443 else 80;
      if u.port.PortNumber? && u.port.number != 0 {
        port := u.port.number;
      }
      var text := if u.path == "" then "/" else u.path;
      if u.query != "" {
        text := text + "?" + u.query;
      }
      path := Some(text);
    } else {
      path := Some(target);
      var hostHeader := Get(headers, "host");
      if hostHeader.Some? {
        host := hostHeader.value;
        var split := HostAndPort(host);
        if split.Some? {
          host, port := split.value.0, split.value.1;
        }
      }
    }
    to := Destination(host, port, path);
  }

  /** The parser as it runs; `url` is what the URL library answers for the target. */
  method ParseRequest(data: string, url: Option<UrlParts>) returns (outcome: Outcome)
    ensures outcome == Parse(data, url)
  {
    var found := Find(data, TERMINATOR);
    if found.None? {
      return Rejected;
    }
    var headerEnd := found.value + |TERMINATOR|;
    var lines := Split(data[..headerEnd], CRLF);
    var body := data[headerEnd..];
    var words := Fields(lines[0], 2);
    if |words| != 3 {
      return Rejected;
    }
    var headers := ReadHeaders(lines[1..]);
    var to := ResolveDestination(words[0], words[1], headers, url);
    if to.Nowhere? || (to.Destination? && to.host == "") {
      return Rejected;
    }
    if to.BadUrl? {
      return Raised;
    }
    outcome := Parsed(Request(words[0], to.host, to.port, to.path, headers, ContentLengthOf(headers), body));
  }

  // ----- what every parsed request looks like -----

  predicate CleanKey(key: string) {
    Trimmed(key) && LowerCase(key) && OneLine(key) && ':' !in key
  }

  predicate CleanValue(value: string) {
    Trimmed(value) && OneLine(value)
  }

  predicate CleanHeaders(d: Dict) {
    DistinctKeys(d) && forall i :: 0 <= i < |d| ==> CleanKey(d[i].0) && CleanValue(d[i].1)
  }

  /** A request as the parser leaves it, other than CONNECT. */
  predicate Forwardable(r: Request) {
    && r.verb != "" && Solid(r.verb) && r.verb != "CONNECT"
    && r.path.Some? && r.path.value != "" && Solid(r.path.value) && !AbsoluteForm(r.path.value)
    && r.host != "" && !IsBlank(r.host[0], TextBlanks) && OneLine(r.host)
    && CleanHeaders(r.headers) && r.contentLength == ContentLengthOf(r.headers)
  }

  lemma LowerIsClean(s: string)
    requires Trimmed(s) && OneLine(s) && ':' !in s
    ensures CleanKey(Lower(s))
  {
    var t := Lower(s);
    forall i | 0 <= i < |t| ensures !BreakAt(t, i) {
      assert !BreakAt(s, i);
    }
    forall i | 0 <= i < |t| ensures t[i] != ':' {
      assert s[i] in s;
    }
  }

  lemma {:induction false} SetMembers(d: Dict, key: string, value: string)
    ensures forall i :: 0 <= i < |Set(d, key, value)| ==> Set(d, key, value)[i] == (key, value) || Set(d, key, value)[i] in d
  {
    if d != [] && d[0].0 != key {
      SetMembers(d[1..], key, value);
    }
  }

  lemma {:induction false} SetClean(d: Dict, key: string, value: string)
    requires CleanHeaders(d) && CleanKey(key) && CleanValue(value)
    ensures CleanHeaders(Set(d, key, value))
  {
    SetDistinct(d, key, value);
    SetMembers(d, key, value);
  }

  lemma StripClean(s: string)
    requires OneLine(s)
    ensures CleanValue(Strip(s)) && forall c :: c in Strip(s) ==> c in s
  {
    var i, j := StripIsPiece(s, TextBlanks);
    OneLinePiece(s, i, j);
  }

  lemma AddHeaderClean(d: Dict, line: string)
    requires CleanHeaders(d) && OneLine(line)
    ensures CleanHeaders(AddHeader(d, line))
  {
    hide Strip, Lower, CleanHeaders, Set, OneLine, Trimmed, CleanKey;
    var colon := FindChar(line, ':');
    if colon.Some? {
      var n := colon.value;
      OneLinePiece(line, 0, n);
      OneLinePiece(line, n + 1, |line|);
      assert line[n + 1..] == line[n + 1..|line|];
      StripClean(line[..n]);
      StripClean(line[n + 1..]);
      assert ':' !in line[..n];
      LowerIsClean(Strip(line[..n]));
      SetClean(d, Lower(Strip(line[..n])), Strip(line[n + 1..]));
    }
  }

  lemma {:induction false} HeadersClean(lines: seq<string>)
    requires forall i :: 0 <= i < |lines| ==> OneLine(lines[i])
    ensures CleanHeaders(HeadersOf(lines))
  {
    if lines != [] {
      HeadersClean(lines[..|lines| - 1]);
      AddHeaderClean(HeadersOf(lines[..|lines| - 1]), lines[|lines| - 1]);
    }
  }

  lemma FirstFieldsSolid(line: string)
    requires |Fields(line, 2)| == 3
    ensures var w := Fields(line, 2);
            w[0] != "" && Solid(w[0]) && w[1] != "" && Solid(w[1])
  {
    var i := LStripIsSuffix(line, TextBlanks);
    var t := LStrip(line, TextBlanks);
    var n := WordLength(t, TextBlanks);
    var j := LStripIsSuffix(t[n..], TextBlanks);
    var t' := LStrip(t[n..], TextBlanks);
    var n' := WordLength(t', TextBlanks);
    assert Fields(line, 2)[0] == t[..n];
    assert Fields(line, 2)[1] == Fields(t[n..], 1)[0] == t'[..n'];
  }

  lemma UrlPathIsOriginForm(u: UrlParts)
    requires SaneParts(u) && !u.port.BadPort?
    ensures var path := UrlDestination(Some(u)).path.value;
            path != "" && Solid(path) && path[0] == '/' && !AbsoluteForm(path)
  {
  }

  lemma SolidIsOneLine(s: string)
    requires Solid(s)
    ensures OneLine(s)
  {
    forall i | 0 <= i < |s| ensures !BreakAt(s, i) {
      assert s[i] in s;
    }
  }

  /** Whatever bytes arrive, a parsed request other than CONNECT is forwardable. */
  lemma ParsedIsForwardable(data: string, url: Option<UrlParts>)
    requires url.Some? ==> SaneParts(url.value)
    requires Parse(data, url).Parsed? && Parse(data, url).request.verb != "CONNECT"
    ensures Forwardable(Parse(data, url).request)
  {
    var r := Parse(data, url).request;
    var (lines, body) := Head(data).value;
    var head := data[..Find(data, TERMINATOR).value + 4];
    SplitIsOneLine(head);
    FirstFieldsSolid(lines[0]);
    HeadersClean(lines[1..]);
    var target := Fields(lines[0], 2)[1];
    if AbsoluteForm(target) {
      SolidIsOneLine(r.host);
      assert r.host[0] in r.host;
      UrlPathIsOriginForm(url.value);
    } else {
      var text := Get(r.headers, "host").value;
      var i := GetIsPair(r.headers, "host");
      assert CleanValue(text);
      var colon := FindLast(text, ':');
      if HostAndPort(text).Some? {
        OneLinePiece(text, 0, colon.value);
        assert r.host == text[..colon.value] == text[0..colon.value];
      }
    }
  }
}
