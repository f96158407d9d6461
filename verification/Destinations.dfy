/** Where a request goes, in terms of the bytes its client wrote. */
module Destinations {
  import opened Options
  import opened Text
  import opened HeadLines
  import opened OrderedDict
  import opened RequestParser
  import opened Messages
  import opened RoundTrip

  // ----- a Host header -----

  /** What a Host header says: a host and a port, or a host alone. */
  function Authority(host: string, port: Option<int>): string {
    if port.Some? then host + ":" + DecimalInt(port.value) else host
  }

  lemma AuthorityReads(host: string, port: Option<int>)
    requires port.None? ==> ':' !in host
    ensures Named(Authority(host, port)) == (host, if port.Some? then port.value else 80)
  {
    hide ParseInt, DecimalInt;
    if port.Some? {
      PrintedPortReads(host, port.value);
    } else {
      assert forall j :: 0 <= j < |host| ==> host[j] in host && host[j] != ':';
    }
  }

  /** The last Host line decides, whatever the case of its name and the blanks around it, with the port it names and 80
      if it names none; the target is the path. */
  lemma OriginGoesTo(verb: string, target: string, before: seq<string>, name: string, value: string, after: seq<string>,
                     body: string, url: Option<UrlParts>, host: string, port: Option<int>)
    requires Word(verb) && verb != "CONNECT" && Word(target) && !AbsoluteForm(target)
    requires HeadLike(before + [name + ":" + value] + after) && NoneNames(after, "host")
    requires ':' !in name && Lower(Strip(name)) == "host" && Strip(value) == Authority(host, port)
    requires host != "" && (port.None? ==> ':' !in host)
    ensures var lines := before + [name + ":" + value] + after;
            var r := Parse(Message(Asking(verb, target), lines, body), url);
            && r.Parsed? && r.request.verb == verb && r.request.host == host
            && r.request.port == (if port.Some? then port.value else 80) && r.request.path == Some(target)
            && r.request.headers == HeadersOf(lines) && r.request.body == body
  {
    hide Parse, Message, HeadersOf, HeadLike, NoneNames, Strip, HostAndPort, Authority, AbsoluteForm;
    MessageParses(verb, target, before + [name + ":" + value] + after, body, url);
    LastFieldReads(before, name, value, after);
    AuthorityReads(host, port);
  }

  /** A Host line without a host is as bad as none. */
  lemma EmptyHostIsRejected(verb: string, target: string, before: seq<string>, name: string, value: string,
                            after: seq<string>, body: string, url: Option<UrlParts>, port: Option<int>)
    requires Word(verb) && verb != "CONNECT" && Word(target) && !AbsoluteForm(target)
    requires HeadLike(before + [name + ":" + value] + after) && NoneNames(after, "host")
    requires ':' !in name && Lower(Strip(name)) == "host" && Strip(value) == Authority("", port)
    ensures Parse(Message(Asking(verb, target), before + [name + ":" + value] + after, body), url) == Rejected
  {
    hide Parse, Message, HeadersOf, HeadLike, NoneNames, Strip, HostAndPort, Authority, AbsoluteForm;
    MessageParses(verb, target, before + [name + ":" + value] + after, body, url);
    LastFieldReads(before, name, value, after);
    AuthorityReads("", port);
  }

  lemma NothingIsNoNumber()
    ensures ParseInt("") == None
  {
  }

  /** The last Content-Length line decides the length, and says nothing if it holds no number. */
  lemma LengthIsLastField(verb: string, target: string, before: seq<string>, name: string, value: string,
                          after: seq<string>, body: string, url: Option<UrlParts>)
    requires Word(verb) && Word(target)
    requires HeadLike(before + [name + ":" + value] + after) && NoneNames(after, "content-length")
    requires ':' !in name && Lower(Strip(name)) == "content-length"
    ensures var r := Parse(Message(Asking(verb, target), before + [name + ":" + value] + after, body), url);
            r.Parsed? ==> r.request.contentLength == ParseInt(Strip(value))
  {
    hide Parse, Message, HeadersOf, HeadLike, NoneNames, Strip, HostAndPort, AbsoluteForm, ParseInt;
    MessageParses(verb, target, before + [name + ":" + value] + after, body, url);
    LastFieldReads(before, name, value, after);
    NothingIsNoNumber();
  }

  /** What follows the last colon and is no number belongs to the host. */
  lemma NoNumberNoPort(host: string, rest: string)
    requires ':' !in rest && ParseInt(rest).None?
    ensures HostAndPort(host + ":" + rest) == None
    ensures Named(host + ":" + rest) == (host + ":" + rest, 80)
  {
    hide ParseInt;
    var text := host + ":" + rest;
    assert text[|host|] == ':';
    assert forall j :: |host| < j < |text| ==> text[j] == rest[j - |host| - 1] && text[j] in rest;
    assert FindLast(text, ':') == Some(|host|);
    assert text[|host| + 1..] == rest;
  }

  /** Without a Host line there is nowhere to go. */
  lemma NoHostIsRejected(verb: string, target: string, lines: seq<string>, body: string, url: Option<UrlParts>)
    requires Word(verb) && verb != "CONNECT" && Word(target) && !AbsoluteForm(target)
    requires HeadLike(lines) && NoneNames(lines, "host")
    ensures Parse(Message(Asking(verb, target), lines, body), url) == Rejected
  {
    hide Parse, Message, HeadersOf, HeadLike, NoneNames, AbsoluteForm;
    MessageParses(verb, target, lines, body, url);
    UnnamedFieldIsAbsent(lines, "host");
  }

  // ----- an absolute target -----

  /** Parts the URL library can find in an http or https target. */
  predicate Web(u: UrlParts) {
    && (u.scheme == "http" || u.scheme == "https") && SaneParts(u)
    && u.hostname.Some? && !u.port.BadPort?
  }

  /** The target they are the parts of. */
  function UrlText(u: UrlParts): string
    requires Web(u)
  {
    u.scheme + "://" + u.hostname.value + (if u.port.PortNumber? then ":" + Decimal(u.port.number) else "")
    + u.path + (if u.query == "" then "" else "?" + u.query)
  }

  lemma SolidConcat(a: string, b: string)
    requires Solid(a) && Solid(b)
    ensures Solid(a + b)
  {
  }

  lemma SchemeIsAbsolute(scheme: string, rest: string)
    requires scheme == "http" || scheme == "https"
    ensures AbsoluteForm(scheme + "://" + rest) && Solid(scheme + "://")
  {
    var text := scheme + "://" + rest;
    if scheme == "http" {
      assert scheme + "://" == "http://" && text[..7] == "http://";
    } else {
      assert scheme + "://" == "https://" && text[..8] == "https://";
    }
  }

  lemma MarksAreSolid()
    ensures Solid("") && Solid(":") && Solid("?")
  {
  }

  lemma UrlTextIsTarget(u: UrlParts)
    requires Web(u)
    ensures Word(UrlText(u)) && AbsoluteForm(UrlText(u))
  {
    hide Decimal, AbsoluteForm, Solid;
    var start := u.scheme + "://";
    var port := if u.port.PortNumber? then ":" + Decimal(u.port.number) else "";
    var query := if u.query == "" then "" else "?" + u.query;
    if u.port.PortNumber? {
      DecimalIsOneLine(u.port.number);
      assert DecimalInt(u.port.number) == Decimal(u.port.number);
    }
    MarksAreSolid();
    SolidConcat(":", if u.port.PortNumber? then Decimal(u.port.number) else "");
    SolidConcat("?", u.query);
    SchemeIsAbsolute(u.scheme, u.hostname.value + port + u.path + query);
    SolidConcat(start, u.hostname.value);
    SolidConcat(start + u.hostname.value, port);
    SolidConcat(start + u.hostname.value + port, u.path);
    SolidConcat(start + u.hostname.value + port + u.path, query);
    assert UrlText(u) == start + (u.hostname.value + port + u.path + query);
  }

  /** From an absolute target: its host; its port, or the usual one of its scheme; its path and query; whatever the
      header lines say. */
  lemma AbsoluteGoesTo(verb: string, u: UrlParts, lines: seq<string>, body: string)
    requires Word(verb) && verb != "CONNECT" && Web(u) && HeadLike(lines)
    ensures var r := Parse(Message(Asking(verb, UrlText(u)), lines, body), Some(u));
            && r.Parsed? && r.request.verb == verb && Some(r.request.host) == u.hostname
            && r.request.headers == HeadersOf(lines) && r.request.body == body
            && (forall n :: n > 0 && u.port == PortNumber(n) ==> r.request.port == n)
            && (u.port == NoPort || u.port == PortNumber(0) ==> r.request.port == if u.scheme == "https" then 443 else 80)
            && (u.path != "" && u.query == "" ==> r.request.path == Some(u.path))
            && (u.path != "" && u.query != "" ==> r.request.path == Some(u.path + "?" + u.query))
            && (u.path == "" && u.query == "" ==> r.request.path == Some("/"))
            && (u.path == "" && u.query != "" ==> r.request.path == Some("/?" + u.query))
  {
    hide Parse, Message, HeadersOf, HeadLike, UrlText, AbsoluteForm, Solid;
    UrlTextIsTarget(u);
    MessageParses(verb, UrlText(u), lines, body, Some(u));
    assert "/" + "?" + u.query == "/?" + u.query;
  }

  /** What the library cannot take apart raises; what has no host is refused. */
  lemma BadUrlIsRefused(verb: string, target: string, lines: seq<string>, body: string, url: Option<UrlParts>)
    requires Word(verb) && verb != "CONNECT" && Word(target) && AbsoluteForm(target) && HeadLike(lines)
    ensures var outcome := Parse(Message(Asking(verb, target), lines, body), url);
            && (url.None? || url.value.port.BadPort? ==> outcome == Raised)
            && (url.Some? && !url.value.port.BadPort? && url.value.hostname in {None, Some("")} ==> outcome == Rejected)
  {
    hide Parse, Message, HeadersOf, HeadLike, AbsoluteForm;
    MessageParses(verb, target, lines, body, url);
  }

  /** The port a URL stands for. */
  predicate StandsFor(u: UrlParts, port: nat) {
    if u.port.PortNumber? && u.port.number != 0 then port == u.port.number
    else port == if u.scheme == "https" then 443 else 80
  }

  lemma HostPortField(host: string, port: nat)
    requires Word(host)
    ensures var value := " " + host + ":" + DecimalInt(port);
            && "Host: " + host + ":" + DecimalInt(port) == "Host" + ":" + value
            && Strip(value) == Authority(host, Some(port)) && OneLine("Host" + ":" + value)
            && Lower(Strip("Host")) == "host"
  {
    hide DecimalInt, Strip;
    var digits := DecimalInt(port);
    var text := host + ":" + digits;
    DecimalIsOneLine(port);
    assert Solid(text) && text[0] == host[0] && text[|text| - 1] == digits[|digits| - 1];
    assert host[0] in host && digits[|digits| - 1] in digits;
    assert " " + host + ":" + digits == " " + text;
    StripPadded(text);
    SolidIsOneLine(text);
    OneLineConcat("Host: ", text);
    assert "Host: " + text == "Host: " + host + ":" + digits;
    StripTrimmed("Host", TextBlanks);
    assert Lower("Host") == "host";
  }

  /** The request a client makes of a proxy, with an absolute target, goes where the request goes that it would make of
      the origin itself: with the path as its target and the host and port in a Host line. */
  lemma AbsoluteIsOrigin(verb: string, u: UrlParts, port: nat, lines: seq<string>, body: string, url: Option<UrlParts>)
    requires Word(verb) && verb != "CONNECT" && Web(u) && u.path != "" && HeadLike(lines) && StandsFor(u, port)
    ensures var target := u.path + (if u.query == "" then "" else "?" + u.query);
            var host := "Host: " + u.hostname.value + ":" + DecimalInt(port);
            var a := Parse(Message(Asking(verb, UrlText(u)), lines, body), Some(u));
            var b := Parse(Message(Asking(verb, target), [host], body), url);
            a.Parsed? && b.Parsed? && SameDestination(a.request, b.request) && a.request.body == b.request.body
  {
    hide Parse, Message, UrlText, DecimalInt, HeadersOf;
    var target := u.path + (if u.query == "" then "" else "?" + u.query);
    var value := " " + u.hostname.value + ":" + DecimalInt(port);
    AbsoluteGoesTo(verb, u, lines, body);
    assert target[0] == '/' && Solid(target) && !AbsoluteForm(target);
    HostPortField(u.hostname.value, port);
    var host := "Host" + ":" + value;
    assert [] + [host] + [] == [host];
    assert target == if u.query == "" then u.path else u.path + "?" + u.query;
    OriginGoesTo(verb, target, [], "Host", value, [], body, url, u.hostname.value, Some(port));
  }

  // ----- CONNECT -----

  /** A tunnel goes to the host and port of the target, whatever the header lines say. */
  lemma ConnectGoesTo(host: string, port: nat, lines: seq<string>, body: string, url: Option<UrlParts>)
    requires Word(host) && HeadLike(lines)
    ensures var r := Parse(Message(Asking("CONNECT", host + ":" + DecimalInt(port)), lines, body), url);
            && r.Parsed? && r.request.verb == "CONNECT" && r.request.host == host && r.request.port == port
            && r.request.path == None && r.request.headers == HeadersOf(lines) && r.request.body == body
  {
    hide Parse, Message, HeadersOf, HeadLike, DecimalInt, HostAndPort;
    var target := host + ":" + DecimalInt(port);
    DecimalIsOneLine(port);
    assert Word("CONNECT") && Word(target);
    MessageParses("CONNECT", target, lines, body, url);
    PrintedPortReads(host, port);
  }

  lemma ConnectIsWord()
    ensures Word("CONNECT")
  {
  }

  lemma ConnectNeedsHost(port: nat, lines: seq<string>, body: string, url: Option<UrlParts>)
    requires HeadLike(lines)
    ensures Parse(Message(Asking("CONNECT", ":" + DecimalInt(port)), lines, body), url) == Rejected
  {
    hide Parse, Message, HeadersOf, HeadLike, DecimalInt, HostAndPort;
    var target := ":" + DecimalInt(port);
    DecimalIsOneLine(port);
    assert Word("CONNECT") && Word(target);
    MessageParses("CONNECT", target, lines, body, url);
    assert target == "" + ":" + DecimalInt(port);
    PrintedPortReads("", port);
  }

  lemma NoColonNoPort(text: string)
    requires ':' !in text
    ensures HostAndPort(text) == None
  {
    assert forall j :: 0 <= j < |text| ==> text[j] in text && text[j] != ':';
  }

  /** Without a colon, or without a number after the last one, a tunnel has nowhere to go. */
  lemma ConnectNeedsPort(host: string, rest: string, lines: seq<string>, body: string, url: Option<UrlParts>)
    requires HeadLike(lines) && ':' !in rest
    ensures Word(rest) ==> Parse(Message(Asking("CONNECT", rest), lines, body), url) == Rejected
    ensures Word(host + ":" + rest) && ParseInt(rest).None? ==>
              Parse(Message(Asking("CONNECT", host + ":" + rest), lines, body), url) == Rejected
  {
    hide Parse, Message, HeadersOf, HeadLike, ParseInt, HostAndPort, Solid;
    assert Word("CONNECT") by {
      ConnectIsWord();
    }
    if Word(rest) {
      MessageParses("CONNECT", rest, lines, body, url);
      NoColonNoPort(rest);
    }
    if Word(host + ":" + rest) && ParseInt(rest).None? {
      MessageParses("CONNECT", host + ":" + rest, lines, body, url);
      NoNumberNoPort(host, rest);
    }
  }

  // ----- what is no request -----

  lemma NoFields(cuts: nat)
    ensures Fields("", cuts) == []
  {
  }

  /** A request line of two words is refused. */
  lemma TwoWordsAreRejected(verb: string, target: string, lines: seq<string>, body: string, url: Option<UrlParts>)
    requires Word(verb) && Word(target) && HeadLike(lines)
    ensures Parse(Message(verb + " " + target, lines, body), url) == Rejected
  {
    hide Head, Message, Fields, OneLine;
    var first := verb + " " + target;
    FieldsStep(verb, " " + target, 2, TextBlanks);
    FieldsPad(target, 1, TextBlanks);
    assert target + "" == target;
    FieldsStep(target, "", 1, TextBlanks);
    assert first == verb + (" " + target);
    NoFields(0);
    assert verb + " " + target + " " + "" == first + " ";
    ThreeWordsOneLine(verb, target, "");
    OneLinePiece(first + " ", 0, |first|);
    assert (first + " ")[0..|first|] == first;
    MessageHead(first, lines, body);
  }
}
