/** The request sent to the origin server. */
module OutboundRequest {
  import opened Options
  import opened Text
  import opened HeadLines
  import opened OrderedDict
  import opened RequestParser

  const HOP_BY_HOP := {
    "connection", "keep-alive", "proxy-authenticate", "proxy-authorization", "proxy-connection",
    "te", "trailers", "transfer-encoding", "upgrade"
  }

  function HostValue(host: string, port: int): string {
    if port == 80 || port == 443 then host else host + ":" + DecimalInt(port)
  }

  predicate Kept(key: string) {
    key !in HOP_BY_HOP && key != "host"
  }

  function KeptLines(headers: Dict): seq<string> {
    if headers == [] then []
    else (if Kept(headers[0].0) then [headers[0].0 + ": " + headers[0].1] else []) + KeptLines(headers[1..])
  }

  /** The forwarding chain after this hop; an empty value or address counts as none. */
  function ForwardedFor(existing: Option<string>, clientIp: Option<string>): Option<string> {
    var prior := if existing == Some("") then None else existing;
    if clientIp.Some? && clientIp.value != "" then
      Some(if prior.Some? then prior.value + ", " + clientIp.value else clientIp.value)
    else
      prior
  }

  function HeaderLines(r: Request, clientIp: Option<string>): seq<string> {
    var forwarded := ForwardedFor(Get(r.headers, "x-forwarded-for"), clientIp);
    ["Host: " + HostValue(r.host, r.port)] + KeptLines(r.headers) + ["Connection: close"]
    + (if forwarded.Some? then ["X-Forwarded-For: " + forwarded.value] else [])
    + ["Via: 1.1 proxy"]
  }

  function RequestLine(r: Request): string {
    r.verb + " " + (if r.path.Some? then r.path.value else "None") + " HTTP/1.1"
  }

  predicate TakesBody(verb: string) {
    verb == "POST" || verb == "PUT" || verb == "PATCH"
  }

  function SentBody(r: Request): string {
    if TakesBody(r.verb) || (r.contentLength.Some? && r.contentLength.value > 0) then r.body else ""
  }

  function Build(r: Request, clientIp: Option<string>): string {
    RequestLine(r) + CRLF + Join(HeaderLines(r, clientIp), CRLF) + TERMINATOR + SentBody(r)
  }

  /** The loop over the client's headers. */
  method KeepEndToEnd(headers: Dict, outHeaders: seq<string>) returns (more: seq<string>)
    ensures more == outHeaders + KeptLines(headers)
  {
    more := outHeaders;
    var i := 0;
    while i < |headers|
      invariant 0 <= i <= |headers|
      invariant more + KeptLines(headers[i..]) == outHeaders + KeptLines(headers)
    {
      var key, value := headers[i].0, headers[i].1;
      assert headers[i..][1..] == headers[i + 1..];
      if Kept(key) {
        more := more + [key + ": " + value];
      }
      i := i + 1;
    }
  }

  /** The builder as it runs: one growing list of header lines. */
  method BuildOutboundRequest(r: Request, clientIp: Option<string>) returns (bytes: string)
    ensures bytes == Build(r, clientIp)
  {
    hide DecimalInt, Get, Join, KeptLines;
    var outHeaders: seq<string>;
    if r.port == 80 || r.port == 443 {
      outHeaders := ["Host: " + r.host];
    } else {
      outHeaders := ["Host: " + (r.host + ":" + DecimalInt(r.port))];
    }
    outHeaders := KeepEndToEnd(r.headers, outHeaders);
    outHeaders := outHeaders + ["Connection: close"];

    var existing := Get(r.headers, "x-forwarded-for");
    if clientIp.Some? && clientIp.value != "" {
      if existing.Some? && existing.value != "" {
        outHeaders := outHeaders + ["X-Forwarded-For: " + (existing.value + ", " + clientIp.value)];
      } else {
        outHeaders := outHeaders + ["X-Forwarded-For: " + clientIp.value];
      }
    } else if existing.Some? && existing.value != "" {
      outHeaders := outHeaders + ["X-Forwarded-For: " + existing.value];
    }
    outHeaders := outHeaders + ["Via: 1.1 proxy"];
    assert outHeaders == HeaderLines(r, clientIp);

    bytes := RequestLine(r) + CRLF + Join(outHeaders, CRLF) + TERMINATOR;
    if TakesBody(r.verb) && r.body != "" {
      bytes := bytes + r.body;
    } else if r.contentLength.Some? && r.contentLength.value > 0 && r.body != "" {
      bytes := bytes + r.body;
    }
  }
}
