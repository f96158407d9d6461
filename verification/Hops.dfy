/** A request travelling through a chain of these proxies. */
module Hops {
  import opened Options
  import opened Text
  import opened OrderedDict
  import opened RequestParser
  import opened OutboundRequest
  import opened RoundTrip

  /** Each hop prints what it parsed, with its own client's address, and the next one parses that.
      The printed target is never absolute, so the URL library is not asked. */
  function Travel(r: Request, clients: seq<string>): Outcome
    decreases |clients|
  {
    if clients == [] then Parsed(r)
    else
      match Travel(r, clients[..|clients| - 1])
      case Rejected => Rejected
      case Raised => Raised
      case Parsed(last) => Parse(Build(last, Some(clients[|clients| - 1])), None)
  }

  function ListOf(items: seq<string>): string {
    Join(items, ", ")
  }

  /** The chain a reader expects: what the first client sent, if anything, and then every address in order. */
  function Chain(initial: Option<string>, clients: seq<string>): Option<string> {
    if clients == [] then initial
    else if initial.Some? && initial.value != "" then Some(ListOf([initial.value] + clients))
    else Some(ListOf(clients))
  }

  lemma {:induction false} ListAppends(items: seq<string>, item: string)
    requires items != []
    ensures ListOf(items + [item]) == ListOf(items) + ", " + item
  {
    if |items| == 1 {
      var two := items + [item];
      assert two == [items[0], item] && two[1..] == [item];
      assert Join(two[1..], ", ") == item;
    } else {
      assert (items + [item])[1..] == items[1..] + [item];
      ListAppends(items[1..], item);
      assert items[0] + ", " + (ListOf(items[1..]) + ", " + item) == items[0] + ", " + ListOf(items[1..]) + ", " + item;
    }
  }

  lemma ChainGrows(initial: Option<string>, clients: seq<string>, ip: string)
    requires ip != "" && forall i :: 0 <= i < |clients| ==> clients[i] != ""
    ensures ForwardedFor(Chain(initial, clients), Some(ip)) == Chain(initial, clients + [ip])
  {
    if clients == [] {
      assert clients + [ip] == [ip];
      if initial.Some? && initial.value != "" {
        ListAppends([initial.value], ip);
      }
    } else if initial.Some? && initial.value != "" {
      ListAppends([initial.value] + clients, ip);
      assert [initial.value] + clients + [ip] == [initial.value] + (clients + [ip]);
    } else {
      ListAppends(clients, ip);
    }
  }

  predicate Addresses(clients: seq<string>) {
    forall i :: 0 <= i < |clients| ==> Address(clients[i])
  }

  /** The body that is passed on: all of it if the method is one that has a body or the length announces one. */
  predicate HasBodyOf(end: Request, r: Request) {
    end.body == if r.verb == "POST" || r.verb == "PUT" || r.verb == "PATCH"
                   || (r.contentLength.Some? && r.contentLength.value > 0) then r.body else ""
  }

  /** What arrives after any number of hops. */
  ghost predicate Arrives(r: Request, clients: seq<string>, end: Request) {
    && Forwardable(end) && SameDestination(end, r) && end.contentLength == r.contentLength
    && Get(end.headers, "x-forwarded-for") == Chain(Get(r.headers, "x-forwarded-for"), clients)
    && (clients == [] ==> end == r)
    && (clients != [] ==>
          && HasBodyOf(end, r)
          && Get(end.headers, "connection") == Some("close")
          && Get(end.headers, "via") == Some("1.1 proxy"))
  }

  lemma ForwardableIsNotConnect(r: Request)
    requires Forwardable(r)
    ensures r.verb != "CONNECT"
  {
  }

  lemma ChainIsSome(initial: Option<string>, clients: seq<string>)
    requires clients != []
    ensures Chain(initial, clients).Some?
  {
  }

  lemma OneHop(r: Request, clients: seq<string>, last: Request, ip: string)
    requires Address(ip) && Addresses(clients) && HostSurvives(r.host, r.port) && Arrives(r, clients, last)
    ensures var next := Parse(Build(last, Some(ip)), None);
            next.Parsed? && Arrives(r, clients + [ip], next.request)
  {
    hide Build, Parse, Get, Chain, ForwardedFor, Forwardable, HostSurvives, Kept;
    var next := Parse(Build(last, Some(ip)), None);
    RoundTripRestores(last, Some(ip), None, "x-forwarded-for");
    RoundTripRestores(last, Some(ip), None, "connection");
    RoundTripRestores(last, Some(ip), None, "via");
    assert next.request.verb != "CONNECT" by {
      ForwardableIsNotConnect(last);
    }
    ParsedIsForwardable(Build(last, Some(ip)), None);
    FixedNames();
    ChainGrows(Get(r.headers, "x-forwarded-for"), clients, ip);
    ChainIsSome(Get(r.headers, "x-forwarded-for"), clients + [ip]);
  }

  /** Over any number of hops the request keeps its destination, length and body, and
      X-Forwarded-For lists the original value and then every client address, in order. */
  lemma {:induction false} TravelKeepsTrack(r: Request, clients: seq<string>)
    requires Forwardable(r) && HostSurvives(r.host, r.port) && Addresses(clients)
    ensures Travel(r, clients).Parsed? && Arrives(r, clients, Travel(r, clients).request)
    decreases |clients|
  {
    hide Build, Parse, Get, HostSurvives, Forwardable;
    if clients != [] {
      var before, ip := clients[..|clients| - 1], clients[|clients| - 1];
      TravelKeepsTrack(r, before);
      OneHop(r, before, Travel(r, before).request, ip);
      assert before + [ip] == clients;
    }
  }

  lemma HopByHopNames(name: string)
    requires name in HOP_BY_HOP
    ensures !Kept(name) && name != "via" && name != "host" && name != "x-forwarded-for"
  {
    FixedNames();
    assert forall h :: h in HOP_BY_HOP ==> h[0] != 'h';
    assert "host"[0] == 'h';
  }

  /** After at least one hop the eight hop-by-hop headers other than Connection are gone, the proxy's own credentials
      among them, and every header but those and the four rewritten ones is what the client sent. */
  lemma {:induction false} TravelStripsHopByHop(r: Request, clients: seq<string>, name: string)
    requires Forwardable(r) && HostSurvives(r.host, r.port) && Addresses(clients) && clients != []
    ensures Travel(r, clients).Parsed?
    ensures name in {"keep-alive", "proxy-authenticate", "proxy-authorization", "proxy-connection", "te", "trailers",
                     "transfer-encoding", "upgrade"}
            ==> Get(Travel(r, clients).request.headers, name) == None
    ensures name !in {"keep-alive", "proxy-authenticate", "proxy-authorization", "proxy-connection", "te", "trailers",
                      "transfer-encoding", "upgrade", "connection", "host", "via", "x-forwarded-for"}
            ==> Get(Travel(r, clients).request.headers, name) == Get(r.headers, name)
    decreases |clients|
  {
    hide Build, Parse, Get, HostSurvives, Forwardable, ForwardedFor;
    var before, ip := clients[..|clients| - 1], clients[|clients| - 1];
    TravelKeepsTrack(r, before);
    var last := Travel(r, before).request;
    RoundTripRestores(last, Some(ip), None, name);
    if name in HOP_BY_HOP {
      HopByHopNames(name);
    }
    if before != [] {
      TravelStripsHopByHop(r, before, name);
    }
  }
}
