/** One connection from its first byte to its last, on the real objects: reader, parser, limiter, cache, relay. */
module Handler {
  import opened Options
  import DF = DomainFilter
  import opened Logins
  import opened LruCache
  import opened Metering
  import OD = OrderedDict
  import opened OutboundRequest
  import opened PasswordHash
  import opened RateLimiting
  import opened RequestParser
  import opened TokenBuckets
  import Reader = RequestReader
  import RR = ResponseRelay
  import Text

  /** What libraries answer: key derivation, decoding of credentials, addresses and networks. */
  datatype Libraries = Libraries(kdf: Kdf, decode: string -> Option<string>, addresses: DF.Addresses)

  /** What is read at the start: the configuration, the users and the blocklist. */
  datatype Site = Site(
    policy: Policy,
    limiting: bool,
    cache: Config,
    limit: nat,
    users: OD.Dict,
    blocklist: DF.Blocklist,
    libraries: Libraries)

  /** What handlers share. */
  datatype Shared = Shared(registry: Registry, cache: Cache, metrics: Metrics)

  /** What everything outside this proxy answers during one connection: the URL library, the clocks, and the two
      sockets. */
  datatype World = World(
    client: string,
    url: Option<UrlParts>,
    call: Call,
    listens: bool,            // the client accepts error replies
    lookupAt: real,
    connects: bool,
    accepts: bool,            // the origin takes the request, or the client the tunnel
    turns: seq<RR.Turn>,
    storedAt: real)

  datatype Reply =
    | Silent
    | Status(code: nat)
    | Limited(retryAfter: int)
    | Tunnelled
    | Cached(response: string)
    | Relayed(toOrigin: string, toClient: string)

  function Fail(m: Metrics): Metrics {
    m.(errors := m.errors + 1)
  }

  /** An error reply the client does not take is an exception. */
  function Told(m: Metrics, w: World): Metrics {
    if w.listens then m else Fail(m)
  }

  function KeyOf(r: Request): Key {
    Key(r.verb, r.host, r.port, if r.path.Some? then r.path.value else "None")
  }

  function Limit(site: Site, registry: Registry, w: World): (Registry, bool) {
    if site.limiting then IsAllowedOf(site.policy, registry, w.call, true) else (registry, true)
  }

  function RetryAnswerOf(site: Site, registry: Registry, w: World): RetryAnswer {
    WaitReported(site.policy, registry, w.call.ip)
  }

  function PasswordOf(site: Site, r: Request): Check {
    CheckAuth(site.libraries.kdf, site.users, r.headers, site.libraries.decode)
  }

  ghost predicate OnBlocklist(site: Site, r: Request) {
    DF.Blocked(site.libraries.addresses, site.blocklist, Some(r.host))
  }

  function Store(site: Site, cache: Cache, r: Request, w: World): Cache {
    match RR.StoreOf(RR.AfterChunks(r.verb, RR.Chunks(w.turns), site.limit))
    case None => cache
    case Some(x) => Put(site.cache, cache, KeyOf(r), Entry(x.response, Some(x.size), Some(w.storedAt)), w.storedAt)
  }

  function Look(site: Site, cache: Cache, r: Request, w: World): (Cache, Option<Entry>) {
    if r.verb == "GET" then Get(site.cache, cache, KeyOf(r), w.lookupAt) else (cache, None)
  }

  /** Cache, then origin. */
  function Forward(site: Site, cache: Cache, m: Metrics, r: Request, w: World): (Cache, Metrics, Reply) {
    var (looked, found) := Look(site, cache, r, w);
    if found.Some? then (looked, m.(cached := m.cached + 1), Cached(found.value.response))
    else if !w.connects || !w.accepts then (looked, Fail(m), Status(502))
    else (Store(site, looked, r, w), m, Relayed(Build(r, Some(w.client)), RR.Flatten(RR.Chunks(w.turns))))
  }

  /** A request that was let through. */
  function LetThrough(site: Site, s: Shared, r: Request, w: World): (Shared, Reply) {
    if r.verb == "CONNECT" then
      if w.connects && w.accepts then (s, Tunnelled) else (s.(metrics := Fail(s.metrics)), Status(502))
    else
      var (cache, m, reply) := Forward(site, s.cache, s.metrics, r, w);
      (s.(cache := cache, metrics := m), reply)
  }

  /** Limiter, password, blocklist, in this order. */
  ghost function Screen(site: Site, s: Shared, r: Request, w: World): (Shared, Reply) {
    var m := s.metrics.(total := s.metrics.total + 1);
    var (registry, passes) := Limit(site, s.registry, w);
    var s' := s.(registry := registry, metrics := m);
    if !passes then
      match RetryAnswerOf(site, registry, w)
      case DivisionByZero => (s'.(metrics := Fail(m)), Silent)
      case Seconds(k) => (s'.(metrics := Told(m.(rateLimited := m.rateLimited + 1), w)), Limited(k))
    else if PasswordOf(site, r) == Check.Raised then (s'.(metrics := Fail(m)), Silent)
    else if !PasswordOf(site, r).ok then (s'.(metrics := Told(m, w)), Status(407))
    else if OnBlocklist(site, r) then (s'.(metrics := Told(m.(blocked := m.blocked + 1), w)), Status(403))
    else LetThrough(site, s'.(metrics := m.(allowed := m.allowed + 1)), r, w)
  }

  /** Everything after the bytes are in. */
  ghost function Handle(site: Site, s: Shared, data: string, w: World): (Shared, Reply) {
    if data == "" then (s, Silent)
    else
      match Parse(data, w.url)
      case Raised => (s.(metrics := Fail(s.metrics)), Silent)
      case Rejected => (s.(metrics := Fail(s.metrics)), Status(400))
      case Parsed(r) => Screen(site, s, r, w)
  }

  class ProxyHandler {
    const site: Site
    const limiter: RateLimiter
    const cache: LRUCache
    var metrics: Metrics

    ghost predicate Valid()
      reads this, limiter, limiter.Repr(), cache, cache.stats
    {
      && limiter.Valid() && cache.Valid()
      && limiter.policy == site.policy && limiter.enabled == site.limiting && cache.config == site.cache
      && this !in limiter.Repr() && cache !in limiter.Repr() && cache.stats !in limiter.Repr()
    }

    ghost function View(): Shared
      reads this, limiter, limiter.Repr(), cache, cache.stats
    {
      Shared(limiter.View(), cache.View(), metrics)
    }

    constructor (site: Site, limiter: RateLimiter, cache: LRUCache)
      requires limiter.Valid() && cache.Valid()
      requires limiter.policy == site.policy && limiter.enabled == site.limiting && cache.config == site.cache
      requires cache !in limiter.Repr() && cache.stats !in limiter.Repr()
      ensures Valid() && this.site == site && this.limiter == limiter && this.cache == cache
      ensures View() == Shared(limiter.View(), cache.View(), Metrics(0, 0, 0, 0, 0, 0))
    {
      this.site, this.limiter, this.cache := site, limiter, cache;
      metrics := Metrics(0, 0, 0, 0, 0, 0);
    }

    method ForwardHttp(r: Request, w: World) returns (reply: Reply)
      requires Valid()
      modifies this, cache, cache.stats
      ensures Valid() && cache.stats == old(cache.stats) && limiter.View() == old(limiter.View())
      ensures (cache.View(), metrics, reply) == Forward(site, old(cache.View()), old(metrics), r, w)
    {
      hide Get, Put, Build, RR.StoreOf, RR.AfterChunks, RR.Chunks, RR.Flatten, WellFormed,
           RateLimiter.Valid, RateLimiter.View;
      var found: Option<Entry> := None;
      if r.verb == "GET" {
        found := cache.Lookup(KeyOf(r), w.lookupAt);
      }
      if found.Some? {
        metrics := metrics.(cached := metrics.cached + 1);
        return Cached(found.value.response);
      }
      if !w.connects {
        metrics := metrics.(errors := metrics.errors + 1);
        return Status(502);
      }
      var outbound := BuildOutboundRequest(r, Some(w.client));
      if !w.accepts {
        metrics := metrics.(errors := metrics.errors + 1);
        return Status(502);
      }
      var sent, stored := RR.StreamResponse(r.verb, w.turns, site.limit);
      if stored.Some? {
        cache.Store(KeyOf(r), Entry(stored.value.response, Some(stored.value.size), Some(w.storedAt)), w.storedAt);
      }
      reply := Relayed(outbound, sent);
    }

    method HandleClient(sock: Reader.Socket, w: World) returns (reply: Reply)
      requires Valid() && sock.Valid() && sock.pos == 0
      modifies this, limiter.Repr(), cache, cache.stats, sock
      ensures Valid()
      ensures (View(), reply) == Handle(site, old(View()), Reader.Read(sock.peer), w)
    {
      hide Screen, Parse, Reader.Read, Reader.ValidPeer, WellFormed, RateLimiter.Valid, RateLimiter.View;
      var raw := Reader.RecvHttpRequest(sock);
      if raw == "" {
        return Silent;
      }
      var outcome := ParseRequest(raw, w.url);
      if outcome.Raised? {
        metrics := metrics.(errors := metrics.errors + 1);
        return Silent;
      }
      if outcome.Rejected? {
        metrics := metrics.(errors := metrics.errors + 1);
        return Status(400);
      }
      var r := outcome.request;
      reply := ScreenRequest(r, w);
    }

    /** The limiter's decision, and after a rejection what it tells the client to wait. */
    method CheckLimit(w: World) returns (passes: bool, answer: RetryAnswer)
      requires Valid()
      modifies limiter.Repr()
      ensures Valid() && cache.View() == old(cache.View())
      ensures (limiter.View(), passes) == Limit(site, old(limiter.View()), w)
      ensures !passes ==> answer == RetryAnswerOf(site, limiter.View(), w)
    {
      hide IsAllowedOf, RetryAfterOf, WellFormed;
      passes, answer := true, Seconds(0);
      if site.limiting {
        passes := limiter.IsAllowed(w.call);
        if !passes {
          answer := limiter.GetRetryAfter(w.call.ip);
        }
      }
    }

    method CheckBlocklist(r: Request) returns (blocked: bool)
      ensures blocked == OnBlocklist(site, r)
    {
      blocked := DF.IsBlocked(site.libraries.addresses, site.blocklist, Some(r.host));
    }

    method ServeRequest(r: Request, w: World) returns (reply: Reply)
      requires Valid()
      modifies this, cache, cache.stats
      ensures Valid()
      ensures (View(), reply) == LetThrough(site, old(View()), r, w)
    {
      hide Forward, WellFormed, RateLimiter.Valid, RateLimiter.View;
      if r.verb == "CONNECT" {
        if w.connects && w.accepts {
          return Tunnelled;
        }
        metrics := metrics.(errors := metrics.errors + 1);
        return Status(502);
      }
      reply := ForwardHttp(r, w);
    }

    method ScreenRequest(r: Request, w: World) returns (reply: Reply)
      requires Valid()
      modifies this, limiter.Repr(), cache, cache.stats
      ensures Valid()
      ensures (View(), reply) == Screen(site, old(View()), r, w)
    {
      hide Limit, RetryAnswerOf, PasswordOf, OnBlocklist, LetThrough, WellFormed, RateLimiter.Valid, RateLimiter.View;
      metrics := metrics.(total := metrics.total + 1);
      var passes, answer := CheckLimit(w);
      if !passes {
        if answer.DivisionByZero? {
          metrics := metrics.(errors := metrics.errors + 1);
          return Silent;
        }
        metrics := metrics.(rateLimited := metrics.rateLimited + 1);
        metrics := Told(metrics, w);
        return Limited(answer.seconds);
      }
      var password := PasswordOf(site, r);
      if password == Check.Raised {
        metrics := metrics.(errors := metrics.errors + 1);
        return Silent;
      }
      if !password.ok {
        metrics := Told(metrics, w);
        return Status(407);
      }
      var blocked := CheckBlocklist(r);
      if blocked {
        metrics := metrics.(blocked := metrics.blocked + 1);
        metrics := Told(metrics, w);
        return Status(403);
      }
      metrics := metrics.(allowed := metrics.allowed + 1);
      reply := ServeRequest(r, w);
    }
  }

  // ----- what one connection does -----

  /** Every counted request ends in exactly one way: rate limited, refused its password, blocked, allowed, or
      cut short because the limiter or the password check raised; and no connection adds more than one error. */
  lemma HandleBalances(site: Site, s: Shared, data: string, w: World)
    ensures var (s', reply) := Handle(site, s, data, w);
            var (a, b) := (s.metrics, s'.metrics);
            && b.total - a.total
               == (b.rateLimited - a.rateLimited) + (b.blocked - a.blocked) + (b.allowed - a.allowed)
                  + (if reply == Status(407) then 1 else 0)
                  + (if b.total > a.total && reply.Silent? then 1 else 0)
            && a.total <= b.total <= a.total + 1
            && a.cached <= b.cached && b.cached - a.cached <= b.allowed - a.allowed
            && (b.cached > a.cached <==> reply.Cached?)
            && a.errors <= b.errors <= a.errors + 1
  {
    hide Parse, Limit, RetryAnswerOf, PasswordOf, OnBlocklist, Look, Store, Build;
  }

  lemma NoRequestInNothing(url: Option<UrlParts>)
    ensures !Parse("", url).Parsed?
  {
  }

  /** What a call does with the bucket it asks: after a prune that comes late enough it is gone. */
  predicate Forgotten(registry: Registry, call: Call) {
    call.prunedAt - registry.lastPrune >= PRUNE_INTERVAL && call.prunedAt - call.consumedAt > STALE_THRESHOLD
  }

  lemma RejectedBucket(site: Site, registry: Registry, w: World)
    requires !Limit(site, registry, w).1
    ensures var after := Limit(site, registry, w).0;
            && (w.call.ip in after.buckets <==> !Forgotten(registry, w.call))
            && (RetryAnswerOf(site, after, w).DivisionByZero? <==> site.policy.rate == 0.0 && !Forgotten(registry, w.call))
            && (Forgotten(registry, w.call) ==> RetryAnswerOf(site, after, w) == Seconds(1))
  {
    var fetched := Fetch(site.policy, registry, w.call.ip, w.call.fetchedAt);
    RetryAfterFailsIff(site.policy, fetched.buckets[w.call.ip], w.call.consumedAt);
  }

  /** A rejected request gets its 429 exactly when the refill rate is not zero, or its bucket was forgotten within
      the call, when it is told one second; otherwise the connection ends without a reply, counted as an error and not
      as rate limited. */
  lemma LimitedIffRate(site: Site, s: Shared, data: string, w: World)
    requires Parse(data, w.url).Parsed? && !Limit(site, s.registry, w).1
    ensures var (s', reply) := Handle(site, s, data, w);
            && (reply.Limited? <==> site.policy.rate != 0.0 || Forgotten(s.registry, w.call))
            && (Forgotten(s.registry, w.call) ==> reply == Limited(1))
            && (!reply.Limited? ==> reply == Silent && s'.metrics.rateLimited == s.metrics.rateLimited
                                    && s'.metrics.errors == s.metrics.errors + 1)
  {
    hide Parse, Limit, RetryAnswerOf;
    NoRequestInNothing(w.url);
    RejectedBucket(site, s.registry, w);
  }

  /** The failing input: a rate of zero, a bucket whose tokens are spent, and any request. */
  lemma ZeroRateIsSilent(site: Site, s: Shared, data: string, w: World)
    requires site.limiting && site.policy == Policy(1, 0.0)
    requires s.registry == Registry(map["c" := Bucket(0.0, 1.0)], 0.0) && w.call == Call("c", 2.0, 2.0, 2.0)
    requires Parse(data, w.url).Parsed?
    ensures var (s', reply) := Handle(site, s, data, w);
            reply == Silent && s'.metrics.total == s.metrics.total + 1 && s'.metrics.rateLimited == s.metrics.rateLimited
  {
    hide Parse, RetryAnswerOf;
    assert Level(site.policy, Bucket(0.0, 1.0), 2.0) == 0.0;
    LimitedIffRate(site, s, data, w);
  }

  /** Replies that follow an attempt to reach the origin, open a tunnel or use the cache. */
  predicate GoesOut(reply: Reply) {
    reply.Relayed? || reply.Cached? || reply.Tunnelled? || reply == Status(502)
  }

  /** The request carries the name of a user and a password that passes against what is stored for that user. */
  ghost predicate CarriesLogin(site: Site, r: Request, name: string, plain: string) {
    && Carries(r.headers, site.libraries.decode, name, plain)
    && OD.Has(site.users, name)
    && VerifyPassword(site.libraries.kdf, plain, OD.Get(site.users, name).value) == Verdict(true)
  }

  /** No listed domain is the host or a name above it. */
  ghost predicate OffDomains(site: Site, r: Request) {
    forall domain :: domain in site.blocklist.domains ==>
      !DF.IsTail(DF.Labels(domain), DF.Labels(DF.Canonical(r.host)))
  }

  /** No listed network contains the host. */
  ghost predicate OffNetworks(site: Site, r: Request) {
    forall network :: network in site.blocklist.networks ==>
      !site.libraries.addresses.contains(network, DF.Canonical(r.host))
  }

  lemma PasswordMeans(site: Site, r: Request)
    ensures PasswordOf(site, r) == Verdict(true) <==> exists name, plain :: CarriesLogin(site, r, name, plain)
  {
    hide CheckAuth, Carries, VerifyPassword, OD.Get;
    AuthPassesIff(site.libraries.kdf, site.users, r.headers, site.libraries.decode);
    if name, plain :| Carries(r.headers, site.libraries.decode, name, plain) && OD.Get(site.users, name).Some?
                      && VerifyPassword(site.libraries.kdf, plain, OD.Get(site.users, name).value) == Verdict(true) {
      assert CarriesLogin(site, r, name, plain);
    }
  }

  lemma BlocklistMeans(site: Site, r: Request)
    requires r.host != ""
    ensures OnBlocklist(site, r) <==> !(OffDomains(site, r) && OffNetworks(site, r))
  {
    hide DF.Labels, DF.Canonical, DF.IsTail, DF.Matches;
    DF.InDomainsIffLabels(DF.Canonical(r.host), site.blocklist.domains);
  }

  lemma ParsedHasHost(data: string, url: Option<UrlParts>)
    requires Parse(data, url).Parsed?
    ensures Parse(data, url).request.host != ""
  {
    hide HeadersOf, DestinationOf, ContentLengthOf, Head, Text.Fields;
  }

  /** A request that reads as one, that the limiter lets through, that carries the name and password of a user, and
      neither whose host nor a name above it nor whose network is listed. */
  ghost predicate Cleared(site: Site, registry: Registry, data: string, w: World) {
    && Parse(data, w.url).Parsed?
    && var r := Parse(data, w.url).request;
    && Limit(site, registry, w).1 && (exists name, plain :: CarriesLogin(site, r, name, plain))
    && OffDomains(site, r) && OffNetworks(site, r)
  }

  /** An origin is dialled, a byte of a request sent, a tunnel opened or a cached response replayed if and only if the
      request was cleared; nobody else's request touches the cache, and what is sent is that request as printed. */
  lemma OnlyScreenedRequestsLeave(site: Site, s: Shared, data: string, w: World)
    ensures var (s', reply) := Handle(site, s, data, w);
            && (GoesOut(reply) <==> Cleared(site, s.registry, data, w))
            && (s'.cache != s.cache ==> Cleared(site, s.registry, data, w))
            && s'.metrics.allowed == s.metrics.allowed + (if Cleared(site, s.registry, data, w) then 1 else 0)
            && (reply.Relayed? ==> reply.toOrigin == Build(Parse(data, w.url).request, Some(w.client)))
  {
    hide Parse, Limit, RetryAnswerOf, Look, Store, Build, PasswordOf, OnBlocklist, OffDomains, OffNetworks, CarriesLogin;
    NoRequestInNothing(w.url);
    if Parse(data, w.url).Parsed? {
      var r := Parse(data, w.url).request;
      PasswordMeans(site, r);
      ParsedHasHost(data, w.url);
      BlocklistMeans(site, r);
    }
  }

  /** And how it is served: from the cache, which only a GET can be, or else as the two sockets allow. */
  lemma ClearedIsServed(site: Site, s: Shared, data: string, w: World)
    requires Cleared(site, s.registry, data, w)
    ensures var r := Parse(data, w.url).request;
            var reply := Handle(site, s, data, w).1;
            if reply.Cached? then r.verb == "GET"
            else if !w.connects || !w.accepts then reply == Status(502)
            else if r.verb == "CONNECT" then reply == Tunnelled
            else reply == Relayed(Build(r, Some(w.client)), RR.Flatten(RR.Chunks(w.turns)))
  {
    hide Parse, Limit, RetryAnswerOf, Store, Build, PasswordOf, OnBlocklist, OffDomains, OffNetworks, CarriesLogin;
    OnlyScreenedRequestsLeave(site, s, data, w);
  }

  /** Why a request is refused, and what it counts as. */
  lemma RefusalsHaveReasons(site: Site, s: Shared, data: string, w: World)
    requires Parse(data, w.url).Parsed?
    ensures var r := Parse(data, w.url).request;
            var (s', reply) := Handle(site, s, data, w);
            var passes := Limit(site, s.registry, w).1;
            var known := exists name, plain :: CarriesLogin(site, r, name, plain);
            && (reply.Limited? ==> !passes)
            && (reply == Status(407) ==> passes && !known)
            && (reply == Status(403) <==> passes && known && !(OffDomains(site, r) && OffNetworks(site, r)))
            && (reply.Silent? ==> !passes || !known)
            && reply != Status(400)
            && s'.metrics.blocked == s.metrics.blocked + (if reply == Status(403) then 1 else 0)
            && s'.metrics.rateLimited == s.metrics.rateLimited + (if reply.Limited? then 1 else 0)
            && s'.metrics.errors == s.metrics.errors
                 + (if reply.Silent? || reply == Status(502) || (!GoesOut(reply) && !w.listens) then 1 else 0)
  {
    hide Parse, Limit, RetryAnswerOf, Look, Store, Build, PasswordOf, OnBlocklist, OffDomains, OffNetworks, CarriesLogin;
    NoRequestInNothing(w.url);
    var r := Parse(data, w.url).request;
    PasswordMeans(site, r);
    ParsedHasHost(data, w.url);
    BlocklistMeans(site, r);
  }

  /** The limiter comes first: a request that does not pass leaves the cache alone and ends the same way whatever
      it asks for and whatever password it carries. */
  lemma LimitedRequestsTouchNothing(site: Site, s: Shared, data: string, w: World, otherData: string, other: World)
    requires other.call == w.call && other.listens == w.listens
    ensures Parse(data, w.url).Parsed? && Parse(otherData, other.url).Parsed? && !Limit(site, s.registry, w).1 ==>
              && Handle(site, s, otherData, other) == Handle(site, s, data, w)
              && Handle(site, s, data, w).0.cache == s.cache
  {
    hide Parse, IsAllowedOf, RetryAfterOf, Look, Store, Build;
    NoRequestInNothing(w.url);
    NoRequestInNothing(other.url);
  }

  /** The origin's whole response came through, a 200 whose status line fills no more than the first chunk. */
  ghost predicate CameThrough(site: Site, w: World, response: string) {
    && RR.Complete(w.turns, response) && response != "" && |response| <= site.limit
    && Text.Find(response, "\r\n").Some? && RR.StatusOf(response) == Some(200)
    && |w.turns[0].data| >= Text.Find(response, "\r\n").value + 2
  }

  lemma ResidentIsFound(config: Config, c: Cache, k: Key, now: real)
    requires config.enabled && k in c.entries && !Expired(config, c.entries[k], now)
    ensures Get(config, c, k, now).1 == Some(c.entries[k])
  {
  }

  /** Requests of one page. */
  ghost predicate SamePage(a: Request, b: Request) {
    a.verb == b.verb && a.host == b.host && a.port == b.port && a.path == b.path
  }

  /** A response the origin sent in full is replayed: after a GET relayed and stored it, any request for the same page
      within the time to live is answered from the cache with the same bytes, and the origin is not asked again. */
  lemma RepeatIsReplayed(site: Site, s: Shared, data: string, first: World, again: string, second: World, response: string)
    requires site.cache.enabled && site.cache.capacity >= 1 && site.limit <= site.cache.maxObjectSize
    requires WellFormed(s.cache) && |s.cache.order| <= site.cache.capacity
    ensures var (s1, relayed) := Handle(site, s, data, first);
            var (s2, replayed) := Handle(site, s1, again, second);
            && Parse(data, first.url).Parsed? && Parse(data, first.url).request.verb == "GET" && relayed.Relayed?
            && Cleared(site, s1.registry, again, second)
            && SamePage(Parse(again, second.url).request, Parse(data, first.url).request)
            && CameThrough(site, first, response) && second.lookupAt - first.storedAt <= site.cache.ttl
            ==> && relayed.toClient == response
                && replayed == Cached(response)
                && s2.metrics.cached == s1.metrics.cached + 1 && s2.metrics.errors == s1.metrics.errors
  {
    hide Parse, Limit, RetryAnswerOf, Build, Get, Put, RR.StoreOf, RR.AfterChunks, RR.Chunks, RR.Flatten, PasswordOf,
         OnBlocklist, WellFormed, Text.Find, CarriesLogin, OffDomains, OffNetworks;
    var (s1, relayed) := Handle(site, s, data, first);
    if !Parse(data, first.url).Parsed? || Parse(data, first.url).request.verb != "GET" || !relayed.Relayed?
       || !CameThrough(site, first, response) || !Cleared(site, s1.registry, again, second)
       || !SamePage(Parse(again, second.url).request, Parse(data, first.url).request)
       || second.lookupAt - first.storedAt > site.cache.ttl {
      return;
    }
    var r := Parse(data, first.url).request;
    var looked := Look(site, s.cache, r, first).0;
    GetKeepsWellFormed(site.cache, s.cache, KeyOf(r), first.lookupAt);
    RR.StoredWhateverTheCut(r.verb, first.turns, site.limit, response);
    var entry := Entry(response, Some(|response|), Some(first.storedAt));
    PutIsResident(site.cache, looked, KeyOf(r), entry, first.storedAt);
    ResidentIsFound(site.cache, Put(site.cache, looked, KeyOf(r), entry, first.storedAt), KeyOf(r), second.lookupAt);
    NoRequestInNothing(second.url);
    ParsedHasHost(again, second.url);
    PasswordMeans(site, Parse(again, second.url).request);
    BlocklistMeans(site, Parse(again, second.url).request);
  }
}
