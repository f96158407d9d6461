/** Connections one after another: whose response a cache hit can replay. */
module Visits {
  import opened Options
  import opened Handler
  import opened LruCache
  import opened Logins
  import opened OutboundRequest
  import opened RateLimiting
  import opened RequestParser
  import RR = ResponseRelay

  /** One connection: the bytes it brings, and what the outside world answers meanwhile. */
  datatype Visit = Visit(data: string, world: World)

  ghost function After(site: Site, s: Shared, visits: seq<Visit>): Shared {
    if visits == [] then s
    else
      var last := visits[|visits| - 1];
      Handle(site, After(site, s, visits[..|visits| - 1]), last.data, last.world).0
  }

  ghost function ReplyTo(site: Site, s: Shared, visits: seq<Visit>, n: nat): Reply
    requires n < |visits|
  {
    Handle(site, After(site, s, visits[..n]), visits[n].data, visits[n].world).1
  }

  /** Two GETs of one page. */
  ghost predicate GetTheSame(a: Visit, b: Visit) {
    var (x, y) := (Parse(a.data, a.world.url), Parse(b.data, b.world.url));
    x.Parsed? && y.Parsed? && x.request.verb == "GET" && SamePage(x.request, y.request)
  }

  /** A connection that asked the origin for what is filed under `k`, and the entry is what its client was given. */
  ghost predicate Brings(data: string, w: World, reply: Reply, k: Key, e: Entry) {
    && reply.Relayed? && Parse(data, w.url).Parsed?
    && Parse(data, w.url).request.verb == "GET" && KeyOf(Parse(data, w.url).request) == k
    && e.response == reply.toClient && e.timestamp == Some(w.storedAt)
  }

  /** Visit `m` was such a connection. */
  ghost predicate Filed(site: Site, s: Shared, visits: seq<Visit>, m: nat, k: Key, e: Entry) {
    m < |visits| && Brings(visits[m].data, visits[m].world, ReplyTo(site, s, visits, m), k, e)
  }

  ghost predicate AllFiled(site: Site, s: Shared, visits: seq<Visit>) {
    var cache := After(site, s, visits).cache;
    && WellFormed(cache) && |cache.order| <= site.cache.capacity
    && forall k :: k in cache.entries ==> exists m: nat :: Filed(site, s, visits, m, k, cache.entries[k])
  }

  /** A connection adds at most the response it relayed. */
  lemma HandleFiles(site: Site, s: Shared, data: string, w: World)
    requires WellFormed(s.cache) && |s.cache.order| <= site.cache.capacity
    ensures var (s', reply) := Handle(site, s, data, w);
            && WellFormed(s'.cache) && |s'.cache.order| <= site.cache.capacity
            && forall k :: k in s'.cache.entries ==>
                 || (k in s.cache.entries && s'.cache.entries[k] == s.cache.entries[k])
                 || Brings(data, w, reply, k, s'.cache.entries[k])
  {
    hide Parse, Limit, RetryAnswerOf, Build, Get, Put, PasswordOf, OnBlocklist, WellFormed, KeyOf, RR.StoreOf,
         RR.AfterChunks, RR.Flatten, RR.Chunks;
    if Parse(data, w.url).Parsed? {
      var r := Parse(data, w.url).request;
      RR.StoredIff(r.verb, w.turns, site.limit);
      GetKeepsEntries(site.cache, s.cache, KeyOf(r), w.lookupAt);
      GetKeepsWellFormed(site.cache, s.cache, KeyOf(r), w.lookupAt);
      var looked := Look(site, s.cache, r, w).0;
      var stored := RR.StoreOf(RR.AfterChunks(r.verb, RR.Chunks(w.turns), site.limit));
      if stored.Some? {
        PutKeepsEntries(site.cache, looked, KeyOf(r),
                        Entry(stored.value.response, Some(stored.value.size), Some(w.storedAt)), w.storedAt);
      }
    }
  }

  /** What was filed stays filed. */
  lemma FiledStays(site: Site, s: Shared, visits: seq<Visit>, more: Visit, m: nat, k: Key, e: Entry)
    ensures Filed(site, s, visits, m, k, e) ==> Filed(site, s, visits + [more], m, k, e)
  {
    hide Handle, Brings, After;
    if m < |visits| {
      assert (visits + [more])[..m] == visits[..m] && (visits + [more])[m] == visits[m];
    }
  }

  lemma {:induction false} EverythingIsFiled(site: Site, s: Shared, visits: seq<Visit>)
    requires s.cache.order == [] && s.cache.entries == map[]
    ensures AllFiled(site, s, visits)
    decreases |visits|
  {
    hide Handle, Brings;
    if visits != [] {
      var n := |visits| - 1;
      var before, last := visits[..n], visits[n];
      EverythingIsFiled(site, s, before);
      var was, now := After(site, s, before), After(site, s, visits);
      HandleFiles(site, was, last.data, last.world);
      assert visits == before + [last];
      forall k | k in now.cache.entries ensures exists m: nat :: Filed(site, s, visits, m, k, now.cache.entries[k]) {
        if k in was.cache.entries && now.cache.entries[k] == was.cache.entries[k] {
          var m: nat :| Filed(site, s, before, m, k, was.cache.entries[k]);
          FiledStays(site, s, before, last, m, k, was.cache.entries[k]);
        } else {
          assert Filed(site, s, visits, n, k, now.cache.entries[k]);
        }
      }
    }
  }

  /** What a connection is shown from the cache was in it, under the key of its request. */
  lemma HitIsInCache(site: Site, s: Shared, data: string, w: World)
    ensures var reply := Handle(site, s, data, w).1;
            reply.Cached? ==>
              && Parse(data, w.url).Parsed?
              && var r := Parse(data, w.url).request;
              && r.verb == "GET" && KeyOf(r) in s.cache.entries
              && s.cache.entries[KeyOf(r)].response == reply.response
              && w.lookupAt - s.cache.entries[KeyOf(r)].Timestamp() <= site.cache.ttl
  {
    hide Parse, Limit, RetryAnswerOf, Build, Get, Put, PasswordOf, OnBlocklist, KeyOf, Store;
    if Parse(data, w.url).Parsed? {
      GetFinds(site.cache, s.cache, KeyOf(Parse(data, w.url).request), w.lookupAt);
    }
  }

  lemma PageHasPath(data: string, url: Option<UrlParts>)
    requires Parse(data, url).Parsed? && Parse(data, url).request.verb != "CONNECT"
    ensures Parse(data, url).request.path.Some?
  {
    hide Head, HeadersOf, ContentLengthOf;
  }

  /** A replayed response is the response to the same page: whatever connections there were since the cache was empty, a
      hit replays, byte for byte, what the origin answered one of them, no more than `ttl` ago, when it asked for the same
      path of the same host and port. */
  lemma ReplayIsOfTheSamePage(site: Site, s: Shared, visits: seq<Visit>, n: nat)
    requires s.cache.order == [] && s.cache.entries == map[] && n < |visits|
    ensures ReplyTo(site, s, visits, n).Cached? ==>
              exists m: nat :: m < n && GetTheSame(visits[m], visits[n]) && ReplyTo(site, s, visits, m).Relayed?
                && ReplyTo(site, s, visits, m).toClient == ReplyTo(site, s, visits, n).response
                && visits[n].world.lookupAt - visits[m].world.storedAt <= site.cache.ttl
  {
    hide Handle, Parse, After;
    if ReplyTo(site, s, visits, n).Cached? {
      var b := visits[n];
      var was := After(site, s, visits[..n]);
      EverythingIsFiled(site, s, visits[..n]);
      HitIsInCache(site, was, b.data, b.world);
      var k := KeyOf(Parse(b.data, b.world.url).request);
      var e := was.cache.entries[k];
      var m: nat :| Filed(site, s, visits[..n], m, k, e);
      assert visits[..n][..m] == visits[..m] && visits[..n][m] == visits[m];
      PageHasPath(b.data, b.world.url);
      PageHasPath(visits[m].data, visits[m].world.url);
      assert GetTheSame(visits[m], visits[n]);
    }
  }
}
