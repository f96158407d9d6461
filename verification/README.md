# A verified model of the threaded forward proxy

This project models the core of the proxy in Dafny and proves how it behaves: the per-IP token-bucket
limiter, the LRU cache with its counters, the request reader, the request parser and the request printer, the
streaming response relay, the CONNECT tunnel, the connection pipeline, the credentials file with its commands,
and the domain blocklist. `dafny verify dfyconfig.toml` checks everything.

Code that changes things step by step in the proxy is a class or a method with loops here, proved equal to a
function; the laws are then proved about that function, over all inputs and all runs. What several threads do
at once is a step machine, and the laws hold in every reachable state.

| file | what it is about |
|---|---|
| `TokenBucket.dfy` | one bucket: closed form of its decisions, window bound, optimality, exact Retry-After |
| `RateLimiter.dfy`, `RetryAfter.dfy` | the registry of buckets: one ideal bucket per IP, exactly when pruning cannot be seen, exactly when IPs are isolated, and exactly when Retry-After is exact |
| `LimiterInterleaving.dfy`, `LoneCall.dfy`, `LoneWorker.dfy`, `OrphanedBuckets.dfy` | many workers inside the limiter: the window cap, the password-check cap, and exactly when the plain cap fails; and one worker, whose calls are those of the registry |
| `LruCache.dfy`, `LruRuns.dfy` | the cache, its refinement of a map with last-touch times, survival, statistics |
| `RequestReader.dfy`, `RequestParser.dfy`, `Framing.dfy` | from a socket to a request, however the bytes are cut, with the body it announces |
| `Messages.dfy`, `Destinations.dfy` | where a request goes, in terms of the lines its client wrote |
| `OutboundRequest.dfy`, `RoundTrip.dfy`, `Hops.dfy`, `FailingInputs.dfy` | the printed request, read back by the next parser, over many hops, and requests with which that fails |
| `ResponseRelay.dfy`, `StatusCuts.dfy` | the streaming loop, what it stores, and exactly which cuts of a response spoil that decision |
| `Tunnel.dfy` | two relay threads on two shared sockets, and the thread that waits for them and closes both |
| `Handler.dfy`, `Visits.dfy` | one connection from start to end on the real objects, and connections in a row: whose response a cache hit replays |
| `Proxy.dfy`, `Alone.dfy` | many interleaved connections: conservation of the counters, screening, replay from the cache; and a handler among them, left alone, as the one of `Handler.dfy` |
| `PasswordHash.dfy`, `Credentials.dfy`, `Logins.dfy` | stored hashes, the credentials file, who can log in after each command |
| `DomainFilter.dfy` | the blocklist file and the suffix test |
| `Text.dfy`, `HeadLines.dfy`, `Pieces.dfy`, `FileLines.dfy`, `OrderedDict.dfy`, `Options.dfy`, `Metering.dfy`, `Buffers.dfy` | text, lines, dictionaries, counters, buffers |

## Where the code falls short of what one might expect

Each of these is proved, with the exact condition under which the expected law does hold.

- Pruning idle buckets cannot be seen exactly when `600 * refill_rate >= capacity`
  (`RateLimiting.PruningUnobservableIffRefills`); otherwise `PruningCanBeSeen` gives the trace that shows it. The
  same condition decides whether one IP's decisions are independent of the others' calls
  (`RateLimiting.IsolatedIffRefills`).
- With capacity >= 1 and a positive rate, Retry-After is exact on every trace exactly when `601 * refill_rate >= 1`
  (`RetryAfter.RetryAfterExactIff`). Below that rate a client is told to wait longer than its bucket is remembered,
  and passes earlier (`RetryAfter.ForgottenTooSoon`).
- A bucket judged stale between its fetch and its token still serves that token, and one forgotten before it is full
  is replaced by a full one. So the plain cap of capacity + rate * length per window holds under every interleaving
  exactly when the capacity is zero, nobody works, or a single worker does and `600 * refill_rate >= capacity`
  (`OrphanedBuckets.PlainCapIff`). With two workers one request more than the capacity can pass at a single instant,
  for every capacity (`OrphanedBuckets.OrphansCanExceedTheBurst`); a lone worker with a slower rate can pass twice the
  capacity in a window that does not earn it (`LoneWorker.LoneWorkerExceeds`). What holds for any number of workers
  when `600 * refill_rate >= capacity` is `LimiterInterleaving.WindowCap`, and in numbers `WindowCapBySweeps`.
- A rejected request gets its 429 exactly when the refill rate is not zero, or its bucket was forgotten within the
  call (`Handler.LimitedIffRate`, `TokenBuckets.RetryAfterFailsIff`). With a rate of zero the Retry-After estimate
  divides by zero after the request is counted and before the rate-limit counter moves, and the client gets no
  reply (`Handler.ZeroRateIsSilent`, `TokenBuckets.ZeroRateDivides`).
- The printed request loses the port exactly when it is 443, or when it is 80 and the bare host itself reads
  as something else (`RoundTrip.DestinationSurvivesIff`). From bytes: a Host header `a:443` comes back with port 80,
  and `a:1:80` comes back as host `a` with port 1 (`FailingInputs.HttpsRequestMoves`, `HostWithNumberMoves`).
- A head is read under every cut of its stream exactly when its blank line ends by byte 65537
  (`RequestReader.EveryCutReadsHeadIff`). A well-formed request with a longer head is refused when it trickles in
  (`FailingInputs.LongHeadIsRefused`), though whole buffers may get it through (`FailingInputs.LongHeadIsRead`).
- The reader waits for the body whose length the parser finds exactly when the one Content-Length line has no blanks
  around its name (`Framing.ReaderSeesLengthIff`): `Content-Length : 5` is a length for the parser only.
- Whether a GET is stored depends on how its response is cut, in both directions: a first chunk that stops inside
  the status code keeps a 200 out of the cache (`ResponseRelay.SplitStatusIsNotStored`), and one that stops right
  before the code puts an error response into it (`ResponseRelay.NotFoundIsStored`). The decision is the right one
  for every status exactly when no chunk ends at the space after the version, right behind it, or inside the code
  (`StatusCuts.CutIsSafeIff`).
- A tunnel direction none of whose calls raises delivers everything unless the handler's wait for its own thread runs
  out while it is at work, whatever comes of the other wait (`Tunnel.FinishesAndDelivers`, `Tunnel.CloseLosesNothing`).
  If that wait does run out while bytes are missing, the run can always go on so that they never arrive
  (`Tunnel.GivingUpLoses`), in both directions and for every non-empty input (`Tunnel.EveryInputCanBeLost`).
- Saving the credentials file and reading it back is the identity exactly on trimmed one-line entries whose
  names have no colon and do not start with `#` (`Credentials.SaveLoadIff`). Adding a user whose name breaks
  this is accepted, and that user can never log in (`Logins.BadNameNeverLogsIn`, `Logins.ColonInNameIsLost`).

## Where the code and its documentation differ

The model follows the code.

- The reader is documented to return nothing when the connection closes early (`src/parser.py:35-36`); it
  returns the bytes it has (`src/parser.py:53-54`), which the parser then rejects.
- The tunnel is documented to stop when either side closes (`src/forwarder.py:57-58`); only that direction
  stops, and the other runs on (`src/forwarder.py:61-85`).
- An oversized value is documented to be discarded (`src/cache.py:144`); a value the key already had stays
  (`src/cache.py:153-154`).

## Model

| member | source | states |
|---|---|---|
| `TokenBuckets.TokenBucket.constructor` | src/rate_limiter.py:65-70 | a new bucket is full at its creation time |
| `TokenBuckets.TokenBucket.TryConsume` | src/rate_limiter.py:72-92 | refills by elapsed time up to the capacity, then takes one token if there is one; the whole new state and the decision |
| `TokenBuckets.TokenBucket.Remaining` | src/rate_limiter.py:94-103 | the refilled level truncated to an integer, without changing the bucket |
| `TokenBuckets.TokenBucket.RetryAfter` | src/rate_limiter.py:105-115 | zero with a token in hand, a division by zero when nothing refills, otherwise the ceiling of deficit over rate, on the stored tokens |
| `TokenBuckets.ServeIsDecisions` | src/rate_limiter.py:72-92 | serving requests one after another and looking a decision up in the run are the same |
| `TokenBuckets.LevelWithinSlack` | src/rate_limiter.py:82-87 | the level a request meets never exceeds the slack of any window that ends with it |
| `TokenBuckets.LevelMeetsSlack` | src/rate_limiter.py:82-87 | and some window has exactly that much slack |
| `TokenBuckets.AllowedIffFits` | src/rate_limiter.py:72-92 | closed form: a request is allowed exactly when it fits every window that ends with it |
| `TokenBuckets.WindowBound` | src/rate_limiter.py:72-92 | in every window at most capacity + rate * length requests pass |
| `TokenBuckets.NoBetterAdmission` | src/rate_limiter.py:72-92 | no other admissible sequence of decisions ever lets more requests through |
| `TokenBuckets.RejectionIsInvisible` | src/rate_limiter.py:82-92 | a rejected request changes no later level |
| `TokenBuckets.RejectionsAreInvisible` | src/rate_limiter.py:82-92 | neither do any number of them |
| `TokenBuckets.RetryAfterIsExact` | src/rate_limiter.py:105-115 | after a rejection, and any rejected retries, a request m whole seconds later passes exactly when m is at least the reported number |
| `TokenBuckets.RetryAfterFailsIff` | src/rate_limiter.py:105-115 | after any rejection the estimate divides by zero if and only if the rate is zero; with a positive rate it is at least one second |
| `TokenBuckets.NoWaitIffToken` | src/rate_limiter.py:111-112 | no wait is reported if and only if there is a token in hand |
| `TokenBuckets.ZeroRateDivides` | src/rate_limiter.py:105-115 | the failing input: one token, no refill, asked twice |
| `TokenBuckets.RemainingIsExact` | src/rate_limiter.py:94-103 | a report of n means exactly the next n requests of that instant pass |
| `RateLimiting.RateLimiter.constructor` | src/rate_limiter.py:126-135 | no buckets, last prune now |
| `RateLimiting.RateLimiter.GetOrCreateBucket` | src/rate_limiter.py:171-178 | the registered bucket, a full one if there was none; all others unchanged |
| `RateLimiting.RateLimiter.MaybePrune` | src/rate_limiter.py:180-194 | nothing within a minute of the last prune, else every bucket idle for more than 600 seconds goes |
| `RateLimiting.RateLimiter.IsAllowed` | src/rate_limiter.py:137-153 | fetch, take, prune; always allowed and nothing changed when limiting is off |
| `RateLimiting.RateLimiter.GetRetryAfter` | src/rate_limiter.py:155-161 | the bucket's answer, or one second without a bucket |
| `RateLimiting.RateLimiter.GetRemaining` | src/rate_limiter.py:163-169 | the bucket's level, or the capacity without a bucket |
| `RateLimiting.AdmitTracks` | src/rate_limiter.py:147-148 | fetching and taking act on a tracked bucket as on an ideal one |
| `RateLimiting.StaleIsFull` | src/rate_limiter.py:186-194 | what a prune drops would have been full |
| `RateLimiting.PruneTracks` | src/rate_limiter.py:180-194 | pruning keeps the registry standing for the ideal bucket |
| `RateLimiting.CallTracks` | src/rate_limiter.py:137-153 | so does a whole call |
| `RateLimiting.RunTracks` | src/rate_limiter.py:137-194 | so does every run: an IP's decisions are those of its ideal bucket |
| `RateLimiting.FinalTracks` | src/rate_limiter.py:137-194 | the state a run leaves stands for that bucket |
| `RateLimiting.RegistryIsOneBucketPerIp` | src/rate_limiter.py:137-194 | from an empty registry, an IP's decisions are those of one bucket that serves only that IP |
| `RateLimiting.IpsAreIsolated` | src/rate_limiter.py:137-194 | two traces with the same requests of an IP give it the same decisions, whatever the others do |
| `RateLimiting.PruningCannotBeSeen` | src/rate_limiter.py:180-194 | with 600 * rate >= capacity a pruning registry decides like one that never forgets |
| `RateLimiting.PruningCanBeSeen` | src/rate_limiter.py:180-194 | otherwise a concrete trace is decided differently |
| `RateLimiting.PruningUnobservableIffRefills` | src/rate_limiter.py:180-194 | the two together: pruning is invisible on every trace if and only if 600 * rate >= capacity |
| `RateLimiting.QuietRejects` | src/rate_limiter.py:137-194 | when idle buckets do not refill in time, two bursts of one IP alone do not both pass... |
| `RateLimiting.ProbePasses` | src/rate_limiter.py:137-194 | ...and with one call of another IP in between they do |
| `RateLimiting.IsolatedIffRefills` | src/rate_limiter.py:137-194 | one IP's decisions are independent of the others' calls on all traces if and only if 600 * rate >= capacity |
| `RetryAfter.RunKeepsWaits` | src/rate_limiter.py:72-92 | while a client is only rejected, its bucket has just earned what time gave it, or has been idle for more than 600 seconds and is forgotten |
| `RetryAfter.RetryAfterHeaderIsExact` | src/rate_limiter.py:137-161 | with 601 * rate >= 1, through the registry, other IPs, rejected retries and prunes: a call m whole seconds after a rejection passes if and only if m is at least what was reported |
| `RetryAfter.ForgottenTooSoon` | src/rate_limiter.py:155-194 | the failing input, for every slower rate: told more than 601 seconds, a client passes after 601 |
| `RetryAfter.RetryAfterExactIff` | src/rate_limiter.py:137-194 | for capacity >= 1 and a positive rate: exact on all traces from an empty registry if and only if 601 * rate >= 1 |
| `LimiterInterleaving.StartInv` | src/rate_limiter.py:126-135 | the invariant holds at the start |
| `LimiterInterleaving.TakeSince` | src/rate_limiter.py:78-92 | taking a token keeps the bound since any instant |
| `LimiterInterleaving.TakeWindow` | src/rate_limiter.py:78-92 | and the bound of every window |
| `LimiterInterleaving.SweepSince` | src/rate_limiter.py:186-194 | dropping stale buckets keeps it, because they were full |
| `LimiterInterleaving.StepInv` | src/rate_limiter.py:137-194 | every step of every worker keeps the invariant |
| `LimiterInterleaving.RunInv` | src/rate_limiter.py:137-194 | so does every interleaving |
| `LimiterInterleaving.WindowCap` | src/rate_limiter.py:137-194 | under every interleaving a window lets through at most capacity + rate * length requests of one IP, plus those whose bucket was judged stale between fetch and token |
| `LimiterInterleaving.StepOrphans` | src/rate_limiter.py:186-194 | only a sweep adds requests that may pass through dropped buckets, at most one for every worker but the sweeping one |
| `LimiterInterleaving.WindowCapBySweeps` | src/rate_limiter.py:137-194 | so the extra term is at most (workers - 1) times the sweeps of the run |
| `LimiterInterleaving.StepEarly` | src/rate_limiter.py:78-92 | once an instant is over, no step starts on a clock reading from before it |
| `LimiterInterleaving.PasswordCheckCap` | src/handler.py:113-137 | over any stretch of any run, the password checks of one IP are within the same cap plus the requests the workers were in the middle of when it began: at most one a worker, none at the start |
| `LoneCall.CallAlone` | src/rate_limiter.py:137-194 | a worker's steps with nobody's in between are one call of the registry: the same buckets, and a password check if and only if the call is allowed |
| `LoneCall.TraceAlone` | src/rate_limiter.py:137-194 | so every trace of calls, one after another, is a run of the machine |
| `OrphanedBuckets.LoneWorkerKeepsBuckets` | src/rate_limiter.py:137-194 | a lone worker never asks a dropped bucket |
| `OrphanedBuckets.DrainOne` | src/rate_limiter.py:147-153 | one more token of the refetched bucket passes at the same instant, while a worker still holds the dropped one |
| `OrphanedBuckets.OrphansCanExceedTheBurst` | src/rate_limiter.py:147-148 | with two workers, for every capacity, a run in which capacity + 1 requests pass at one instant |
| `LoneWorker.ServeBAndSweep` | src/rate_limiter.py:147-194 | another client's request has the lone worker forget an idle bucket |
| `LoneWorker.LoneWorkerExceeds` | src/rate_limiter.py:137-194 | when idle buckets do not refill in time, a lone worker passes twice the capacity in a window that does not earn it |
| `OrphanedBuckets.PlainCapIff` | src/rate_limiter.py:137-194 | the plain cap holds under every interleaving if and only if the capacity is zero, nobody works, or one worker does and 600 * rate >= capacity |
| `LruCache.CacheStats.constructor` | src/cache.py:34-41 | all counters zero |
| `LruCache.CacheStats.RecordHit` | src/cache.py:43-45 | one more hit, nothing else |
| `LruCache.CacheStats.RecordMiss` | src/cache.py:47-49 | one more miss, nothing else |
| `LruCache.CacheStats.RecordEviction` | src/cache.py:51-55 | one more eviction, and entry and bytes leave, clamped at zero |
| `LruCache.CacheStats.RecordStore` | src/cache.py:57-61 | one more store, and entry and bytes come |
| `LruCache.CacheStats.RecordRemove` | src/cache.py:63-67 | entry and bytes leave, clamped at zero, without an eviction |
| `LruCache.LRUCache.constructor` | src/cache.py:98-107 | an empty cache |
| `LruCache.LRUCache.Lookup` | src/cache.py:109-138 | miss, lazy expiry or hit that moves the key to the end; counters alike |
| `LruCache.LRUCache.SetItem` | src/cache.py:161-168 | overwrites or appends one entry at the newest end |
| `LruCache.LRUCache.EvictOverflow` | src/cache.py:170-173 | drops from the oldest end until the capacity is met |
| `LruCache.LRUCache.Store` | src/cache.py:140-173 | a disabled cache or an oversized value changes nothing; otherwise stamps, inserts, evicts |
| `LruCache.LRUCache.Clear` | src/cache.py:175-179 | empty, with fresh counters |
| `LruCache.GetKeepsWellFormed` | src/cache.py:109-138 | a read keeps the order a list of the keys without repetition |
| `LruCache.EvictKeepsNewest` | src/cache.py:170-173 | what is left is exactly the newest end of the order, values unchanged |
| `LruCache.PutKeepsWellFormed` | src/cache.py:140-173 | a write keeps the order too, and the size within the capacity |
| `LruCache.PutIsResident` | src/cache.py:160-173 | an admitted value is there afterwards |
| `LruRuns.StepRefines` | src/cache.py:109-179 | each operation is a step of a map with last-touch times, evicting the least recently touched key |
| `LruRuns.CacheRefinesSpec` | src/cache.py:109-179 | so every run answers as that map does, and dictionary order is last-touch order |
| `LruRuns.ResidentIsLatest` | src/cache.py:109-179 | a resident value is the last admitted one since the last clear |
| `LruRuns.HitIsLatestPut` | src/cache.py:119-138 | a hit returns that value, no older than the time to live |
| `LruRuns.ResidentsFit` | src/cache.py:140-168 | nothing oversized is ever in the cache, nothing at all in a disabled one, and everything came by a put, with the time of that put unless it brought its own |
| `LruRuns.LeavesOnly` | src/cache.py:128-133 | a key leaves only by a clear, an expired read of it, or as the oldest key of a full cache |
| `LruRuns.VictimIsOldest` | src/cache.py:170-173 | a put drops at most one key, the oldest, never its own |
| `LruRuns.EvictionNeedsCapacityTouches` | src/cache.py:135-173 | a key just used leaves for capacity only after at least `capacity` distinct other keys were stored or hit |
| `LruRuns.RemovalExact` | src/cache.py:63-67 | dropping a resident key never reaches the clamps |
| `LruRuns.StatisticsExact` | src/cache.py:43-67 | in every reachable state: entries = map size, bytes = sum of sizes, stores = entries + evictions + overwrites, hits = lookups that found something, misses = lookups that did not |
| `HeadLines.SplitJoin` | src/parser.py:113 | splitting at CR LF undoes joining |
| `HeadLines.TerminatorOfHead` | src/parser.py:109 | the blank line of a printed head is its first one |
| `Text.ParseDecimalInt` | src/parser.py:135 | a printed integer reads back as itself |
| `RequestParser.ReadHeaders` | src/parser.py:121-128 | the header loop: last value per lower-case trimmed name, in first-seen order |
| `RequestParser.ResolveDestination` | src/parser.py:139-181 | CONNECT, absolute and origin form, with every rejected and raising case |
| `RequestParser.ParseRequest` | src/parser.py:88-193 | the whole parser |
| `RequestParser.HeadersClean` | src/parser.py:121-128 | parsed names are trimmed, lower-case, without colon; values trimmed; all on one line |
| `RequestParser.ParsedIsForwardable` | src/parser.py:88-193 | whatever the bytes, a parsed request other than CONNECT meets everything the printer's laws ask for |
| `Messages.MessageParses` | src/parser.py:109-193 | a request of given lines and body is parsed into its method, the dictionary of its lines and its body, and goes where its target and Host say |
| `Messages.LastFieldReads` | src/parser.py:121-128 | the last line of a name decides its header, whatever the case of the name and the blanks around name and value |
| `Messages.UnnamedFieldIsAbsent` | src/parser.py:121-128 | a header no line names is absent |
| `Destinations.OriginGoesTo` | src/parser.py:167-181 | the last Host line names host and port, 80 if it names none; the target is the path |
| `Destinations.NoNumberNoPort` | src/parser.py:174-179 | what follows the last colon and is no number belongs to the host |
| `Destinations.NoHostIsRejected` | src/parser.py:180-181 | no Host line, no request |
| `Destinations.EmptyHostIsRejected` | src/parser.py:180-181 | nor with a Host line that names no host |
| `Destinations.AbsoluteGoesTo` | src/parser.py:153-165 | from an absolute target: its host; its explicit non-zero port, else 443 for https and 80 for http; its path or `/`, and its query |
| `Destinations.BadUrlIsRefused` | src/parser.py:153-181 | a URL the library cannot take apart raises, one without a host is refused |
| `Destinations.AbsoluteIsOrigin` | src/parser.py:153-181 | the absolute request for a URL goes where the origin-form request for its path goes, with its host and port in a Host line |
| `Destinations.ConnectGoesTo` | src/parser.py:144-149 | CONNECT goes to the host and port of its target, whatever the headers say |
| `Destinations.ConnectNeedsHost` | src/parser.py:180-181 | and is refused without a host |
| `Destinations.ConnectNeedsPort` | src/parser.py:150-151 | or without a number after the last colon |
| `Destinations.TwoWordsAreRejected` | src/parser.py:116-119 | a request line of two words is refused |
| `Destinations.LengthIsLastField` | src/parser.py:131-137 | the last Content-Length line decides the length; one that holds no number says nothing |
| `OutboundRequest.KeepEndToEnd` | src/forwarder.py:119-126 | the loop keeps all headers but Host and the hop-by-hop ones, in order |
| `OutboundRequest.BuildOutboundRequest` | src/forwarder.py:90-158 | the printed request, body rule included |
| `RoundTrip.KeptReadsBack` | src/forwarder.py:119-126 | kept headers read back as they were |
| `RoundTrip.HeadersReadBack` | src/forwarder.py:110-145 | every header found by the next parser, and no other: kept ones, Host, Connection, X-Forwarded-For, Via |
| `RoundTrip.BuiltHead` | src/forwarder.py:147-158 | the next parser cuts the printed bytes into the printed lines and the sent body |
| `RoundTrip.BuiltParses` | src/forwarder.py:90-158 | parsing comes down to where the printed Host header points |
| `RoundTrip.HostSurvivesIff` | src/forwarder.py:113-117 | exactly when the printed Host value names the same host and port |
| `RoundTrip.DestinationSurvivesIff` | src/forwarder.py:90-158 | the next parser finds the same method, host, port and path if and only if it does |
| `RoundTrip.RoundTripRestores` | src/forwarder.py:90-158 | and then every header and the length come back, and the body if the method is POST, PUT or PATCH or the length is positive |
| `FailingInputs.NumberBecomesPort` | src/forwarder.py:113-117 | from bytes: a host `name:number` at port 80 comes back as host `name` at port `number`, for every name and number |
| `FailingInputs.HostWithNumberMoves` | src/forwarder.py:113-117 | such a request, byte for byte |
| `FailingInputs.HttpsPortIsLost` | src/forwarder.py:114-115 | from bytes: a host at port 443 comes back at port 80, for every name without a colon |
| `FailingInputs.HttpsRequestMoves` | src/forwarder.py:114-115 | such a request, byte for byte |
| `Hops.ChainGrows` | src/forwarder.py:131-142 | one hop appends its client address to the forwarding chain |
| `Hops.TravelKeepsTrack` | src/forwarder.py:90-158 | over any number of hops: same destination and length, the body if the method is POST, PUT or PATCH or the length is positive, X-Forwarded-For is the initial value followed by all clients in order, Connection is `close`, Via is the last proxy's |
| `Hops.TravelStripsHopByHop` | src/forwarder.py:38-48 | the eight hop-by-hop headers other than Connection are gone, Proxy-Authorization among them; every other header the proxy does not write itself is what the client sent |
| `RequestReader.Socket.Recv` | src/parser.py:46 | at least one byte and at most the asked number, an empty read or an error at the end |
| `RequestReader.AccumulateHead` | src/parser.py:41-54 | the first loop: until the blank line, the limit, the end or an error |
| `RequestReader.AccumulateBody` | src/parser.py:61-72 | the second loop: until the announced length, the end or an error |
| `RequestReader.RecvHttpRequest` | src/parser.py:27-74 | both together |
| `RequestReader.HeadStops` | src/parser.py:41-51 | the first loop stops within one buffer after the blank line, never before it |
| `RequestReader.HeadIsBounded` | src/parser.py:42-51 | it never holds more than the limit and one buffer, whether it stops or gives up, and it gives up only beyond the limit |
| `RequestReader.ReadFrames` | src/parser.py:27-74 | however the stream is cut, the result is a prefix that holds the head and the announced body, or what there is of it, and at most one buffer more |
| `RequestReader.EveryCutReadsHeadIff` | src/parser.py:42-44 | a head is read under every cut if and only if it ends within one byte of the limit |
| `FailingInputs.LongHeadIsRefused` | src/parser.py:42-44 | a well-formed request whose head ends beyond byte 65537 is refused when it arrives byte by byte |
| `FailingInputs.LongHeadIsRead` | src/parser.py:42-51 | and read, up to one buffer beyond the limit, when it arrives in whole buffers |
| `Framing.CutsDoNotMatter` | src/parser.py:27-193 | two cuts of one stream parse to the same request: all fields of the head and the announced body bytes |
| `Framing.LengthReads` | src/parser.py:77-85 | the first line that begins with the name and a colon, in any case, gives the reader its length |
| `Framing.ReadMessage` | src/parser.py:27-74 | what the reader returns of a request of given lines |
| `Framing.AnnouncedBodyIsRead` | src/parser.py:27-137 | with one Content-Length line, every cut is read up to the last byte announced or to the end, and the parser finds the same length and those bytes as the body |
| `Framing.UnannouncedBodyIsNotAwaited` | src/parser.py:61-74 | without one the reader stops within a buffer after the head, and the parser finds no length |
| `Framing.ReaderSeesLengthIff` | src/parser.py:77-137 | the reader sees the length the parser finds if and only if there are no blanks around the name |
| `ResponseRelay.StreamResponse` | src/forwarder.py:256-299 | the streaming loop: what the client got, and what is stored, errors included |
| `ResponseRelay.RelaysUpToTheFirstStop` | src/forwarder.py:256-285 | every chunk is relayed up to the first failing or ending turn, and nothing after it |
| `ResponseRelay.ProgressMeans` | src/forwarder.py:261-281 | the loop's variables in terms of what was relayed |
| `ResponseRelay.StoredIff` | src/forwarder.py:261-299 | stored if and only if a GET, something relayed, no status but 200 or 0 decided, within the limit; then byte for byte what was relayed |
| `ResponseRelay.StatusFromPrefix` | src/forwarder.py:161-174 | a chunk that holds the status line gives the status of the whole response |
| `ResponseRelay.StoredWhateverTheCut` | src/forwarder.py:256-299 | for a complete response with its status line in the first chunk, storing does not depend on the cut: GET, 200, within the limit |
| `ResponseRelay.StoredIffFirstStatus` | src/forwarder.py:268-281 | for a complete GET within the limit whose first chunk yields a status: stored if and only if that is 200 or 0 |
| `ResponseRelay.SplitStatusIsNotStored` | src/forwarder.py:269-273 | a status code cut in two keeps a good response out of the cache |
| `ResponseRelay.NotFoundIsStored` | src/forwarder.py:269-273 | a first chunk that ends before the status code has a 404 stored |
| `StatusCuts.DigitsDecide` | src/forwarder.py:161-174 | a word, a space and digits yield those digits as status, whatever follows |
| `StatusCuts.DecidedByCode` | src/forwarder.py:268-273 | the chunk across the space after the version decides, by as much of the code as it holds |
| `StatusCuts.StoredByFirstChunkIff` | src/forwarder.py:268-299 | a first chunk that reaches into the code: stored if and only if it holds all of a 200 |
| `StatusCuts.StoredByCutIff` | src/forwarder.py:256-299 | no cut at an end of that space: stored if and only if the code is 200 and no cut falls inside it |
| `StatusCuts.StoredUnread` | src/forwarder.py:256-299 | a cut there: the code is never read, and the chunks after it decide alone |
| `StatusCuts.CutIsSafeIff` | src/forwarder.py:256-299 | the decision is right for every status and rest if and only if no chunk ends at the space, right behind it or inside the code |
| `Tunnel.Forward` | src/forwarder.py:61-74 | one relay thread as nested loops equals its call-by-call machine, partial sends and errors included |
| `Tunnel.TurnConserves` | src/forwarder.py:64-67 | every call keeps each byte delivered, in hand or still to be read, in order |
| `Tunnel.PlayConserves` | src/forwarder.py:61-74 | so does every run of a thread |
| `Tunnel.QuietNeverFails` | src/forwarder.py:68-69 | only a raising call makes a direction fail |
| `Tunnel.PlayFinishes` | src/forwarder.py:61-74 | a thread ends after as many calls as its measure says |
| `Tunnel.CallMovesOwn` | src/forwarder.py:61-74 | on the shared sockets, a call does to its own direction what the thread does alone |
| `Tunnel.CallLeavesOther` | src/forwarder.py:61-85 | and nothing to the other: not to what it reads or delivers, nor to how its next call fares, the shutdown included |
| `Tunnel.RunInOrder` | src/forwarder.py:70-85 | in every reachable state a write half is shut only after its thread's loop, and sockets are closed only by the handler's last steps |
| `Tunnel.RunIsPlay` | src/forwarder.py:76-85 | every run, timeouts included, is for each direction a run of its thread alone, on the answers as they take effect |
| `Tunnel.PatientRun` | src/handler.py:195-208 | unless the wait for its own thread runs out too early, a direction meets no closed socket, whatever comes of the other wait |
| `Tunnel.DirectionsAreIndependent` | src/forwarder.py:76-85 | so under every interleaving it is where its own answers alone bring it |
| `Tunnel.DeliveredInOrder` | src/forwarder.py:53-85 | each side gets an in-order beginning of what the other sent, all of it when the direction ended by end of input; a failed direction saw a call raise or was given up |
| `Tunnel.NothingAfterShutdown` | src/forwarder.py:70-74 | a shut write half means its loop is over, and nothing more is written there |
| `Tunnel.EndOfInputIsPassedOn` | src/forwarder.py:70-74 | in every interleaving, unless a call raised or the thread was given up, a write half is shut if and only if the thread that writes to it is over |
| `Tunnel.ErrorsArePassedOnToo` | src/forwarder.py:68-74 | the same after an error: whatever ended the loop, the write half is shut from then on unless the shutdown itself raises |
| `Tunnel.FinishesAndDelivers` | src/forwarder.py:53-85 | after 2n + 3 calls a direction is over, and with no raising call and its thread not given up all n bytes arrived, and then the end of input |
| `Tunnel.CloseLosesNothing` | src/handler.py:195-239 | once a socket is closed, a thread that was not given up is over, and without a raising call has delivered everything and the end of input |
| `Tunnel.NoTimeoutNoGivingUp` | src/forwarder.py:84-85 | without a timed-out wait no thread is given up |
| `Tunnel.DeliversAllIff` | src/forwarder.py:61-85 | without a raising call, bytes are lost exactly by a call that comes upon a closed socket |
| `Tunnel.GivingUpLoses` | src/forwarder.py:84-85 | whatever the run so far, a wait that runs out while bytes are missing has a continuation without a raising call in which they never arrive |
| `Tunnel.EveryInputCanBeLost` | src/forwarder.py:84-85 | in both directions, for every non-empty input, a run in which nothing of it arrives |
| `Handler.ProxyHandler.ForwardHttp` | src/forwarder.py:179-317 | cache lookup, connect, send, stream, store, on the real cache and counters |
| `Handler.ProxyHandler.CheckLimit` | src/handler.py:113-114 | the limiter's decision and the Retry-After it reports |
| `Handler.ProxyHandler.CheckBlocklist` | src/handler.py:153 | the blocklist's verdict on the request's host |
| `Handler.ProxyHandler.ServeRequest` | src/handler.py:172-222 | tunnel or forwarding of a request that was let through |
| `Handler.ProxyHandler.ScreenRequest` | src/handler.py:104-201 | limiter, password, blocklist, then tunnel or forwarding, with every counter |
| `Handler.ProxyHandler.HandleClient` | src/handler.py:72-239 | one whole connection, from reading to the reply |
| `Handler.HandleBalances` | src/handler.py:86-233 | a counted request ends in exactly one way; at most one error; a cache hit is an allowed request |
| `Handler.RejectedBucket` | src/rate_limiter.py:147-161 | after a rejection the bucket is there unless a late prune forgot it, and the estimate fails exactly when it is there and the rate is zero |
| `Handler.LimitedIffRate` | src/handler.py:113-134 | a rejected request gets its 429 if and only if the rate is not zero or its bucket was forgotten, when it is told one second; otherwise no reply, one error, not counted as rate limited |
| `Handler.ZeroRateIsSilent` | src/handler.py:113-116 | the failing input: a rate of zero and a spent bucket |
| `Handler.OnlyScreenedRequestsLeave` | src/handler.py:113-222 | an origin is dialled, a byte sent, a tunnel opened or a response replayed if and only if the limiter lets the request through, it carries a user's name and passing password, no listed domain's labels end its host's labels and no listed network contains it; no other request touches the cache; and what is sent is the printed request |
| `Handler.ClearedIsServed` | src/handler.py:172-222 | and then it is replayed, which only a GET can be, or goes to the origin: 502 if that fails, else a tunnel or the relayed response |
| `Handler.RefusalsHaveReasons` | src/handler.py:104-166 | 429, 407 and 403 each come for their own reason, with the counter they move; every other failure counts one error |
| `Handler.LimitedRequestsTouchNothing` | src/handler.py:111-134 | a rate-limited request leaves the cache alone and ends the same whatever it asks for and whatever password it carries |
| `Handler.RepeatIsReplayed` | src/forwarder.py:197-299 | two connections in a row: a complete 200 that was relayed is replayed, byte for byte and without asking the origin, to any cleared GET of the same host, port and path within the time to live |
| `Visits.HandleFiles` | src/forwarder.py:195-299 | a connection adds at most the response it relayed to the cache, under its own method, host, port and path |
| `Visits.ReplayIsOfTheSamePage` | src/forwarder.py:195-299 | over any number of connections since the cache was empty, from the bytes of the requests: a hit replays what the origin answered an earlier GET of the same host, port and path, no more than the time to live ago |
| `Proxy.MoveKeepsLocal` | src/handler.py:79-239 | every statement of a handler keeps its record consistent with where it stands |
| `Proxy.MoveKeepsScreened` | src/handler.py:111-173 | and consistent with what it was asked so far, in which order |
| `Proxy.MoveCounts` | src/handler.py:104-231 | every statement moves the counters as it moves the connection's record |
| `Proxy.StoredStays` | src/forwarder.py:289-299 | what a connection stored never changes afterwards |
| `Proxy.MomentOfHit` | src/forwarder.py:197-213 | every hit has its lookup in the run, at which another connection had stored just that entry under that key |
| `Proxy.CacheAfterMove` | src/forwarder.py:197-299 | a statement adds to the cache only the entry its handler was about to store |
| `Proxy.MoveTakesHits` | src/forwarder.py:197-213 | only the lookup makes a hit, and of what the cache holds then |
| `Proxy.RunKeepsInv` | src/handler.py:79-239 | the invariant holds in every reachable state of interleaved handlers |
| `Proxy.CountersBalance` | src/logger.py:113-122 | in every reachable state: total = rate limited + refused + blocked + allowed + undecided, undecided means in flight or cut short by an exception, cached <= allowed, at most one error per connection |
| `Proxy.OnlyClearedConnectionsServe` | src/handler.py:111-222 | in every reachable state, a connection that is served, has received or relayed a byte, or has used the cache, was let through by the limiter, then the password check, then the blocklist |
| `Proxy.HitsReplayOneRelay` | src/forwarder.py:195-299 | every replay is byte for byte what another connection's GET of the same key relayed to its own client and, at the lookup in the run, had stored, with an age of at most `ttl`; all the origin sent if that stream ended in order |
| `Proxy.StoredIsResident` | src/cache.py:150-154 | with one size limit for relay and cache, what the relay decides to store is never discarded |
| `Alone.TurnsEnd` | src/forwarder.py:256-285 | the streaming loop of the step machine relays and keeps what the pipeline does |
| `Alone.HandlerAlone` | src/handler.py:72-239 | a handler of the step machine left alone does to cache, counters and client what the pipeline does |
| `Alone.MachineRunsPipeline` | src/handler.py:72-239 | so from any state the machine can serve a connection as the pipeline does, leaving everybody else where they were |
| `PasswordHash.HexRoundTrip` | src/auth.py:80-81 | hexadecimal reads back |
| `PasswordHash.StorageFormat` | src/auth.py:27-52 | a hash is printed with 600,000 rounds and a key of 32 bytes, salt and key in hexadecimal |
| `PasswordHash.PrintedParts` | src/auth.py:50-52 | a printed hash splits at its marks into prefix, iterations, salt and key |
| `PasswordHash.HashVerifiesIff` | src/auth.py:35-93 | a password passes against another's hash exactly when the two derive the same key |
| `PasswordHash.LegacyVerifiesIff` | src/auth.py:67-68 | a credential that is no hash passes exactly itself; outside ASCII the comparison raises |
| `PasswordHash.BrokenHashIsRefused` | src/auth.py:73-83 | a hash that does not come apart into prefix, number, salt and key is refused |
| `PasswordHash.HashIsDerivedAgain` | src/auth.py:71-93 | one that does is checked by deriving the key again with its own salt, number of rounds and length; no key, or a number out of range, raises |
| `Credentials.LoadUsers` | src/auth.py:96-115 | the reading loop |
| `Credentials.WrittenLineReads` | src/auth.py:107-112 | a line gives the user before its first colon the credential after it, blanks not counted |
| `Credentials.OtherLinesSayNothing` | src/auth.py:108-110 | empty lines, comments and lines without a colon say nothing |
| `Credentials.SaveUsers` | tools/manage_users.py:31-37 | the writing loop: two comments, then the users in name order |
| `Credentials.SortUsersKeeps` | tools/manage_users.py:36 | sorting lists every user once, in order, with the same credential |
| `Credentials.LoadIsGood` | src/auth.py:105-112 | whatever a file holds, it reads as distinct names and entries that can stand in a file |
| `Credentials.SaveReadsBack` | tools/manage_users.py:31-37 | good users read back, in name order |
| `Credentials.SaveLoadIff` | tools/manage_users.py:31-37 | saving and loading is the identity if and only if all entries are good |
| `Credentials.CmdAdd` | tools/manage_users.py:40-47 | the file after adding, and whether the user was there |
| `Credentials.CmdRemove` | tools/manage_users.py:50-58 | the file after removing, unchanged for an unknown user |
| `Credentials.MigrateUsers` | tools/manage_users.py:79-86 | the loop hashes exactly the legacy credentials and counts them |
| `Credentials.CmdMigrate` | tools/manage_users.py:77-91 | the file after migrating, untouched when nothing was legacy |
| `Logins.BasicHeaderLogsIn` | src/handler.py:45-69 | a standard Basic header is checked as its name and password, colons in the password included |
| `Logins.AuthPassesIff` | src/handler.py:45-69 | a request passes the check if and only if it carries, in the Basic scheme, the name of a user and a password that passes for it |
| `Logins.LegacyUserLogsIn` | src/auth.py:67-68 | until it is migrated, a plaintext credential in the file is its user's only password |
| `Logins.AddReadsBackIff` | tools/manage_users.py:40-47 | an added user is what the next start reads if and only if the name can stand in the file |
| `Logins.AddedUserLogsIn` | tools/manage_users.py:40-47 | then that user logs in with exactly the passwords that derive the same key, and nobody else notices |
| `Logins.BadNameNeverLogsIn` | src/auth.py:105-112 | a name that cannot stand in the file never logs in |
| `Logins.ColonInNameIsLost` | tools/manage_users.py:40-47 | such a user, just added, is refused with the very password given |
| `Logins.RemovedUserIsGone` | tools/manage_users.py:50-58 | a removed user is refused, all others as before |
| `Logins.MigrateReadsBack` | tools/manage_users.py:77-91 | what the next start reads: the same users, all hashed |
| `Logins.MigrateKeepsLogins` | tools/manage_users.py:77-91 | every login that worked still works; a legacy one then passes exactly the passwords that derive its key |
| `Logins.MigrateAddsNobody` | tools/manage_users.py:77-91 | no names come or go |
| `Logins.MigrateIsIdempotent` | tools/manage_users.py:77-91 | migrating again, with any salts, changes nothing |
| `DomainFilter.ParseBlocklist` | src/filter.py:28-65 | the reading loop: comments cut, networks and domains told apart |
| `DomainFilter.IsBlocked` | src/filter.py:87-118 | blocked exactly when some listed domain or network matches the canonical host |
| `DomainFilter.MatchesIffLabels` | src/filter.py:101-107 | a host matches an entry if and only if the entry's labels are the last labels of the host's |
| `DomainFilter.InDomainsIffLabels` | src/filter.py:101-107 | domain blocking in those terms |
| `DomainFilter.SubdomainHostsAreBlocked` | src/filter.py:97-107 | every name under a blocked domain is blocked, whatever its case and outer blanks |
| `DomainFilter.DomainsAreEntries` | src/filter.py:36-63 | the listed domains and networks are exactly the entries of either kind |
| `DomainFilter.MoreLinesBlockMore` | src/filter.py:36-63 | a file with more lines, in whatever order, blocks no fewer hosts by domain |
| `DomainFilter.EntryReads` | src/filter.py:38-40 | a line lists what stands before a comment, without the blanks around it and in lower case |
| `DomainFilter.BlockedIffListed` | src/filter.py:28-118 | from the text of the file: a host is blocked if and only if a line lists a name whose labels end its labels or a network that contains it, in any case and with any blanks around |
| `DomainFilter.ListedNameIsBlocked` | src/filter.py:28-118 | so a listed name blocks itself and every name under it, however the two are written |
| `FileLines.LineEnds` | src/auth.py:106 | a line of a text file ends at a newline, a carriage return, or the two together |
| `FileLines.LinesOfPrinted` | src/auth.py:106 | a printed line reads back as one line |
| `Pieces.SplitConcat` | src/auth.py:74 | splitting a text in two at the mark splits its pieces in two |
| `Text.StripBetween` | src/parser.py:128 | stripping takes away the blanks at both ends and nothing else |

## Left out

- Floating-point rounding: tokens and times are real numbers, clock readings are parameters that never go back.
- Text outside ASCII: one character stands for one byte, so the lossy decoding of heads, non-ASCII blanks in text files and non-ASCII case folding are not modelled.
- The URL, address, base64, PBKDF2 and random-number libraries: their answers are parameters, and the salt of every hash is arbitrary. The only law assumed of PBKDF2 is that a key has the length asked for.
- The URL library drops parameters and fragments of absolute targets; the round trip starts from the parsed record.
- The digit limit of integer conversion.
- Requests with several Content-Length fields: that the reader takes the first (`Framing.LengthReads`) and the parser the last (`Destinations.LengthIsLastField`) is proved, what follows from two different lengths is not.
- Transfer-Encoding bodies and HTTP caching directives, which the proxy does not implement.
- A negative cache capacity, with which the eviction loop would pop an empty dictionary.
- Aliasing of the dictionary passed to `put` and of the entry returned by `get`: entries are values here.
- The sweep of stale buckets is one step, placed where it reads a bucket's last refill. The code reads that without the bucket's lock and deletes later; a token taken in between counts in the model as taken from a dropped bucket.
- Locks appear as the atomicity of a step or of a method; that every access holds the right lock is not itself modelled.
- Handler.ProxyHandler.HandleClient: one connection at a time; several at once are the step machine of `Proxy.dfy`, where a handler's statements are steps, and the key it asks for and what the limiter, password check and blocklist say are the outside world's choice (`Alone.dfy` has them chosen as the pipeline computes them). The per-host counters are missing from both.
- Proxy.HitsReplayOneRelay: says nothing of a replay whose client is gone, which sends an unknown part of the entry.
- The order of partial writes when a plain request to the origin fails half sent: the origin is then counted as not reached.
- Sockets, DNS, timeouts other than the tunnel's, signals, the thread pool and the accept loop.
- Blocking on a full socket buffer, and a call that is already blocked when the handler closes its socket: from the close on every call raises.
- The tunnel's peers send what they send whatever they are given; that one stops because the other did is not modelled.
- Whether an address lies in a network: the library's answer is a parameter; only reading the list and asking it are modelled.
- Hot reload of the blocklist and of the credentials.
- Logging, the dashboard, configuration loading and what the command-line tool prints.
