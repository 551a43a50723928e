# Verified model of a quick tunnel

The crate keeps a local HTTP server reachable through a tunnel. It registers up to four connections ("legs") with
an edge network, supervises and renews them, and serves every inbound stream by speaking HTTP/1.1 over one pool of
keep-alive sockets to the local origin. This project models the three parts of it that have to be right over whole
runs, and proves them right, or says exactly when they are not.

**The proxy over the shared pool.** `Http1` is a small parser of message heads, with the stability that a reader
in chunks relies on. `Shapes`, `RequestHead`, `HeadReader`, `Pumps`, `Pool`, `Proxy` and `ProxyHttp` are the
operations of `src/proxy.rs` and `src/pool.rs`, loops and mutable objects included, each tied to a function of its
inputs. What these functions mean is proved in terms of the octets, entries and reads themselves: `Poolable` for the
analysis, `PrintedRequest` for the printed head, `Delivery` for the two paths. A read may deliver any length from 1 to
what was asked for, or fail: a `Schedule` says which, and the theorems are about all schedules. `SharedPool` is the whole: any number of streams, each at its own await, over one pool, with an
origin that answers on every socket when it likes, in chunks. Each step is one that the code makes between two
awaits; steps interleave freely. `Isolation`, `IsolationSteps` and `IsolationRuns` prove its invariant, and response
isolation from it; `PoolTraces` ties the state machine to the methods. `Counters` is one shared byte counter.

**The registration lifecycle.** `Session` composes the owner of a control session with its driver thread, the
channels between them and the edge. `Leg` composes a reactor with all the sessions that it ever opened, `Tunnel` all
legs with the reconnect counter and the shutdown signal; `TunnelRuns` has the theorems, `TunnelTraces` two runs that
show their limits. `Retry` is the retry loop and its waits, `Supervisor` the accept loop inside the reactor's select,
`Manager` the choice of connection indices.

**The discovery cache.** `Edge` is discovery and rotation, `EdgeCache` the cache with any number of callers that look
up, discover and store in any interleaving.

Where the source changes state the model has classes, loops and `modifies` clauses; where several tasks share state
it has a function `Next` from states and steps to states, and theorems over all its runs (`Runs`).

## What the source promises and the code does not keep

The code is what is modelled. It differs from what is written about it in these places.

- Ten failed retries take 181 s of waiting, not "roughly 90s" (src/manager.rs:37-40); see `TunnelRuns.GivesUpExactly`.
- The shutdown signal is lost on every leg that is inside a connect cycle (src/manager.rs:94-106 promises to drain
  and await them all): such a leg never shuts down, and may register anew and live on; see
  `TunnelRuns.ShutdownReaches`, which says exactly whom the signal stops, and `TunnelTraces.SignalLost`.
- The comment at src/manager.rs:323-325 has the supervisor see the shutdown and close the connection. It never does:
  its future is dropped; see `Supervisor.Supervise`.
- `shutdown_with` ignores its grace period; each leg uses 30 s (src/manager.rs:94-99, 334).
- `replace_existing` says that the leg has registered before, as far as the leg knows; the edge may hold a
  registration that the leg gave up on; see `TunnelTraces.LateReply`.
- An origin that sends more than it declared can have the excess delivered, in the same read as the head; see
  `Proxy.ExactDelivery`, which has the exact condition, and `Proxy.OverReadDelivered`.
- `run_pooled` reports success for an unframed response whose body was cut short by a failed read
  (src/proxy.rs:305-307); see `Proxy.UnframedDelivery` and `Proxy.UnframedTrusted` for the exact conditions on the
  schedule and on the stream, and `Proxy.TruncatedDelivered` for such a response.
- A stream can end in success with up to 16384 octets written and not counted, if a write of the upward half of
  `run_bidi`, of the drain of `run_pooled` or of either half of `proxy_tcp` fails (src/proxy.rs:305-307, 333-337,
  506-509); see `Counters.SuccessLags` for the exact condition and `Counters.DiscardedPumpLags` for the runs.
- A request with `Content-Length: +5` has five octets forwarded although its framing is invalid by section 8.6 of
  RFC 9110; see `RequestHead.FramingAgreement` for the exact condition and `RequestHead.PlusSignDisagrees`.
- A response is pooled by its Content-Length although section 6.3 of RFC 9112 gives it another framing, as beside a
  transfer coding other than chunked; see `Origin.ResponseFramingAgreement` for the exact condition and
  `Origin.CodedLengthIsPooled`.
- Of a URL with a query right behind the authority `extract_path` makes another target: the query is dropped, or
  what follows a slash in it becomes the path, so that `http://a?next=/b` asks the origin for `/b`. A target given
  as a path is cut where `://` occurs in it. See `RequestHead.ExtractPathOfUrl`, `RequestHead.BareQuery` and
  `RequestHead.PathKept` for the exact conditions, and `RequestHead.OtherResource`.
- A request with a Host among its headers but no host of its own is printed without a Host field, which section 3.2
  of RFC 9112 requires (src/proxy.rs:376-395); see `RequestHead.HostIsSent`.
- The heads that are accepted under every schedule end at 30721 octets, not at the limit of 32768 (src/proxy.rs:47-48).
- The cache's age counts from the store, not from the discovery; see `EdgeCache.AgeFromWrite`. Reconnects do not use
  the cache, whatever src/edge.rs:6-10 says: `connect_cycle` calls `discover` (src/manager.rs:287).
- docs/status.md:50-53 has one connection per tunnel; the default is two (src/manager.rs:47).

## Model

| member | source | states |
|---|---|---|
| Http1.ParseStable | src/proxy.rs:463-484 | once the parser accepts or rejects a buffer, it says the same of every longer one |
| Http1.ParseOfPrefix | src/proxy.rs:463-484 | a buffer that begins with a head, cut anywhere: more is wanted before the end of the head, from there on the head is found |
| Http1.PrintedHeadParses | src/proxy.rs:374-415 | a printed head, whatever follows it, parses to its start line and its fields in order, and to its own length |
| Http1.StatusParses | src/proxy.rs:469-471 | a status line of either version gives its three digits, whatever reason it states |
| Http1.TooManyFields | src/proxy.rs:462-467 | a response head of more than 64 fields is refused |
| Shapes.AnalyseRequest | src/proxy.rs:96-131 | the loop over the metadata comes to `ShapeOf`: the last Content-Length, and whether chunked, upgrade or close occur in any of the fields that count |
| Shapes.AnalyseResponse | src/proxy.rs:147-175 | the same for a response, with status 101 as an upgrade |
| Poolable.RequestPoolable | src/proxy.rs:90-131 | a request is poolable if and only if no header field in its metadata is a Transfer-Encoding that says chunked, an Upgrade, or a Connection that says upgrade or close, letter by letter in either case |
| Poolable.ResponsePoolable | src/proxy.rs:141-175 | a response is poolable with length `n` if and only if it is no 101, no field of it says otherwise, as for requests, and its last Content-Length parses to `n` |
| Poolable.LengthMeans | src/proxy.rs:110-112 | the length that is read is what the last Content-Length, in either case, parses to, if there is one |
| Poolable.LengthOnlyParses | src/proxy.rs:110-112 | only digits, perhaps behind a plus sign, of a value below 2^64 parse as a length |
| RequestHead.ExtractPathOfUrl | src/proxy.rs:417-429 | of a URL the target is its path and query, by section 3.2.1 of RFC 9112, if and only if it has a path or nothing follows the authority |
| RequestHead.BareQuery | src/proxy.rs:418-424 | a query right behind the authority is dropped up to the first slash in it, from where on it is taken for the path |
| RequestHead.OtherResource | src/proxy.rs:418-424 | `http://a?next=/b` asks the origin for `/b` |
| RequestHead.PathKept | src/proxy.rs:418-428 | a target given as a path is kept if and only if `://` does not occur in it; what is neither becomes `/` |
| RequestHead.BuildRequestHead | src/proxy.rs:374-415 | the pushes of the loop come to the request line, Host, the copied fields in order without any Host, and a Connection field if none was copied |
| RequestHead.FramingAgreement | src/proxy.rs:247-251 | the origin, by section 6.3 of RFC 9112, waits for exactly the octets that are forwarded if and only if there is no transfer coding and every Content-Length is one and the same numeral below 2^64 |
| RequestHead.RequestRoundTrip | src/proxy.rs:374-415 | the printed head parses back to method, target, Host and the other fields in order; its body length is the number of octets forwarded if and only if the lengths are in order |
| PrintedRequest.PrintedHead | src/proxy.rs:374-415 | read back, the head has the first `HttpMethod` or GET, the first `HttpHost` as Host unless missing or empty, exactly the header entries but Host, by index, in order and each once, and, unless one of them is a Connection, one that asks to keep alive or to close |
| RequestHead.HostIsSent | src/proxy.rs:376-395 | the printed head has a Host field if and only if the metadata has a host of its own that is not empty |
| RequestHead.PlusSignDisagrees | src/proxy.rs:110-112 | `+5` is forwarded as five octets, and is no valid Content-Length |
| HeadReader.ReadHttpResponseHead | src/proxy.rs:441-486 | the reading loop comes to the function `ReadHead` of the stream and the schedule |
| HeadReader.HeadReadSound | src/proxy.rs:445-485 | a success is the head of the stream under every schedule; leftover and unread octets are the rest of it, the leftover is shorter than 2048 |
| HeadReader.HeadAcceptance | src/proxy.rs:457-461 | a head is accepted under every schedule of successful reads if and only if it has at most 30721 octets or all there is fits into 32768, and under some schedule if and only if it has at most 32768 |
| HeadReader.LeftoverReached | src/proxy.rs:456-481 | every leftover that the bounds allow does occur |
| HeadReader.StopsAtBad | src/proxy.rs:463-467 | a malformed head is refused without going on behind the chunk that shows it |
| HeadReader.ReadsBounded | src/proxy.rs:456-461 | however it ends, the reader takes at most 2048 octets more than the limit |
| Pumps.PumpN | src/proxy.rs:568-630 | success moves and counts exactly the first `n` octets in order; end of stream after `k` has moved and counted exactly `k`; after a failed write at most one chunk is not counted; reliable ends make it succeed exactly if `n` octets are there |
| Pumps.PumpAll | src/proxy.rs:514-564 | everything up to where the schedule makes it stop is moved and counted, and whether that was the end of the stream or a failed read |
| Pumps.ReliableDrain | src/proxy.rs:550-563 | without failed reads a drain reaches the end, whatever the chunks |
| Pumps.DrainReadsAll | src/proxy.rs:550-563 | a drain reads everything if and only if no read fails before the last octet |
| Pumps.DrainMeetsEnd | src/proxy.rs:550-563 | a drain ends well if and only if no read fails until one meets the end |
| Pool.Pool.Acquire | src/pool.rs:54-72 | the pop loop, while time goes on between its looks, comes to: take the newest entry if it is fresh, else clear all; else connect |
| Pool.Pool.Release | src/pool.rs:75-86 | pushes with the time of release, or drops beyond the cap |
| Pool.HitIffSomeFresh | src/pool.rs:55-69 | a socket comes from the pool if and only if some entry was released no longer ago than the time to live; a miss leaves the pool empty |
| Pool.NewestIfYoung | src/pool.rs:61-67 | it is the newest entry, handed out if and only if that was released no longer ago than the time to live; the others stay |
| Proxy.FrameCarriesHead | src/proxy.rs:261-267 | the frame to the edge has no error text, the status in decimal under `HttpStatus`, and all fields of the head, in order, under `HttpHeader:` and their names |
| Proxy.EchoHead | src/proxy.rs:260-276 | writes that frame, then the leftover, and counts the leftover; it succeeds if the edge takes what it is sent |
| Proxy.ServeResponse | src/proxy.rs:255-313 | success has delivered what `PooledDelivery` says and counted exactly its body; the socket is for release if and only if the response is poolable, and then stands right behind what was delivered; with an edge that takes everything and reads that do not fail it succeeds if and only if all is there |
| Proxy.RunPooled | src/proxy.rs:228-314 | success has forwarded exactly Content-Length octets of the request, or none; the socket is released exactly if the exchange succeeded and was framed, else the pool is untouched; with ends that do not fail it succeeds if and only if the request body and the response are all there |
| Proxy.RunBidi | src/proxy.rs:316-370 | the upward half moves and counts all up to where it stops, but for a chunk whose write failed; success has delivered what `BidiDelivery` says; with an edge that takes everything it succeeds if and only if the head is accepted and the drain meets the end |
| Delivery.BidiAnswers | src/proxy.rs:338-369 | wherever the answer begins on the socket: the fallback delivers everything behind the head if and only if the head is accepted and no read fails until one meets the end; else it fails |
| Delivery.BidiDelivers | src/proxy.rs:338-369 | with reads that succeed it delivers every response with an acceptable head, whole |
| Delivery.PooledAnswers | src/proxy.rs:255-300 | the pooled path delivers a framed response if and only if the head is accepted and the whole body is there |
| Delivery.PooledDelivers | src/proxy.rs:255-300 | with reads that succeed it does so for every acceptable head exactly if the body is all there, and delivers exactly the body if nothing comes behind it |
| Delivery.UnframedAnswers | src/proxy.rs:301-312 | the pooled path succeeds on an unframed response if and only if the head is accepted, and delivers all up to where the drain stops |
| Delivery.BothDeliver | src/proxy.rs:255-370 | with reads that succeed, under any two schedules, both paths deliver the same whole response |
| ProxyHttp.TakeSocket | src/proxy.rs:193-204 | the newest idle socket if it is fresh, else a new one if there is one |
| ProxyHttp.ExchangePooled | src/proxy.rs:208-219 | the head that keeps alive, and the pooled path from there; with ends that do not fail it succeeds exactly if the request body and the response are all there |
| ProxyHttp.ExchangeBidi | src/proxy.rs:208-224 | the head that closes, and the fallback from there; likewise |
| ProxyHttp.ProxyHttp | src/proxy.rs:179-225 | a stream from its request to its end: 502 or 504 without a socket; else the pooled path exactly if no header field says otherwise, and the socket back to the pool exactly if that succeeded with a framed answer |
| Proxy.FastRefinesSlow | src/proxy.rs:255-313 | on a head, exactly Content-Length octets and the end, the pooled path and the fallback deliver the same whole response, under any two schedules; likewise for an unframed response whose drain met the end |
| Proxy.UnframedDelivery | src/proxy.rs:301-312 | an unframed response is delivered whole if and only if no read of the drain fails before the last octet |
| Proxy.UnframedTrusted | src/proxy.rs:301-312 | every success under every schedule has delivered the whole of an unframed response if and only if it has no body |
| Proxy.TruncatedDelivered | src/proxy.rs:305-307 | a concrete response and schedule for which success delivers the head and loses the body |
| Proxy.FramedDelivery | src/proxy.rs:269-283 | a success delivers the body up to its length, or all that was read with the head if that was more, and leaves the socket there |
| Proxy.ExactDelivery | src/proxy.rs:256-283 | every success under every schedule delivers exactly Content-Length octets if and only if no more than that can be read past the head |
| Proxy.OverReadDelivered | src/proxy.rs:269-281 | a concrete stream with one octet too many, and a schedule that delivers it |
| Origin.HeadsAfter | src/proxy.rs:208-213 | complete requests in front ask the origin for exactly one answer each |
| Origin.ResponseFramingAgreement | src/proxy.rs:147-175 | the length by which a response is pooled is that of section 6.3 of RFC 9112 if and only if it is zero where there can be no body, and else its lengths are in order and it answers no CONNECT |
| Origin.CodedLengthIsPooled | src/proxy.rs:158-161 | a response with a transfer coding other than chunked is pooled by the length beside it, which section 6.3 ignores |
| Origin.AnswerIsFinal | src/proxy.rs:278-284 | after a complete answer a well-behaved origin has nothing to send |
| Isolation.BoundaryIsStill | src/pool.rs:9-12 | on a socket at a message boundary the origin is asked for nothing and may send nothing |
| IsolationSteps.StepKeeps | src/proxy.rs:179-314 | every step of every stream, of the origin and of the clock keeps the invariant |
| IsolationRuns.IdleAtBoundary | src/pool.rs:9-12 | in every run every idle socket is at a message boundary, with nothing unread and nothing to come |
| IsolationRuns.SocketConservation | src/pool.rs:54-86 | in every run a socket is in the pool, once, or with exactly one stream, or closed; the pool holds at most 16 |
| IsolationRuns.ResponseIsolation | src/proxy.rs:215-303 | in every run, a stream that finished on the pooled path was given, whole, the answer to its own request, which the origin reads as the one of the same number on that socket, and no other stream has that exchange |
| IsolationRuns.OffPoolForever | src/proxy.rs:301-313 | a socket whose exchange failed or left the pooled path is never idle again |
| PoolTraces.ReadAnswerIsARound | src/proxy.rs:446-485 | a read of the state machine is a round of the head reader and what the pooled path does with it |
| PoolTraces.AcquireDecides | src/pool.rs:54-72 | in every reachable state a stream gets the newest idle socket if that was released at most 30 s ago, else it connects and the pool is emptied |
| PoolTraces.WriteHeadDecides | src/proxy.rs:208-224 | the head that a stream writes asks to keep the socket alive, and the stream stays on the pooled path, if and only if no header field says otherwise |
| PoolTraces.ReleaseDecides | src/proxy.rs:293-294 | the socket of a stream that is done goes to the pool, or is closed if 16 are idle |
| PoolTraces.FinishedAsDelivered | src/proxy.rs:255-300 | what a finished stream was given in any run is what both methods deliver on that stretch of the socket |
| PoolTraces.ServedOverOneSocket | src/proxy.rs:290-294 | any two pooled requests, with bodies and answers of any length whose heads can be accepted, can be served one after the other over one socket |
| Counters.CounterBound | src/proxy.rs:514-630 | in every run of all streams the counter is what was written less a lag of at most 16384 octets for each half of a stream, and of none for one that ended in success without a failed write |
| Counters.SuccessLags | src/proxy.rs:305-337 | a half that ended in success has written more than it counted if and only if a write of it failed after taking some octets, and only on a path that discards how its pump went; so never a framed response, nor `run_bidi` in `bytes_out` |
| Counters.DiscardedPumpLags | src/proxy.rs:333-337 | on every such path, runs that end in success with any number of octets up to 16384 not counted |
| Counters.PumpIsActions | src/proxy.rs:514-630 | what the pumps are proved to do is a run of a writer's actions, with the same octets written and counted |
| Session.DriveLoop | src/rpc.rs:275-306 | the driver's loop, for whatever its polls find, reports at most one result and goes round at most once without leaving |
| Session.PollDecides | src/rpc.rs:278-306 | in every reachable state a poll reports an answer that has come before anything else, then obeys a command or a sender that is gone, then the end of the RPC system, and else changes nothing |
| Session.OwnerLearns | src/rpc.rs:328-342 | an owner that still waits learns what was reported: it holds the session on details, gives up on a refusal |
| Session.ControlSession.ShutdownGraceful | src/rpc.rs:154-162 | the command goes out unless one was given before; the wait for the driver lasts until its word comes, and grace + 2 s at most |
| Session.ControlSession.Drop | src/rpc.rs:165-172 | the immediate close goes out unless the session was shut down |
| Session.StepKeeps | src/rpc.rs:273-342 | every step of owner, driver, edge and clock keeps the session's invariant |
| Session.UnregisterSafety | src/rpc.rs:308-318 | in every interleaving unregister is sent at most once, and only after the register succeeded, the owner got the details and asked for a graceful close |
| Session.ClosesAreServed | src/rpc.rs:288-318 | a graceful close that finds the driver in its loop is followed by unregister at the next poll; after any other close the driver ends within two polls without it |
| Session.WaitsAreBounded | src/rpc.rs:154-162 | the owner waits at most grace + 2 s, the driver at most grace, the register at most 15 s, whatever the edge does |
| Session.TimersFire | src/rpc.rs:154-162 | in every reachable state a wait that is up can end at once by its timer and is over then; time goes on after at most two such steps |
| Retry.BackoffIsCappedPower | src/manager.rs:460-463 | for every attempt, shifts of 64 and more included, the wait is min(2^max(k-1, 0), 30) |
| Retry.BackoffMonotone | src/manager.rs:460-463 | the waits never shrink |
| Retry.SleptInClosedForm | src/manager.rs:341-363 | the waits up to attempt `k` sum to 2^k - 1 for `k <= 5` and to 31 + 30(k - 5) beyond |
| Retry.RetryLoop | src/manager.rs:341-386 | the loop gives up if and only if ten rounds fail, after 181 s; else it says which round stopped it or connected, and what it slept |
| Supervisor.AcceptLoop | src/supervisor.rs:79-119 | one poll of the accept loop: streams counted up to the first error, the shutdown channel first |
| Supervisor.Supervise | src/manager.rs:315-330 | the phase ends by shutdown exactly if the signal has fired by the first poll that is not quiet; word is then sent to the accept loop, which never gets it: its own shutdown arm does not run |
| Manager.QuickTunnelManager.WithHaConnections | src/manager.rs:159-162 | the number of connections is clamped to 1..4 |
| Manager.QuickTunnelManager.SpawnReactors | src/manager.rs:210-259 | legs get the distinct indices 0..n-1, and always index 0 |
| Leg.StepKeeps | src/manager.rs:299-457 | every move of a reactor and of all its sessions' drivers keeps the leg's invariant, and registrations are gained by an answer with details only |
| Tunnel.StepKeeps | src/manager.rs:198-259 | every step of every leg, and the signal, keeps the tunnel's invariant |
| TunnelRuns.SessionConservation | src/manager.rs:332-386 | in every run a leg has at most one live session; each session that it got is ended by exactly one command, immediate on loss and graceful on shutdown; none is open when a register is sent |
| TunnelRuns.ReplaceExact | src/manager.rs:364-372 | in every run a leg sends `replace_existing` exactly if an earlier register of it got the details |
| TunnelRuns.ReconnectsExact | src/manager.rs:374-380 | in every run the shared counter is the sum over the legs of registrations less one, less an increment in flight |
| TunnelRuns.UnregistersOnce | src/rpc.rs:313-318 | over its whole life a leg sends at most one unregister, and only while it shuts down |
| TunnelRuns.GivesUpExactly | src/manager.rs:341-386 | in every run a leg has given up exactly if ten retries in a row failed, having slept 181 s; before that, its sleep is that of its failures |
| TunnelRuns.NoSignalNoStop | src/manager.rs:320-337 | in every run without a signal, a leg that is not winding down never shuts down, whatever becomes of the others |
| TunnelRuns.StartFailsAlone | src/manager.rs:198-259 | if the first connect fails no other leg has begun; a further leg is led from its first connect to success or to its first retry, and nowhere else |
| TunnelRuns.StartFails | src/manager.rs:198-199 | whatever ends the first connect of the first leg but success, `start` has failed |
| TunnelRuns.ShutdownSafety | src/manager.rs:318-337 | once the signal has reached a leg at a select, in every run from there it sends no register and makes at most two moves |
| TunnelRuns.ShutdownCommands | src/manager.rs:332-337 | when it has ended, it has given one graceful command if it was supervising, and no further one if it was backing off |
| TunnelRuns.ShutdownProgress | src/manager.rs:332-362 | it can always stop at once, and its wait for the session is bounded by 32 s |
| TunnelRuns.SignalTaken | src/manager.rs:354-363 | in every reachable state: right after the signal a leg can stop at once if and only if it was supervising or backing off, for whatever attempt; any other is left as it was |
| TunnelRuns.ShutdownReaches | src/manager.rs:318-363 | from every reachable state, in every run after the signal up to the next one: a leg winds down, without a further register, if and only if it was supervising or backing off when the signal fired (or winding down already); it has shut down after two moves of its own from the one select and one from the other; any other leg never shuts down |
| TunnelTraces.SignalLost | src/manager.rs:364-380 | a run in which the signal fires during a connect cycle, and the leg registers once more and supervises |
| TunnelTraces.LateReply | src/rpc.rs:328-331 | a run in which the edge has accepted a register that timed out: the next one goes out without the flag, the first is never unregistered |
| Edge.ResolveSrv | src/edge.rs:175-202 | the nested loops come to `Resolved`; a failed SRV lookup is an error, failed targets are skipped |
| Edge.ResolvedExactly | src/edge.rs:184-201 | an address is in the result if and only if some record gives it and it matches the filter |
| Edge.ResolvedInOrder | src/edge.rs:184-201 | records and their addresses are gone through in order, and each wanted address is kept as often as it comes |
| Edge.MatchesByFamily | src/edge.rs:61-77 | a filter takes both families or the one that it names |
| Edge.Discover | src/edge.rs:82-98 | the system resolver, if that gives nothing the fallback, if that gives nothing an error |
| Edge.DiscoverySound | src/edge.rs:82-98 | discovery succeeds if and only if one of the resolvers offers a matching address; all it gives match and were offered |
| Edge.DiscoveryInTurn | src/edge.rs:82-98 | exactly the wanted addresses of the system resolver if it gives any, else exactly those of the fallback, else an error |
| Edge.Shuffled | src/edge.rs:204-215 | the result is the input turned by the hash's remainder |
| Edge.HashPicksFirst | src/edge.rs:209-213 | the first address out is the one at the hash modulo the length |
| Edge.RotatedIsRotation | src/edge.rs:204-215 | a turned list has the same addresses, each as often, in the same cyclic order |
| EdgeCache.EdgeRegistry.GetOrRefresh | src/edge.rs:127-148 | a hit leaves the cache alone, a miss overwrites it with what was discovered, an error leaves it alone |
| EdgeCache.FindDecides | src/edge.rs:140-141 | a caller that discovers fails, leaving the cache alone, if and only if neither resolver gives an address that it wants; else it has found what the first that does gives |
| EdgeCache.CacheAgrees | src/edge.rs:127-148 | in every interleaving of callers an answer is a rotation of what a discovery gave that a caller with the same filter made in a step of that run, for a hit the one that was stored, else the caller's own; it is not empty and all addresses match |
| EdgeCache.HitsAreYoung | src/edge.rs:133-137 | a hit was stored for the same filter less than the time to live before |
| EdgeCache.LookHits | src/edge.rs:132-138 | a look hits if and only if the last of all stores was for the same filter and less than the time to live ago |
| EdgeCache.AgeFromWrite | src/edge.rs:140-146 | for every time to live and every delay, a run in which a hit serves what was discovered that delay, and any part of the time to live, ago |

## Left out

- Cap'n Proto, the stream codecs (src/stream.rs), src/proto_gen: a frame is an abstract value, with its error text and metadata; RPC bytes are not part of this model.
- QUIC, TLS, DNS and TCP themselves: their outcomes are parameters or free steps (success, failure, chunks, end).
- src/api.rs: the request for a tunnel, a retry loop around an HTTP client and a JSON parser.
- httparse is not part of the repository. `Http1.ParseHead` stands for it with strict CRLF lines, a verdict per line rather than per octet, and 64 fields at most. Bare line feeds, leading empty lines and the replacement of octets that are not UTF-8 in values are not modelled.
- The 502 and 504 answers of a failed connect are in `ProxyHttp`; in `SharedPool` they are the step `Drop`. That `ProxyHttp` may share its pool with other streams while it runs is what `SharedPool` models, not the method.
- proxy_tcp, and what WebSocket and raw TCP payloads mean: both are pumps in two directions.
- RunBidi: does not model the interleaving of its two halves, which are run one after the other; they share no object. Nor does it model the half-close of the socket after the upward half.
- IsolationRuns.ResponseIsolation: assumes that requests on the pooled path are printable and have their lengths in order, and that the origin sends nothing unasked and no more than its declared length, as the proxy reads it (`Origin.ResponseFramingAgreement` says when that is the length of RFC 9112). HEAD and 304 responses and interim 1xx responses are covered only as far as they do not break these assumptions; that they complete is not claimed.
- IsolationRuns.ResponseIsolation: says nothing of streams that leave the pooled path; what those are given is `Proxy.UnframedDelivery` and `Proxy.RunBidi`.
- RequestHead.FramingAgreement: takes a list of lengths in one Content-Length for invalid, where section 6.3 of RFC 9112 lets a recipient accept equal ones.
- HeadReader.HeadAcceptance: is about heads that parse; a stream that does not begin with one is rejected at the latest when it exceeds the limit or ends.
- Counters.CounterBound: is modulo 2^64, as the counter is. A half that ends while its stream goes on is modelled up to the end of the stream; why a stream fails is not told apart.
- Failed writes: `Streams.Sink` fails once and for all when its room is used up; which errors a write can have is not told apart.
- Closing the writing half to the edge can fail independently of the body; after a failed write it is not said what it does.
- Session.UnregisterSafety: is about the request being sent to the RPC system. The RPC system is not polled while the driver waits for the ack (src/rpc.rs:313-318), and whether the request then leaves the machine is not modelled.
- build_register_request is taken to succeed, and the driver thread to be spawned and not to panic.
- Session.WaitsAreBounded: time is counted in seconds per session and does not advance past a timer that can fire; scheduling delays are not modelled.
- TunnelRuns.ReconnectsExact: is modulo 2^64, as the counter is.
- Only the first connect of the first leg can be cancelled (by the time limit of `start`); a runtime that is torn down under its reactors is not modelled.
- `shutdown_with` joins the legs one after the other; the join itself is not modelled. By `TunnelRuns.ShutdownReaches` it returns for the legs that were at a select, while for one that was not it returns only if that leg gives up.
- Edge.Shuffled: the hash of the clock is a parameter; that it is random enough is not claimed.
- Error texts, logging, the spike crate, examples and live tests.
