/** Every step of `SharedPool` keeps the invariant of `Isolation`. */
module IsolationSteps {
  import opened Options
  import opened Octets
  import opened Http1
  import opened Shapes
  import opened RequestHead
  import opened Streams
  import opened HeadReader
  import opened Pumps
  import opened Pool
  import opened Proxy
  import opened Origin
  import opened SharedPool
  import opened Isolation

  // ── The origin ──

  lemma OriginBegins(s: State, k: nat)
    requires Inv(s) && k in s.sockets && Asked(s.sockets[k].received, |s.sockets[k].starts|)
    ensures Inv(s.(sockets := s.sockets[k := s.sockets[k].(starts := s.sockets[k].starts + [|s.sockets[k].sent|])]))
  {
    var sk := s.sockets[k];
    assert OwnerOk(s, k);
    if sk.owner == InPool {
      BoundaryIsStill(sk);
      assert false;
    } else {
      forall t | t in s.streams && HeldBy(s.streams[t].phase) == Some(k)
        ensures HeldOk(s.streams[t], sk.(starts := sk.starts + [|sk.sent|]))
      {
        assert StreamOk(s.sockets, t, s.streams[t]);
        HeldThroughBegin(s.streams[t], sk);
      }
      OriginMoves(s, k, sk.(starts := sk.starts + [|sk.sent|]));
    }
  }

  lemma OriginSends(s: State, k: nat, chunk: Bytes)
    requires Inv(s) && k in s.sockets && MaySend(s.sockets[k], chunk)
    ensures Inv(s.(sockets := s.sockets[k := s.sockets[k].(sent := s.sockets[k].sent + chunk)]))
  {
    var sk := s.sockets[k];
    assert OwnerOk(s, k);
    if sk.owner == InPool {
      BoundaryIsStill(sk);
      assert false;
    } else {
      forall t | t in s.streams && HeldBy(s.streams[t].phase) == Some(k)
        ensures HeldOk(s.streams[t], sk.(sent := sk.sent + chunk))
      {
        assert StreamOk(s.sockets, t, s.streams[t]);
        HeldThroughSend(s.streams[t], sk, chunk);
      }
      OriginMoves(s, k, sk.(sent := sk.sent + chunk));
    }
  }

  // ── Acquiring ──

  /** The newest entry leaves the pool. */
  function Popped(s: State, t: nat, k: nat): State
    requires t in s.streams && k in s.sockets && s.idle != []
  {
    Put(s, t, s.streams[t].(phase := Holding(k)), k, s.sockets[k].(owner := Stream(t))).(idle := s.idle[..|s.idle| - 1])
  }

  lemma PoppedPool(s: State, t: nat, k: nat)
    requires PoolOk(s) && t in s.streams && s.idle != [] && k == s.idle[|s.idle| - 1].stream && k in s.sockets
    ensures PoolOk(Popped(s, t, k))
  {
    var s' := Popped(s, t, k);
    forall i | 0 <= i < |s'.idle| ensures IdleOk(s', s'.idle[i].stream) { assert IdleOk(s, s.idle[i].stream); }
  }

  lemma PoppedOwners(s: State, t: nat, k: nat)
    requires OwnersOk(s) && t in s.streams && s.idle != [] && k == s.idle[|s.idle| - 1].stream && k in s.sockets
    requires HeldBy(s.streams[t].phase).None?
    ensures OwnersOk(Popped(s, t, k))
  {
    var s' := Popped(s, t, k);
    forall j | j in s'.sockets ensures OwnerOk(s', j) {
      assert OwnerOk(s, j);
      if j != k && InIdle(s.idle, j) {
        var i :| 0 <= i < |s.idle| && s.idle[i].stream == j;
        assert s'.idle[i].stream == j;
      }
    }
  }

  lemma TakesFromPool(s: State, t: nat, k: nat)
    requires Inv(s) && t in s.streams && s.streams[t].phase.Arrived?
    requires s.idle != [] && k == s.idle[|s.idle| - 1].stream && k in s.sockets
    ensures Inv(Popped(s, t, k))
  {
    hide Evolves, WellFormed, OwnResponse, Quiet;
    var s' := Popped(s, t, k);
    assert IdleOk(s, k);
    PoppedPool(s, t, k);
    PoppedOwners(s, t, k);
    OthersKept(s, t, k, s'.sockets[k]);
    StreamsPut(s, s', t, s'.streams[t]);
    assert RequestOk(s.streams[t]);
    ExchangesKept(s, t, s'.streams[t]);
  }

  /** A miss: every entry of the pool is closed. */
  function Emptied(s: State, t: nat): State
    requires t in s.streams
  {
    s.(streams := s.streams[t := s.streams[t].(phase := Connecting)],
       sockets := map k | k in s.sockets :: if s.sockets[k].owner == InPool then Shut(s.sockets[k]) else s.sockets[k],
       idle := [])
  }

  lemma EmptiedStream(s: State, t: nat, u: nat)
    requires Inv(s) && t in s.streams && u in s.streams
    ensures StreamOk(Emptied(s, t).sockets, u, s.streams[u])
  {
    hide OwnResponse, AtBoundary, OnTheWire, Relayed;
    var st := s.streams[u];
    assert StreamOk(s.sockets, u, st);
    if st.phase.Finished? {
      var k := st.phase.sock;
      OwnResponseLasts(st, s.sockets[k], Emptied(s, t).sockets[k],
                       st.phase.base, st.phase.end, st.phase.head, st.phase.c, st.phase.nth);
    }
  }

  lemma EmptiesPool(s: State, t: nat)
    requires Inv(s) && t in s.streams && s.streams[t].phase.Arrived?
    ensures Inv(Emptied(s, t))
  {
    hide OwnResponse, HeldOk, WellFormed;
    var s' := Emptied(s, t);
    forall u | u in s.streams && u != t ensures StreamOk(s'.sockets, u, s.streams[u]) { EmptiedStream(s, t, u); }
    StreamsPut(s, s', t, s'.streams[t]);
    forall j | j in s'.sockets ensures OwnerOk(s', j) { assert OwnerOk(s, j); }
    assert RequestOk(s.streams[t]);
    ExchangesKept(s, t, s'.streams[t]);
  }

  lemma Connects(s: State, t: nat, k: nat)
    requires Inv(s) && t in s.streams && s.streams[t].phase.Connecting? && k !in s.sockets
    ensures Inv(Put(s, t, s.streams[t].(phase := Holding(k)), k, Socket(Stream(t), [], [], [], [], 0)))
  {
    hide OwnResponse, WellFormed, OnTheWire, Relayed, PoolOk, SameExchange;
    var sk := Socket(Stream(t), [], [], [], [], 0);
    var s' := Put(s, t, s.streams[t].(phase := Holding(k)), k, sk);
    PoolKept(s, s');
    forall u | u in s.streams && u != t ensures StreamOk(s'.sockets, u, s.streams[u]) {
      assert StreamOk(s.sockets, u, s.streams[u]);
    }
    assert AtBoundary(sk);
    StreamsPut(s, s', t, s'.streams[t]);
    forall j | j in s'.sockets ensures OwnerOk(s', j) { assert j != k ==> OwnerOk(s, j); }
    assert RequestOk(s.streams[t]);
    ExchangesKept(s, t, s'.streams[t]);
  }

  // ── The exchange ──

  /** The first part of `HeadFor` is a whole request head whose body is all to come. */
  lemma HeadOpensRequest(req: ConnectRequest)
    requires WellFormed(req) && PoolableRequest(RequestShape(req))
    ensures OpenRequest(HeadFor(req, true), ForwardedLength(RequestShape(req)))
  {
    var head, n := HeadFor(req, true), ForwardedLength(RequestShape(req));
    RequestRoundTrip(req, true, []);
    assert head + [] == head;
    assert BodyFraming(SentFields(req, true)) == Fixed(n);
  }

  lemma WritesHead(st: StreamState, k: nat, sk: Socket)
    requires AtBoundary(sk) && RequestOk(st) && st.phase == Holding(k) && PoolableRequest(RequestShape(st.req))
    ensures var left := ForwardedLength(RequestShape(st.req));
            HeldOk(st.(phase := Sending(k, |sk.sent|, left)), sk.(received := sk.received + HeadFor(st.req, true)))
  {
    HeadOpensRequest(st.req);
    assert RequestSoFar(st) == HeadFor(st.req, true);
  }

  lemma SendsBody(st: StreamState, k: nat, sk: Socket, base: nat, left: nat, chunk: Bytes)
    requires OnTheWire(st, sk, base, left) && sk.readPos == base && |chunk| <= left
    ensures HeldOk(st.(phase := Sending(k, base, left - |chunk|), forwarded := st.forwarded + chunk),
                   sk.(received := sk.received + chunk))
  {
    hide HeadFor, ParseHead, Quiet, Within, BodyFraming;
    var m := RequestSoFar(st);
    assert HeadFor(st.req, true) + (st.forwarded + chunk) == m + chunk;
    OpenRequestGrows(m, left, chunk);
    assert sk.received + chunk == Flat(sk.msgs) + (m + chunk);
  }

  lemma AwaitsAnswer(st: StreamState, k: nat, sk: Socket, base: nat)
    requires OnTheWire(st, sk, base, 0) && sk.readPos == base
    ensures HeldOk(st.(phase := Reading(k, base)), sk)
  {
    assert sk.sent[base..base] == [];
  }

  lemma ReadsOn(st: StreamState, sk: Socket, base: nat, next: nat)
    requires OnTheWire(st, sk, base, 0) && sk.readPos <= next <= |sk.sent|
    ensures OnTheWire(st, sk.(readPos := next), base, 0)
  {
  }

  /** The head is complete: what was read past it is body, and no more than the declared length. */
  lemma HeadComplete(st: StreamState, sk: Socket, base: nat, next: nat, head: Head, c: nat)
    requires Asking(sk, base, RequestSoFar(st), 0) && sk.readPos < next <= |sk.sent|
    requires ParseHead(Response, sk.sent[base..next]) == Complete(head, c) && DeclaredLength(head).Some?
    requires st.got == Some(Delivery(FrameOf(head), sk.sent[base + c..next]))
    ensures Relayed(st, sk.(readPos := next), base, head, c, Monus(DeclaredLength(head).value, next - base - c))
  {
    hide FrameOf, DeclaredLength, ParseHead, OpenRequest, Messages, Flat, RequestSoFar;
    assert !Unanswered(sk.sent, sk.starts, |sk.msgs|, base) by { hide Quiet; }
    var w := sk.sent[base..];
    assert w[..next - base] == sk.sent[base..next];
    WithinHead(w, next - base, head, c);
  }

  lemma RelaysBody(st: StreamState, sk: Socket, base: nat, head: Head, c: nat, left: nat, n: nat, st': StreamState)
    requires Relayed(st, sk, base, head, c, left) && n <= left && sk.readPos + n <= |sk.sent|
    requires st'.got == Some(st.got.value.(body := st.got.value.body + sk.sent[sk.readPos..sk.readPos + n]))
    ensures Relayed(st', sk.(readPos := sk.readPos + n), base, head, c, left - n)
  {
    hide FrameOf, ParseHead, DeclaredLength, Within;
    Joins(sk.sent, base + c, sk.readPos, sk.readPos + n);
  }

  lemma Joins(x: Bytes, i: nat, j: nat, k: nat)
    requires i <= j <= k <= |x|
    ensures x[i..j] + x[j..k] == x[i..k]
  {
  }

  lemma Completes(st: StreamState, st': StreamState, sk: Socket, base: nat, next: nat, head: Head, c: nat, left: nat)
    requires OnTheWire(st, sk, base, 0) && base <= sk.readPos < next <= |sk.sent| && base + c <= next
    requires ParseHead(Response, sk.sent[base..next]) == Complete(head, c) && DeclaredLength(head).Some?
    requires st'.req == st.req && st'.forwarded == st.forwarded
    requires st'.got == Some(Delivery(FrameOf(head), sk.sent[base + c..next]))
    requires left == Monus(DeclaredLength(head).value, next - base - c)
    ensures OnTheWire(st', sk.(readPos := next), base, 0)
    ensures Relayed(st', sk.(readPos := next), base, head, c, left)
  {
    hide ParseHead, FrameOf, DeclaredLength;
    ReadsOn(st', sk, base, next);
    HeadComplete(st', sk, base, next, head, c);
  }

  /** One read of a stream that waits for its answer, whatever it brings. */
  lemma ReadsHead(s: State, t: nat, k: nat, base: nat, next: nat, st: StreamState, sk: Socket)
    requires Inv(s) && t in s.streams && st == s.streams[t] && st.phase == Reading(k, base)
    requires k in s.sockets && sk == s.sockets[k] && base <= sk.readPos < next <= |sk.sent|
    ensures Inv(AfterReadAnswer(s, t, st, k, base, sk, next))
  {
    hide Inv, ParseHead, FrameOf, DeclaredLength, OnTheWire, Relayed, WellFormed, RequestShape;
    var sk' := sk.(readPos := next);
    Holder(s, t, k);
    ReadsOn(st, sk, base, next);
    match AfterReadAnswer(s, t, st, k, base, sk, next).streams[t].phase
    case Ended => GivesUp(s, t, k, st.(phase := Ended), sk');
    case Reading(_, _) => GoesOn(s, t, k, st, sk');
    case Unpooled(_) => GoesOn(s, t, k, AfterReadAnswer(s, t, st, k, base, sk, next).streams[t], sk');
    case Relaying(_, _, head, c, left) =>
      var st' := AfterReadAnswer(s, t, st, k, base, sk, next).streams[t];
      Completes(st, st', sk, base, next, head, c, left);
      GoesOn(s, t, k, st', sk');
  }

  // ── Release ──

  /** When all of the declared body has been relayed, there is no more on the socket. */
  lemma RelayedAll(st: StreamState, sk: Socket, base: nat, head: Head, c: nat)
    requires Relayed(st, sk, base, head, c, 0)
    ensures sk.readPos == |sk.sent| && Answer(sk.sent[base..], head, c)
  {
    hide FrameOf, ParseHead, DeclaredLength;
  }

  lemma AnsweredIsQuiet(sent: Bytes, starts: seq<nat>, base: nat, head: Head, c: nat)
    requires starts != [] && starts[|starts| - 1] == base <= |sent| && Answer(sent[base..], head, c)
    ensures Quiet(sent, starts)
  {
    hide Answer;
    assert LastAnswer(sent, starts) == sent[base..];
  }

  /** The socket is then at a message boundary, and the stream was given its own response. */
  lemma ReleasedBoundary(st: StreamState, sk: Socket, base: nat, head: Head, c: nat, sk': Socket)
    requires OnTheWire(st, sk, base, 0) && Relayed(st, sk, base, head, c, 0)
    requires sk'.msgs == sk.msgs + [RequestSoFar(st)]
    requires sk'.received == sk.received && sk'.sent == sk.sent && sk'.starts == sk.starts && sk'.readPos == sk.readPos
    ensures AtBoundary(sk') && OwnResponse(st, sk', base, sk.readPos, head, c, |sk.msgs|)
  {
    hide FrameOf, ParseHead, DeclaredLength, OpenRequest, HeadFor, Within;
    RelayedAll(st, sk, base, head, c);
    FlatSnoc(sk.msgs, RequestSoFar(st));
    AnsweredIsQuiet(sk.sent, sk.starts, base, head, c);
    assert sk.sent[base..sk.readPos] == sk.sent[base..];
  }

  /** The new exchange is the last one on its socket. */
  lemma ExchangesGrow(s: State, t: nat, st: StreamState, k: nat, sk: Socket, p: Phase)
    requires Inv(s) && t in s.streams && st == s.streams[t] && k in s.sockets && sk == s.sockets[k]
    requires p.Finished? && p.sock == k && p.nth == |sk.msgs|
    ensures forall s': State | s'.streams == s.streams[t := st.(phase := p)] :: ExchangesOk(s')
  {
    hide PoolOk, OwnersOk, RequestsOk, HeldOk, Given;
    forall u | u in s.streams && u != t ensures !SameExchange(s.streams[u].phase, p) {
      assert StreamOk(s.sockets, u, s.streams[u]);
    }
  }

  lemma PushedPool(s: State, s': State, k: nat)
    requires PoolOk(s) && k in s.sockets && s.sockets[k].owner != InPool && |s.idle| < DEFAULT_MAX_IDLE
    requires s'.idle == s.idle + [Idle(k, s.now)] && s'.now == s.now && IdleOk(s', k)
    requires forall j | j in s.sockets && j != k :: j in s'.sockets && s'.sockets[j] == s.sockets[j]
    ensures PoolOk(s')
  {
    hide AtBoundary;
    assert forall i | 0 <= i < |s.idle| :: IdleOk(s, s.idle[i].stream);
    forall i | 0 <= i < |s'.idle| ensures IdleOk(s', s'.idle[i].stream) {
      if i < |s.idle| { assert IdleOk(s, s.idle[i].stream); }
    }
  }

  lemma PushedOwners(s: State, s': State, t: nat, k: nat)
    requires OwnersOk(s) && t in s.streams && HeldBy(s.streams[t].phase) == Some(k)
    requires k in s'.sockets && (s'.sockets[k].owner == Nobody || (s'.sockets[k].owner == InPool && InIdle(s'.idle, k)))
    requires s.idle <= s'.idle && t in s'.streams
    requires s'.streams.Keys == s.streams.Keys && s'.sockets.Keys == s.sockets.Keys
    requires forall u | u in s.streams && u != t :: s'.streams[u] == s.streams[u]
    requires forall j | j in s.sockets && j != k :: s'.sockets[j] == s.sockets[j]
    ensures OwnersOk(s')
  {
    forall j | j in s'.sockets ensures OwnerOk(s', j) {
      assert OwnerOk(s, j);
      if j != k && InIdle(s.idle, j) {
        var i :| 0 <= i < |s.idle| && s.idle[i].stream == j;
        assert s'.idle[i] == s.idle[i];
      }
    }
  }

  lemma ReleasedStreams(s: State, t: nat, k: nat, st: StreamState, sk: Socket, base: nat, head: Head, c: nat)
    requires Inv(s) && t in s.streams && st == s.streams[t] && st.phase == Relaying(k, base, head, c, 0)
    requires k in s.sockets && sk == s.sockets[k]
    ensures var s' := AfterRelease(s, t, st, k, sk);
            StreamsOk(s') && ExchangesOk(s') && AtBoundary(s'.sockets[k])
  {
    hide OwnResponse, AtBoundary, OnTheWire, Relayed, WellFormed, Ordered, ExchangesOk, Inv;
    var s' := AfterRelease(s, t, st, k, sk);
    var sk', st' := s'.sockets[k], s'.streams[t];
    Holder(s, t, k);
    ReleasedBoundary(st, sk, base, head, c, sk');
    OwnResponseOf(st, st', sk', base, sk.readPos, head, c, |sk.msgs|);
    OthersKept(s, t, k, sk') by { assert Evolves(sk, sk'); }
    StreamsPut(s, s', t, st');
    ExchangesGrow(s, t, st, k, sk, st'.phase);
  }

  lemma ReleasedPool(s: State, t: nat, k: nat, st: StreamState, sk: Socket)
    requires PoolOk(s) && st.phase.Relaying? && k in s.sockets && sk == s.sockets[k] && sk.owner != InPool
    requires AtBoundary(AfterRelease(s, t, st, k, sk).sockets[k])
    ensures PoolOk(AfterRelease(s, t, st, k, sk))
  {
    hide AtBoundary, Ordered, PoolOk, HeadFor;
    var s' := AfterRelease(s, t, st, k, sk);
    if |s.idle| < DEFAULT_MAX_IDLE { PushedPool(s, s', k); } else { PoolKept(s, s'); }
  }

  lemma ReleasedOwners(s: State, t: nat, k: nat, st: StreamState, sk: Socket)
    requires OwnersOk(s) && st.phase.Relaying? && k in s.sockets && sk == s.sockets[k]
    requires t in s.streams && HeldBy(s.streams[t].phase) == Some(k)
    ensures OwnersOk(AfterRelease(s, t, st, k, sk))
  {
    hide OwnersOk, HeadFor;
    var s' := AfterRelease(s, t, st, k, sk);
    if |s.idle| < DEFAULT_MAX_IDLE { assert s'.idle[|s.idle|].stream == k; }
    PushedOwners(s, s', t, k);
  }

  /** What releasing leaves: the exchange closed, and the socket in the pool, or nowhere if the pool is full. */
  lemma Releases(s: State, t: nat, k: nat, st: StreamState, sk: Socket, base: nat, head: Head, c: nat)
    requires Inv(s) && t in s.streams && st == s.streams[t] && st.phase == Relaying(k, base, head, c, 0)
    requires k in s.sockets && sk == s.sockets[k]
    ensures Inv(AfterRelease(s, t, st, k, sk))
  {
    hide AtBoundary, WellFormed, StreamsOk, ExchangesOk, PoolOk, OwnersOk, HeldOk, HeadFor;
    Holder(s, t, k);
    ReleasedStreams(s, t, k, st, sk, base, head, c);
    ReleasedPool(s, t, k, st, sk);
    ReleasedOwners(s, t, k, st, sk);
  }

  lemma OwnResponseOf(st: StreamState, st': StreamState, sk: Socket, base: nat, end: nat, head: Head, c: nat, nth: nat)
    requires OwnResponse(st, sk, base, end, head, c, nth)
    requires st'.req == st.req && st'.forwarded == st.forwarded && st'.got == st.got
    ensures OwnResponse(st', sk, base, end, head, c, nth)
  {
    hide Answer, HeadFor, FrameOf, Message;
  }

  // ── Every step ──

  lemma RelayStep(s: State, t: nat, k: nat, st: StreamState, sk: Socket, base: nat, head: Head, c: nat, left: nat,
                  n: nat, st': StreamState)
    requires Inv(s) && t in s.streams && st == s.streams[t] && st.phase == Relaying(k, base, head, c, left)
    requires k in s.sockets && sk == s.sockets[k] && n <= left && sk.readPos + n <= |sk.sent| && st.got.Some?
    requires st'.got == Some(st.got.value.(body := st.got.value.body + sk.sent[sk.readPos..sk.readPos + n]))
    requires st'.req == st.req && st'.forwarded == st.forwarded && st'.phase == Relaying(k, base, head, c, left - n)
    ensures Inv(Put(s, t, st', k, sk.(readPos := sk.readPos + n)))
  {
    hide Inv, Relayed, WellFormed, HeadFor, Asking;
    Holder(s, t, k);
    RelaysBody(st, sk, base, head, c, left, n, st');
    ReadsOn(st', sk, base, sk.readPos + n);
    GoesOn(s, t, k, st', sk.(readPos := sk.readPos + n));
  }

  lemma WriteStep(s: State, t: nat, k: nat, st: StreamState, sk: Socket)
    requires Inv(s) && t in s.streams && st == s.streams[t] && st.phase == Holding(k)
    requires k in s.sockets && sk == s.sockets[k]
    ensures Inv(AfterWriteHead(s, t, st, k, sk))
  {
    hide Inv, OnTheWire, WellFormed, HeadFor, AtBoundary, RequestShape;
    var s' := AfterWriteHead(s, t, st, k, sk);
    Holder(s, t, k);
    if PoolableRequest(RequestShape(st.req)) { WritesHead(st, k, sk); }
    GoesOn(s, t, k, s'.streams[t], s'.sockets[k]);
  }

  lemma SendStep(s: State, t: nat, k: nat, st: StreamState, sk: Socket, base: nat, left: nat, chunk: Bytes)
    requires Inv(s) && t in s.streams && st == s.streams[t] && st.phase == Sending(k, base, left)
    requires k in s.sockets && sk == s.sockets[k] && |chunk| <= left
    ensures Inv(Put(s, t, st.(phase := Sending(k, base, left - |chunk|), forwarded := st.forwarded + chunk),
                    k, sk.(received := sk.received + chunk)))
    ensures left == 0 ==> Inv(Put(s, t, st.(phase := Reading(k, base)), k, sk))
  {
    hide Inv, OnTheWire, WellFormed, HeadFor;
    Holder(s, t, k);
    SendsBody(st, k, sk, base, left, chunk);
    GoesOn(s, t, k, st.(phase := Sending(k, base, left - |chunk|), forwarded := st.forwarded + chunk),
           sk.(received := sk.received + chunk));
    if left == 0 {
      AwaitsAnswer(st, k, sk, base);
      GoesOn(s, t, k, st.(phase := Reading(k, base)), sk);
    }
  }

  lemma HeldStepKeeps(s: State, step: Step, st: StreamState, k: nat, sk: Socket)
    requires Inv(s) && !step.Arrive? && !step.Tick? && !step.OriginBegin? && !step.OriginSend?
    requires step.t in s.streams && st == s.streams[step.t] && HeldBy(st.phase) == Some(k)
    requires k in s.sockets && sk == s.sockets[k] && HeldNext(s, step, st, k, sk).Some?
    ensures Inv(HeldNext(s, step, st, k, sk).value)
  {
    hide Inv, HeldOk, WellFormed, AfterWriteHead, AfterReadAnswer, AfterRelease;
    var t := step.t;
    var s' := HeldNext(s, step, st, k, sk).value;
    match (step, st.phase)
    case (WriteHead(_), Holding(_)) => WriteStep(s, t, k, st, sk);
    case (SendBody(_, chunk), Sending(_, base, left)) => SendStep(s, t, k, st, sk, base, left, chunk);
    case (AwaitAnswer(_), Sending(_, base, left)) => SendStep(s, t, k, st, sk, base, left, []);
    case (ReadAnswer(_, n), Reading(_, base)) => ReadsHead(s, t, k, base, sk.readPos + n, st, sk);
    case (RelayBody(_, n), Relaying(_, base, head, c, left)) =>
      RelayStep(s, t, k, st, sk, base, head, c, left, n, s'.streams[t]);
    case (Release(_), Relaying(_, base, head, c, left)) => Releases(s, t, k, st, sk, base, head, c);
    case (PumpUnpooled(_, _, _), Unpooled(_)) => UnpooledStep(s, t, k, st, s'.sockets[k]);
    case _ =>
  }

  lemma UnpooledStep(s: State, t: nat, k: nat, st: StreamState, sk: Socket)
    requires Inv(s) && t in s.streams && st == s.streams[t] && st.phase == Unpooled(k)
    requires k in s.sockets && Evolves(s.sockets[k], sk) && sk.owner == s.sockets[k].owner
    ensures Inv(Put(s, t, st, k, sk))
  {
    hide Inv, Evolves, WellFormed;
    Holder(s, t, k);
    GoesOn(s, t, k, st, sk);
  }

  lemma DropStep(s: State, t: nat, st: StreamState)
    requires Inv(s) && t in s.streams && st == s.streams[t] && AfterDrop(s, t, st).Some?
    ensures Inv(AfterDrop(s, t, st).value)
  {
    match HeldBy(st.phase)
    case Some(k) =>
      hide Inv, WellFormed;
      GivesUp(s, t, k, st.(phase := Ended), s.sockets[k]);
    case None => EndsUnheld(s, t, st);
  }

  lemma EndsUnheld(s: State, t: nat, st: StreamState)
    requires Inv(s) && t in s.streams && st == s.streams[t] && (st.phase.Arrived? || st.phase.Connecting?)
    ensures Inv(s.(streams := s.streams[t := st.(phase := Ended)]))
  {
    hide HeldOk, OwnResponse, WellFormed, AtBoundary;
    var s' := s.(streams := s.streams[t := st.(phase := Ended)]);
    PoolKept(s, s');
    StreamsPut(s, s', t, s'.streams[t]);
    forall j | j in s'.sockets ensures OwnerOk(s', j) { assert OwnerOk(s, j); }
    assert RequestOk(st);
    ExchangesKept(s, t, s'.streams[t]);
  }

  lemma Arrives(s: State, t: nat, req: ConnectRequest)
    requires Inv(s) && t !in s.streams && WellFormed(req)
    ensures Inv(s.(streams := s.streams[t := StreamState(req, Arrived, [], None)]))
  {
    hide HeldOk, OwnResponse, WellFormed, AtBoundary;
    var s' := s.(streams := s.streams[t := StreamState(req, Arrived, [], None)]);
    PoolKept(s, s');
    StreamsPut(s, s', t, s'.streams[t]);
    forall j | j in s'.sockets ensures OwnerOk(s', j) { assert OwnerOk(s, j); }
    ExchangesKept(s, t, s'.streams[t]);
  }

  lemma AcquireStep(s: State, t: nat, st: StreamState)
    requires Inv(s) && t in s.streams && st == s.streams[t] && st.phase.Arrived? && AfterAcquire(s, t, st).Some?
    ensures Inv(AfterAcquire(s, t, st).value)
  {
    hide Inv;
    if Acquired(s.idle, DEFAULT_IDLE_TTL, s.now).stream.Some? {
      TakesFromPool(s, t, s.idle[|s.idle| - 1].stream);
    } else {
      EmptiesPool(s, t);
    }
  }

  lemma StreamStepKeeps(s: State, step: Step, st: StreamState)
    requires Inv(s) && !step.Arrive? && !step.Tick? && !step.OriginBegin? && !step.OriginSend?
    requires step.t in s.streams && st == s.streams[step.t] && StreamNext(s, step, st).Some?
    ensures Inv(StreamNext(s, step, st).value)
  {
    hide Inv, AfterAcquire, AfterDrop, HeldNext;
    if step.Drop? {
      DropStep(s, step.t, st);
    } else if HeldBy(st.phase).Some? {
      HeldStepKeeps(s, step, st, HeldBy(st.phase).value, s.sockets[HeldBy(st.phase).value]);
    } else if st.phase.Arrived? {
      AcquireStep(s, step.t, st);
    } else {
      Connects(s, step.t, step.k);
    }
  }

  lemma TimePasses(s: State, d: nat)
    requires Inv(s)
    ensures Inv(s.(now := s.now + d))
  {
    hide HeldOk, OwnResponse, WellFormed, AtBoundary;
    var s' := s.(now := s.now + d);
    forall i | 0 <= i < |s'.idle| ensures IdleOk(s', s'.idle[i].stream) { assert IdleOk(s, s.idle[i].stream); }
    forall u | u in s'.streams ensures StreamOk(s'.sockets, u, s'.streams[u]) { }
    forall j | j in s'.sockets ensures OwnerOk(s', j) { assert OwnerOk(s, j); }
  }

  /** Every step keeps the invariant. */
  lemma StepKeeps(s: State, step: Step)
    requires Inv(s) && Next(s, step).Some?
    ensures Inv(Next(s, step).value)
  {
    hide Inv, StreamNext, WellFormed, MaySend, Asked;
    match step
    case Arrive(t, req) => Arrives(s, t, req);
    case Tick(d) => TimePasses(s, d);
    case OriginBegin(k) => OriginBegins(s, k);
    case OriginSend(k, chunk) => OriginSends(s, k, chunk);
    case _ => StreamStepKeeps(s, step, s.streams[step.t]);
  }
}
