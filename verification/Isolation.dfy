/** What every step of `SharedPool` keeps, and what follows for every run: an idle socket is at a message
    boundary, no socket is in two places, and a stream that finishes on the pooled path was given its own
    response, all of it and nothing else. */
module Isolation {
  import opened Options
  import opened Octets
  import opened Http1
  import opened Shapes
  import opened RequestHead
  import opened Streams
  import opened HeadReader
  import opened Pumps
  import opened Pool
  import opened Proxy
  import opened Origin
  import opened SharedPool

  // ── One socket ──

  /** The answer under way, or the last one. */
  function LastAnswer(sent: Bytes, starts: seq<nat>): Bytes
    requires starts != [] && starts[|starts| - 1] <= |sent|
  {
    sent[starts[|starts| - 1]..]
  }

  /** The origin has nothing more to send until it is asked. */
  ghost predicate Quiet(sent: Bytes, starts: seq<nat>) {
    if starts == [] then sent == []
    else
      && starts[|starts| - 1] <= |sent|
      && exists head, c :: Answer(LastAnswer(sent, starts), head, c)
  }

  /** A message boundary: complete requests, each with its complete answer, all of it read. */
  ghost predicate AtBoundary(sk: Socket) {
    && sk.received == Flat(sk.msgs) && Messages(sk.msgs)
    && |sk.starts| == |sk.msgs| && sk.readPos == |sk.sent| && Quiet(sk.sent, sk.starts)
  }

  /** One request, of which all but `left` octets are written, after complete ones; at most one answer to it
      has begun, at `base`. */
  ghost predicate Asking(sk: Socket, base: nat, m: Bytes, left: nat) {
    && sk.received == Flat(sk.msgs) + m && Messages(sk.msgs) && OpenRequest(m, left)
    && base <= sk.readPos <= |sk.sent|
    && (Unanswered(sk.sent, sk.starts, |sk.msgs|, base) || Answering(sk.sent, sk.starts, |sk.msgs|, base))
  }

  /** Of `n + 1` requests the last one has no answer yet. */
  ghost predicate Unanswered(sent: Bytes, starts: seq<nat>, n: nat, base: nat) {
    |starts| == n && |sent| == base && Quiet(sent, starts)
  }

  /** The answer to the last one began at `base`. */
  ghost predicate Answering(sent: Bytes, starts: seq<nat>, n: nat, base: nat) {
    |starts| == n + 1 && starts[n] == base <= |sent| && Within(sent[base..])
  }

  /** At a boundary, and while the answer to the last request is complete, the origin cannot send. */
  lemma QuietCannotSend(sk: Socket, chunk: Bytes)
    requires Quiet(sk.sent, sk.starts)
    ensures !MaySend(sk, chunk)
  {
    hide Within, ParseHead, DeclaredLength;
    if sk.starts != [] && chunk != [] {
      var head, c :| Answer(LastAnswer(sk.sent, sk.starts), head, c);
      AnswerIsFinal(LastAnswer(sk.sent, sk.starts), head, c, chunk);
    }
  }

  lemma BoundaryIsStill(sk: Socket)
    requires AtBoundary(sk)
    ensures !Asked(sk.received, |sk.starts|)
    ensures forall chunk :: !MaySend(sk, chunk)
  {
    assert sk.received == Flat(sk.msgs) + [];
    HeadsAfter(sk.msgs, [], sk.received);
    assert Heads([]) == Some(0);
    forall chunk ensures !MaySend(sk, chunk) { QuietCannotSend(sk, chunk); }
  }

  /** The origin is asked for an answer to the request under way, if it has not begun one, and for no other. */
  lemma AskedOnceOnly(sk: Socket, base: nat, m: Bytes, left: nat)
    requires Asking(sk, base, m, left) && Asked(sk.received, |sk.starts|)
    ensures Unanswered(sk.sent, sk.starts, |sk.msgs|, base)
  {
    HeadsAfter(sk.msgs, m, sk.received);
    HeadsOnce(m, left);
  }

  lemma AskingBegins(sk: Socket, base: nat, m: Bytes, left: nat)
    requires Asking(sk, base, m, left) && Asked(sk.received, |sk.starts|)
    ensures Asking(sk.(starts := sk.starts + [|sk.sent|]), base, m, left)
  {
    hide OpenRequest, Flat, BodyFraming;
    AskedOnceOnly(sk, base, m, left);
    assert sk.sent[base..] == [];
    assert Within([]);
    assert Answering(sk.sent, sk.starts + [|sk.sent|], |sk.msgs|, base);
  }

  lemma AskingSends(sk: Socket, base: nat, m: Bytes, left: nat, chunk: Bytes)
    requires Asking(sk, base, m, left) && MaySend(sk, chunk)
    ensures Answering(sk.sent, sk.starts, |sk.msgs|, base)
    ensures Asking(sk.(sent := sk.sent + chunk), base, m, left)
  {
    hide ParseHead, OpenRequest, Flat, Within, Quiet;
    if Unanswered(sk.sent, sk.starts, |sk.msgs|, base) {
      QuietCannotSend(sk, chunk);
    }
    assert (sk.sent + chunk)[base..] == sk.sent[base..] + chunk;
  }

  // ── One stream and its socket ──

  function RequestSoFar(st: StreamState): Bytes { HeadFor(st.req, true) + st.forwarded }

  /** The request of `st` is on the wire but for `left` octets. */
  ghost predicate OnTheWire(st: StreamState, sk: Socket, base: nat, left: nat) {
    Asking(sk, base, RequestSoFar(st), left)
  }

  /** The stream has the head of its answer, and all body octets that were read. */
  ghost predicate Relayed(st: StreamState, sk: Socket, base: nat, head: Head, c: nat, left: nat) {
    && Answering(sk.sent, sk.starts, |sk.msgs|, base) && ParseHead(Response, sk.sent[base..]) == Complete(head, c)
    && DeclaredLength(head).Some? && base + c <= sk.readPos <= |sk.sent|
    && sk.readPos + left == base + c + DeclaredLength(head).value
    && st.got == Some(Delivery(FrameOf(head), sk.sent[base + c..sk.readPos]))
  }

  ghost predicate HeldOk(st: StreamState, sk: Socket) {
    match st.phase
    case Holding(_) => AtBoundary(sk)
    case Sending(_, base, left) => OnTheWire(st, sk, base, left) && sk.readPos == base
    case Reading(_, base) => OnTheWire(st, sk, base, 0) && ParseHead(Response, sk.sent[base..sk.readPos]).Partial?
    case Relaying(_, base, head, c, left) => OnTheWire(st, sk, base, 0) && Relayed(st, sk, base, head, c, left)
    case _ => true
  }

  /** The stream was given the answer that stands between `base` and `end`: its head as a frame, and its body. */
  ghost predicate Given(st: StreamState, sk: Socket, base: nat, end: nat, head: Head, c: nat) {
    && base + c <= end <= |sk.sent| && Answer(sk.sent[base..end], head, c)
    && st.got == Some(Delivery(FrameOf(head), sk.sent[base + c..end]))
  }

  /** The `nth` request on the socket is the stream's, and what the stream was given is the `nth` answer:
      complete, and followed at once by the next one. */
  ghost predicate OwnResponse(st: StreamState, sk: Socket, base: nat, end: nat, head: Head, c: nat, nth: nat) {
    && nth < |sk.msgs| && nth < |sk.starts| && sk.starts[nth] == base
    && sk.msgs[nth] == RequestSoFar(st) && Message(sk.msgs[nth])
    && Given(st, sk, base, end, head, c)
    && (nth + 1 < |sk.starts| ==> sk.starts[nth + 1] == end)
    && (nth + 1 == |sk.starts| ==> |sk.sent| == end)
  }

  // ── All of them ──

  ghost predicate IdleOk(s: State, k: nat) {
    k in s.sockets && s.sockets[k].owner == InPool && AtBoundary(s.sockets[k])
  }

  ghost predicate PoolOk(s: State) {
    && Ordered(s.idle, s.now) && |s.idle| <= DEFAULT_MAX_IDLE
    && (forall i :: 0 <= i < |s.idle| ==> IdleOk(s, s.idle[i].stream))
    && (forall i, j :: 0 <= i < j < |s.idle| ==> s.idle[i].stream != s.idle[j].stream)
  }

  ghost predicate StreamOk(sockets: map<nat, Socket>, t: nat, st: StreamState) {
    match HeldBy(st.phase)
    case Some(k) => k in sockets && sockets[k].owner == Stream(t) && HeldOk(st, sockets[k])
    case None =>
      st.phase.Finished? ==>
        && st.phase.sock in sockets
        && OwnResponse(st, sockets[st.phase.sock], st.phase.base, st.phase.end, st.phase.head, st.phase.c, st.phase.nth)
  }

  ghost predicate InIdle(idle: seq<Idle<nat>>, k: nat) { exists i :: 0 <= i < |idle| && idle[i].stream == k }

  ghost predicate OwnerOk(s: State, k: nat)
    requires k in s.sockets
  {
    match s.sockets[k].owner
    case InPool => InIdle(s.idle, k)
    case Stream(t) => t in s.streams && HeldBy(s.streams[t].phase) == Some(k)
    case Nobody => true
  }

  predicate SameExchange(p: Phase, q: Phase) {
    p.Finished? && q.Finished? && p.sock == q.sock && p.nth == q.nth
  }

  ghost predicate Inv(s: State) {
    PoolOk(s) && StreamsOk(s) && OwnersOk(s) && ExchangesOk(s) && RequestsOk(s)
  }

  ghost predicate RequestsOk(s: State) { forall t | t in s.streams :: RequestOk(s.streams[t]) }

  ghost predicate RequestOk(st: StreamState) {
    && WellFormed(st.req)
    && (st.phase.Arrived? || st.phase.Connecting? || st.phase.Holding? ==> st.forwarded == [])
    && (st.phase.Sending? || st.phase.Reading? || st.phase.Relaying? || st.phase.Finished? ==>
          PoolableRequest(RequestShape(st.req)))
  }

  ghost predicate StreamsOk(s: State) { forall t | t in s.streams :: StreamOk(s.sockets, t, s.streams[t]) }

  ghost predicate OwnersOk(s: State) { forall k | k in s.sockets :: OwnerOk(s, k) }

  ghost predicate ExchangesOk(s: State) {
    forall t, u | t in s.streams && u in s.streams && t != u :: !SameExchange(s.streams[t].phase, s.streams[u].phase)
  }

  // ── Steps of the origin ──

  /** How a socket changes: the origin begins an answer, or sends, or else the proxy acts on it. */
  ghost predicate Evolves(a: Socket, b: Socket) {
    || b == a.(starts := a.starts + [|a.sent|])
    || (exists chunk :: MaySend(a, chunk) && b == a.(sent := a.sent + chunk))
    || (a.msgs <= b.msgs && a.sent == b.sent && a.starts == b.starts)
  }

  lemma Kept(x: Bytes, y: Bytes, b: Bytes, i: nat, j: nat)
    requires i <= j <= |x| && b == x + y
    ensures b[i..j] == x[i..j]
  {
  }

  /** Once the last answer is complete nothing more may be sent. */
  lemma CompleteAnswerIsQuiet(sk: Socket, chunk: Bytes, head: Head, c: nat)
    requires sk.starts != [] && sk.starts[|sk.starts| - 1] <= |sk.sent|
    requires Answer(sk.sent[sk.starts[|sk.starts| - 1]..|sk.sent|], head, c)
    ensures !MaySend(sk, chunk)
  {
    assert LastAnswer(sk.sent, sk.starts) == sk.sent[sk.starts[|sk.starts| - 1]..|sk.sent|];
    QuietCannotSend(sk, chunk);
  }

  lemma GivenLasts(st: StreamState, a: Socket, b: Socket, chunk: Bytes, base: nat, end: nat, head: Head, c: nat)
    requires Given(st, a, base, end, head, c) && b.sent == a.sent + chunk
    ensures Given(st, b, base, end, head, c)
  {
    Kept(a.sent, chunk, b.sent, base, end);
    Kept(a.sent, chunk, b.sent, base + c, end);
  }

  /** The origin sends only in an answer that comes after the stream's own. */
  lemma OwnAnswerIsOver(st: StreamState, sk: Socket, chunk: Bytes, base: nat, end: nat, head: Head, c: nat, nth: nat)
    requires OwnResponse(st, sk, base, end, head, c, nth) && MaySend(sk, chunk)
    ensures nth + 1 < |sk.starts|
  {
    if nth + 1 == |sk.starts| {
      CompleteAnswerIsQuiet(sk, chunk, head, c);
    }
  }

  lemma OwnResponseThroughSend(st: StreamState, a: Socket, b: Socket, chunk: Bytes,
                               base: nat, end: nat, head: Head, c: nat, nth: nat)
    requires OwnResponse(st, a, base, end, head, c, nth) && nth + 1 < |a.starts|
    requires b.sent == a.sent + chunk && b.msgs == a.msgs && b.starts == a.starts
    ensures OwnResponse(st, b, base, end, head, c, nth)
  {
    GivenLasts(st, a, b, chunk, base, end, head, c);
  }

  lemma OwnResponseLasts(st: StreamState, a: Socket, b: Socket, base: nat, end: nat, head: Head, c: nat, nth: nat)
    requires OwnResponse(st, a, base, end, head, c, nth) && Evolves(a, b)
    ensures OwnResponse(st, b, base, end, head, c, nth)
  {
    if chunk :| MaySend(a, chunk) && b == a.(sent := a.sent + chunk) {
      OwnAnswerIsOver(st, a, chunk, base, end, head, c, nth);
      OwnResponseThroughSend(st, a, b, chunk, base, end, head, c, nth);
    }
  }

  lemma HeldThroughBegin(st: StreamState, a: Socket)
    requires HeldOk(st, a) && Asked(a.received, |a.starts|)
    ensures HeldOk(st, a.(starts := a.starts + [|a.sent|]))
  {
    match st.phase
    case Holding(_) => BoundaryIsStill(a);
    case Sending(_, base, left) => AskingBegins(a, base, RequestSoFar(st), left);
    case Reading(_, base) => AskingBegins(a, base, RequestSoFar(st), 0);
    case Relaying(_, base, _, _, _) => AskingBegins(a, base, RequestSoFar(st), 0);
    case _ =>
  }

  lemma ParseTail(x: Bytes, y: Bytes, b: Bytes, i: nat, head: Head, c: nat)
    requires i <= |x| && b == x + y && ParseHead(Response, x[i..]) == Complete(head, c)
    ensures ParseHead(Response, b[i..]) == Complete(head, c)
  {
    assert b[i..] == x[i..] + y;
    ParseStable(Response, x[i..], y);
  }

  lemma RelayedThroughSend(st: StreamState, a: Socket, b: Socket, chunk: Bytes,
                           base: nat, head: Head, c: nat, left: nat)
    requires Relayed(st, a, base, head, c, left) && Answering(b.sent, b.starts, |b.msgs|, base)
    requires b.sent == a.sent + chunk && b.readPos == a.readPos
    ensures Relayed(st, b, base, head, c, left)
  {
    hide FrameOf, Answer, Within, DeclaredLength, ParseHead;
    ParseTail(a.sent, chunk, b.sent, base, head, c);
    Kept(a.sent, chunk, b.sent, base + c, a.readPos);
  }

  lemma HeldThroughSend(st: StreamState, a: Socket, chunk: Bytes)
    requires HeldOk(st, a) && MaySend(a, chunk)
    ensures HeldOk(st, a.(sent := a.sent + chunk))
  {
    var b := a.(sent := a.sent + chunk);
    match st.phase
    case Holding(_) => BoundaryIsStill(a);
    case Sending(_, base, left) => AskingSends(a, base, RequestSoFar(st), left, chunk);
    case Reading(_, base) =>
      AskingSends(a, base, RequestSoFar(st), 0, chunk);
      Kept(a.sent, chunk, b.sent, base, a.readPos);
    case Relaying(_, base, head, c, left) =>
      AskingSends(a, base, RequestSoFar(st), 0, chunk);
      RelayedThroughSend(st, a, b, chunk, base, head, c, left);
    case _ =>
  }

  // ── Putting a step together ──

  /** A stream keeps its invariant when a socket that it does not hold evolves. */
  lemma OtherStream(s: State, u: nat, k: nat, sk: Socket)
    requires Inv(s) && u in s.streams && k in s.sockets
    requires HeldBy(s.streams[u].phase) != Some(k) && Evolves(s.sockets[k], sk)
    ensures StreamOk(s.sockets[k := sk], u, s.streams[u])
  {
    var st := s.streams[u];
    if st.phase.Finished? && st.phase.sock == k {
      OwnResponseLasts(st, s.sockets[k], sk, st.phase.base, st.phase.end, st.phase.head, st.phase.c, st.phase.nth);
    }
  }

  lemma HeldSocket(s: State, t: nat, k: nat)
    requires StreamsOk(s) && t in s.streams && HeldBy(s.streams[t].phase) == Some(k)
    ensures k in s.sockets && s.sockets[k].owner == Stream(t) && HeldOk(s.streams[t], s.sockets[k])
  {
    assert StreamOk(s.sockets, t, s.streams[t]);
  }

  /** Streams that do not hold the socket `k` do not notice what happens to it. */
  lemma OthersKept(s: State, t: nat, k: nat, sk: Socket)
    requires Inv(s) && k in s.sockets && Evolves(s.sockets[k], sk)
    requires s.sockets[k].owner == Stream(t) || s.sockets[k].owner == InPool
    ensures forall u | u in s.streams && u != t :: StreamOk(s.sockets[k := sk], u, s.streams[u])
  {
    forall u | u in s.streams && u != t ensures StreamOk(s.sockets[k := sk], u, s.streams[u]) {
      if HeldBy(s.streams[u].phase) == Some(k) { HeldSocket(s, u, k); }
      OtherStream(s, u, k, sk);
    }
  }

  lemma StreamsPut(s: State, s': State, t: nat, st: StreamState)
    requires s'.streams == s.streams[t := st] && StreamOk(s'.sockets, t, st)
    requires forall u | u in s.streams && u != t :: StreamOk(s'.sockets, u, s.streams[u])
    ensures StreamsOk(s')
  {
    forall u | u in s'.streams ensures StreamOk(s'.sockets, u, s'.streams[u]) {
    }
  }

  /** The pool does not notice what happens to sockets that are not in it. */
  lemma PoolKept(s: State, s': State)
    requires PoolOk(s) && s'.idle == s.idle && s'.now == s.now
    requires forall j | j in s.sockets && s.sockets[j].owner == InPool ::
               j in s'.sockets && s'.sockets[j] == s.sockets[j]
    ensures PoolOk(s')
  {
    forall i | 0 <= i < |s'.idle| ensures IdleOk(s', s'.idle[i].stream) { assert IdleOk(s, s.idle[i].stream); }
  }

  lemma OwnersKept(s: State, t: nat, st: StreamState, k: nat, sk: Socket)
    requires OwnersOk(s) && t in s.streams && HeldBy(s.streams[t].phase) == Some(k)
    requires sk.owner == Nobody || (sk.owner == Stream(t) && HeldBy(st.phase) == Some(k))
    ensures OwnersOk(Put(s, t, st, k, sk))
  {
    var s' := Put(s, t, st, k, sk);
    forall j | j in s'.sockets ensures OwnerOk(s', j) { assert j != k ==> OwnerOk(s, j); }
  }

  lemma ExchangesKept(s: State, t: nat, st: StreamState)
    requires ExchangesOk(s) && !st.phase.Finished?
    ensures forall s': State | s'.streams == s.streams[t := st] :: ExchangesOk(s')
  {
  }

  /** A step in which `t` keeps its socket, or loses it and is done. */
  lemma HolderMoves(s: State, t: nat, st: StreamState, k: nat, sk: Socket)
    requires Inv(s) && t in s.streams && HeldBy(s.streams[t].phase) == Some(k)
    requires k in s.sockets && Evolves(s.sockets[k], sk) && StreamOk(s.sockets[k := sk], t, st)
    requires RequestOk(st)
    requires (sk.owner == Nobody && st.phase == Ended) || (sk.owner == Stream(t) && HeldBy(st.phase) == Some(k))
    ensures Inv(Put(s, t, st, k, sk))
  {
    hide Evolves, HeldOk, WellFormed, Ordered;
    var s' := Put(s, t, st, k, sk);
    HeldSocket(s, t, k);
    PoolKept(s, s');
    OthersKept(s, t, k, sk);
    StreamsPut(s, s', t, st);
    OwnersKept(s, t, st, k, sk);
    ExchangesKept(s, t, st);
  }

  /** What is known of a stream that holds a socket. */
  lemma Holder(s: State, t: nat, k: nat)
    requires Inv(s) && t in s.streams && HeldBy(s.streams[t].phase) == Some(k)
    ensures k in s.sockets && s.sockets[k].owner == Stream(t)
    ensures HeldOk(s.streams[t], s.sockets[k]) && RequestOk(s.streams[t])
  {
    hide HeldOk, PoolOk, OwnersOk, ExchangesOk, RequestOk;
    HeldSocket(s, t, k);
  }

  /** A step of the exchange: the stream goes on with its socket. */
  lemma GoesOn(s: State, t: nat, k: nat, st: StreamState, sk: Socket)
    requires Inv(s) && t in s.streams && HeldBy(s.streams[t].phase) == Some(k) == HeldBy(st.phase)
    requires k in s.sockets && Evolves(s.sockets[k], sk) && sk.owner == s.sockets[k].owner
    requires RequestOk(st) && HeldOk(st, sk)
    ensures Inv(Put(s, t, st, k, sk))
  {
    hide Inv, HeldOk, Evolves, RequestOk;
    Holder(s, t, k);
    HolderMoves(s, t, st, k, sk);
  }

  /** The stream is done, and its socket is dropped. */
  lemma GivesUp(s: State, t: nat, k: nat, st: StreamState, sk: Socket)
    requires Inv(s) && t in s.streams && HeldBy(s.streams[t].phase) == Some(k)
    requires k in s.sockets && Evolves(s.sockets[k], Shut(sk))
    requires st.req == s.streams[t].req && st.phase == Ended
    ensures Inv(Put(s, t, st, k, Shut(sk)))
  {
    hide Inv, HeldOk, Evolves, WellFormed;
    Holder(s, t, k);
    HolderMoves(s, t, st, k, Shut(sk));
  }

  /** A step of the origin. */
  lemma OriginMoves(s: State, k: nat, sk: Socket)
    requires Inv(s) && k in s.sockets && sk.owner == s.sockets[k].owner && Evolves(s.sockets[k], sk)
    requires s.sockets[k].owner != InPool
    requires forall t | t in s.streams && HeldBy(s.streams[t].phase) == Some(k) :: HeldOk(s.streams[t], sk)
    ensures Inv(s.(sockets := s.sockets[k := sk]))
  {
    hide HeldOk, OwnResponse, RequestOk, PoolOk;
    var s' := s.(sockets := s.sockets[k := sk]);
    PoolKept(s, s');
    forall u | u in s'.streams ensures StreamOk(s'.sockets, u, s'.streams[u]) {
      assert StreamOk(s.sockets, u, s.streams[u]);
      if HeldBy(s.streams[u].phase) != Some(k) { OtherStream(s, u, k, sk); }
    }
    forall j | j in s'.sockets ensures OwnerOk(s', j) { assert OwnerOk(s, j); }
  }
}
