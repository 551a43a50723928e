/** The runs of `SharedPool` beside the methods of `Proxy`: the state machine's reads are the head reader's, what
    a finished stream was given is what both paths deliver, and any exchanges can be served over one socket. */
module PoolTraces {
  import opened Options
  import opened Octets
  import opened Http1
  import opened Shapes
  import opened RequestHead
  import opened Streams
  import opened HeadReader
  import opened Pumps
  import opened Pool
  import opened Proxy
  import opened Poolable
  import opened Origin
  import opened SharedPool
  import opened Isolation
  import opened IsolationRuns
  import Runs

  // ── Steps and methods ──

  /** A read of the state machine is a round of `read_http_response_head` followed by what `run_pooled` does
      with it: it waits on, fails and drops the socket, or passes on the head with what was read past it. */
  lemma ReadAnswerIsARound(s: State, t: nat, st: StreamState, k: nat, base: nat, sk: Socket,
                           schedule: Schedule, turn: nat)
    requires base <= sk.readPos < |sk.sent| && schedule(turn).Deliver? && st.phase == Reading(k, base)
    ensures var next := sk.readPos + ChunkLen(schedule(turn).want, HEAD_CHUNK, |sk.sent| - sk.readPos);
            var s' := AfterReadAnswer(s, t, st, k, base, sk, next);
            var st' := s'.streams[t];
            match ReadOnce(sk.sent, schedule, base, sk.readPos, turn)
            case More(n) => n == next && st' == st && s'.sockets[k] == sk.(readPos := next)
            case Stop(HeadRun(HeadError, _, _)) => st'.phase == Ended && s'.sockets[k].owner == Nobody
            case Stop(HeadRun(HeadOk(head, over), pos, _)) =>
              && pos == next && st'.got == Some(Delivery(FrameOf(head), over)) && s'.sockets[k] == sk.(readPos := next)
              && match DeclaredLength(head)
                 case Some(n) => st'.phase.Relaying? && st'.phase.left == Monus(n, |over|)
                 case None => st'.phase == Unpooled(k)
  {
    hide ParseHead, FrameOf, DeclaredLength;
  }

  /** Whether a stream gets a socket from the pool, in every reachable state: the newest idle one, if that was released
      at most 30 s ago; else it has to connect, and the pool is emptied and its sockets closed. */
  lemma AcquireDecides(steps: seq<Step>, t: nat)
    requires Run(Init(), steps).Some? && t in Run(Init(), steps).value.streams
    requires Run(Init(), steps).value.streams[t].phase == Arrived
    ensures var s := Run(Init(), steps).value;
            && Next(s, Acquire(t)).Some?
            && var s' := Next(s, Acquire(t)).value;
            && t in s'.streams
            && if s.idle != [] && s.now - s.idle[|s.idle| - 1].releasedAt <= 30 then
                 var k := s.idle[|s.idle| - 1].stream;
                 && s'.streams[t].phase == Holding(k) && s'.idle == s.idle[..|s.idle| - 1]
                 && k in s'.sockets && s'.sockets[k].owner == Stream(t)
               else
                 && s'.streams[t].phase == Connecting && s'.idle == []
                 && forall k | k in s'.sockets :: s'.sockets[k].owner != InPool
  {
    hide Run, HeldOk, OwnResponse, AtBoundary;
    InvHolds(steps);
    var s := Run(Init(), steps).value;
    if s.idle != [] { assert IdleOk(s, s.idle[|s.idle| - 1].stream); }
  }

  /** What a stream with a socket writes first: its head, which asks to keep the socket alive if and only if none of its
      header fields says otherwise. Then it goes on to send as many octets of body as it declares, or, if a field says
      otherwise, it leaves the pooled path. */
  lemma WriteHeadDecides(s: State, t: nat, k: nat)
    requires t in s.streams && s.streams[t].phase == Holding(k) && k in s.sockets
    ensures Next(s, WriteHead(t)).Some?
    ensures var req := s.streams[t].req;
            var pooled := forall f: Field | ("HttpHeader:" + f.name, f.value) in req.metadata :: Keeps(f);
            var s' := Next(s, WriteHead(t)).value;
            && t in s'.streams && k in s'.sockets && s'.idle == s.idle
            && s'.sockets[k] == s.sockets[k].(received := s.sockets[k].received + HeadFor(req, pooled))
            && s'.streams[t].phase ==
               if pooled then Sending(k, |s.sockets[k].sent|, ForwardedLength(RequestShape(req))) else Unpooled(k)
  {
    hide HeadFor, Keeps, ForwardedLength, ShapeOf, PoolableRequest, Next;
    RequestPoolable(s.streams[t].req);
    HeadWritten(s, t, k, PoolableRequest(RequestShape(s.streams[t].req)));
  }

  lemma HeadWritten(s: State, t: nat, k: nat, pooled: bool)
    requires t in s.streams && s.streams[t].phase == Holding(k) && k in s.sockets
    requires pooled == PoolableRequest(RequestShape(s.streams[t].req))
    ensures Next(s, WriteHead(t)).Some?
    ensures var s' := Next(s, WriteHead(t)).value;
            && t in s'.streams && k in s'.sockets && s'.idle == s.idle
            && s'.sockets[k] == s.sockets[k].(received := s.sockets[k].received + HeadFor(s.streams[t].req, pooled))
            && s'.streams[t].phase ==
               if pooled then Sending(k, |s.sockets[k].sent|, ForwardedLength(RequestShape(s.streams[t].req)))
               else Unpooled(k)
  {
    hide HeadFor, ForwardedLength, RequestShape, PoolableRequest;
  }

  /** What becomes of the socket of a stream that is done on the pooled path: it goes to the pool with the time of
      release, unless there are 16 idle ones, when it is closed. */
  lemma ReleaseDecides(s: State, t: nat, k: nat)
    requires t in s.streams && s.streams[t].phase.Relaying? && s.streams[t].phase.sock == k && k in s.sockets
    ensures Next(s, Release(t)).Some? <==> s.streams[t].phase.left == 0
    ensures Next(s, Release(t)).Some? ==>
              var s' := Next(s, Release(t)).value;
              && t in s'.streams && s'.streams[t].phase.Finished? && s'.streams[t].got == s.streams[t].got
              && k in s'.sockets
              && if |s.idle| < 16 then s'.idle == s.idle + [Idle(k, s.now)] && s'.sockets[k].owner == InPool
                 else s'.idle == s.idle && s'.sockets[k].owner == Nobody
  {
    hide HeadFor;
  }

  /** What a finished stream was given in whatever run is what the methods deliver on that stretch of the
      socket, the pooled path as well as the fallback, under every read schedule under which they succeed. */
  lemma FinishedAsDelivered(steps: seq<Step>, t: nat, schedule: Schedule)
    requires Run(Init(), steps).Some? && t in Run(Init(), steps).value.streams
    requires Run(Init(), steps).value.streams[t].phase.Finished?
    ensures var s := Run(Init(), steps).value;
            var Finished(k, base, end, _, _, _) := s.streams[t].phase;
            && k in s.sockets && base <= end <= |s.sockets[k].sent|
            && var answer := s.sockets[k].sent[base..end];
            && (PooledResponse(answer, schedule).Some? ==> PooledResponse(answer, schedule) == s.streams[t].got)
            && (BidiResponse(answer, schedule).Some? ==> BidiResponse(answer, schedule) == s.streams[t].got)
  {
    hide Run, OwnRequest, SameExchange;
    ResponseIsolation(steps, t);
    var s := Run(Init(), steps).value;
    var p := s.streams[t].phase;
    GivenAsDelivered(s.streams[t], s.sockets[p.sock], p.base, p.end, p.head, p.c, schedule);
  }

  lemma GivenAsDelivered(st: StreamState, sk: Socket, base: nat, end: nat, head: Head, c: nat, schedule: Schedule)
    requires Given(st, sk, base, end, head, c)
    ensures var answer := sk.sent[base..end];
            && (PooledResponse(answer, schedule).Some? ==> PooledResponse(answer, schedule) == st.got)
            && (BidiResponse(answer, schedule).Some? ==> BidiResponse(answer, schedule) == st.got)
  {
    hide ParseHead, FrameOf, ResponseShape, PooledResponse, BidiResponse;
    var answer := sk.sent[base..end];
    assert answer[0..] == answer;
    FastRefinesSlow(answer, head, c, schedule, schedule);
    assert answer[c..|answer|] == sk.sent[base + c..end];
  }

  // ── Any exchanges can be served ──

  lemma Go(steps: seq<Step>, s: State, step: Step) returns (steps': seq<Step>, s': State)
    requires Run(Init(), steps) == Some(s) && Next(s, step).Some?
    ensures Run(Init(), steps') == Some(s') == Next(s, step)
  {
    hide Next;
    Runs.Longer(Next, Init(), steps, step);
    steps', s' := steps + [step], Next(s, step).value;
  }

  /** Stream `t` is at `st` with its socket `k` at `sk`; the pool and the clock are as given. */
  ghost predicate With(s: State, t: nat, st: StreamState, k: nat, sk: Socket, idle: seq<Idle<nat>>, now: nat) {
    && t in s.streams && s.streams[t] == st && HeldBy(st.phase) == Some(k) && k in s.sockets && s.sockets[k] == sk
    && s.idle == idle && s.now == now
  }

  /** All other streams are as they were. */
  ghost predicate Others(s: State, s': State, t: nat) {
    forall u | u in s.streams && u != t :: u in s'.streams && s'.streams[u] == s.streams[u]
  }

  /** A body of any length, in chunks. */
  lemma {:induction false} SendsBody(steps: seq<Step>, s: State, t: nat, st: StreamState, k: nat, sk: Socket, base: nat,
                                     body: Bytes)
    returns (steps': seq<Step>, s': State)
    requires Run(Init(), steps) == Some(s) && With(s, t, st, k, sk, s.idle, s.now)
    requires st.phase == Sending(k, base, |body|)
    ensures Run(Init(), steps') == Some(s') && Others(s, s', t)
    ensures With(s', t, st.(phase := Sending(k, base, 0), forwarded := st.forwarded + body), k,
                 sk.(received := sk.received + body), s.idle, s.now)
    decreases |body|
  {
    hide Run;
    steps', s' := steps, s;
    if body == [] {
      assert st.forwarded + body == st.forwarded && sk.received + body == sk.received;
    } else {
      var n := Min(PUMP_CHUNK, |body|);
      var x, y := body[..n], body[n..];
      steps', s' := Go(steps, s, SendBody(t, x));
      var st1 := st.(phase := Sending(k, base, |y|), forwarded := st.forwarded + x);
      var sk1 := sk.(received := sk.received + x);
      Split(st.forwarded, x, y, body);
      Split(sk.received, x, y, body);
      steps', s' := SendsBody(steps', s', t, st1, k, sk1, base, y);
    }
  }

  lemma Split(a: Bytes, x: Bytes, y: Bytes, body: Bytes)
    requires body == x + y
    ensures a + x + y == a + body
  {
  }

  /** The request: its head, its body if it has one, and on to the answer. */
  lemma Asks(steps: seq<Step>, s: State, t: nat, st: StreamState, k: nat, sk: Socket, body: Bytes)
    returns (steps': seq<Step>, s': State)
    requires Run(Init(), steps) == Some(s) && With(s, t, st, k, sk, s.idle, s.now) && st.phase == Holding(k)
    requires PoolableRequest(RequestShape(st.req)) && ForwardedLength(RequestShape(st.req)) == |body|
    ensures Run(Init(), steps') == Some(s') && Others(s, s', t)
    ensures With(s', t, st.(phase := Reading(k, |sk.sent|), forwarded := st.forwarded + body), k,
                 sk.(received := sk.received + HeadFor(st.req, true) + body), s.idle, s.now)
  {
    hide Run, HeadFor, RequestShape, PoolableRequest;
    steps', s' := Go(steps, s, WriteHead(t));
    var st1 := st.(phase := Sending(k, |sk.sent|, |body|));
    var sk1 := sk.(received := sk.received + HeadFor(st.req, true));
    steps', s' := SendsBody(steps', s', t, st1, k, sk1, |sk.sent|, body);
    steps', s' := Go(steps', s', AwaitAnswer(t));
  }

  /** The origin answers what it was asked. */
  lemma Answers(steps: seq<Step>, s: State, t: nat, st: StreamState, k: nat, sk: Socket, w: Bytes)
    returns (steps': seq<Step>, s': State)
    requires Run(Init(), steps) == Some(s) && With(s, t, st, k, sk, s.idle, s.now)
    requires Asked(sk.received, |sk.starts|) && Within(w) && w != []
    ensures Run(Init(), steps') == Some(s')
    ensures With(s', t, st, k, sk.(starts := sk.starts + [|sk.sent|], sent := sk.sent + w), s.idle, s.now)
    ensures s'.streams == s.streams
  {
    hide Run, Asked, Within;
    steps', s' := Go(steps, s, OriginBegin(k));
    assert sk.sent[|sk.sent|..] + w == w;
    steps', s' := Go(steps', s', OriginSend(k, w));
  }

  /** A cut of an answer shows its head as soon as it is all there. */
  lemma AnswerCut(w: Bytes, head: Head, c: nat, i: nat)
    requires Answer(w, head, c) && i <= |w|
    ensures ParseHead(Response, w[..i]) == if i < c then Partial else Complete(head, c)
  {
    hide ParseHead;
    assert w[..i] + w[i..] == w;
    ParseOfPrefix(Response, w[..i], w[i..]);
  }

  /** The head reader reads on, octet by octet, and has the head. */
  lemma {:induction false} ReadsHead(steps: seq<Step>, s: State, t: nat, st: StreamState, k: nat, sk: Socket, base: nat,
                                     w: Bytes, head: Head, c: nat)
    returns (steps': seq<Step>, s': State, st': StreamState)
    requires Run(Init(), steps) == Some(s) && With(s, t, st, k, sk, s.idle, s.now) && st.phase == Reading(k, base)
    requires base <= sk.readPos < base + c && base + |w| == |sk.sent| && sk.sent[base..] == w
    requires Answer(w, head, c) && c <= MAX_HEADER_BYTES
    ensures Run(Init(), steps') == Some(s') && Others(s, s', t)
    ensures With(s', t, st', k, sk.(readPos := base + c), s.idle, s.now)
    ensures st'.phase == Relaying(k, base, head, c, |w| - c) && st'.got.Some?
    decreases base + c - sk.readPos
  {
    hide Run, ParseHead, FrameOf, DeclaredLength;
    var next := sk.readPos + 1;
    AnswerCut(w, head, c, next - base);
    assert sk.sent[base..next] == w[..next - base];
    steps', s' := Go(steps, s, ReadAnswer(t, 1));
    st' := s'.streams[t];
    if next < base + c {
      steps', s', st' := ReadsHead(steps', s', t, st, k, sk.(readPos := next), base, w, head, c);
    }
  }

  /** The rest of the body, in chunks. */
  lemma {:induction false} RelaysBody(steps: seq<Step>, s: State, t: nat, st: StreamState, k: nat, sk: Socket,
                                      base: nat, head: Head, c: nat, left: nat)
    returns (steps': seq<Step>, s': State, st': StreamState, sk': Socket)
    requires Run(Init(), steps) == Some(s) && With(s, t, st, k, sk, s.idle, s.now)
    requires st.phase == Relaying(k, base, head, c, left) && st.got.Some? && sk.readPos + left == |sk.sent|
    ensures Run(Init(), steps') == Some(s') && Others(s, s', t) && With(s', t, st', k, sk', s.idle, s.now)
    ensures st'.phase == Relaying(k, base, head, c, 0)
    decreases left
  {
    hide Run;
    steps', s', st', sk' := steps, s, st, sk;
    if left > 0 {
      var n := Min(PUMP_CHUNK, left);
      steps', s' := Go(steps, s, RelayBody(t, n));
      st', sk' := s'.streams[t], s'.sockets[k];
      steps', s', st', sk' := RelaysBody(steps', s', t, st', k, sk', base, head, c, left - n);
    }
  }

  /** The answer is taken, and the socket goes back to the pool. */
  lemma Takes(steps: seq<Step>, s: State, t: nat, st: StreamState, k: nat, sk: Socket, w: Bytes, head: Head, c: nat)
    returns (steps': seq<Step>, s': State)
    requires Run(Init(), steps) == Some(s) && With(s, t, st, k, sk, s.idle, s.now)
    requires st.phase.Reading? && st.phase.base == sk.readPos
    requires sk.readPos + |w| == |sk.sent| && sk.sent[sk.readPos..] == w
    requires c <= MAX_HEADER_BYTES && Answer(w, head, c) && |s.idle| < DEFAULT_MAX_IDLE
    ensures Run(Init(), steps') == Some(s') && Others(s, s', t)
    ensures t in s'.streams && s'.streams[t].phase.Finished? && s'.streams[t].phase.sock == k
    ensures s'.idle == s.idle + [Idle(k, s.now)] && s'.now == s.now
  {
    hide Run, ParseHead, FrameOf, DeclaredLength, HeadFor;
    var st', sk';
    steps', s', st' := ReadsHead(steps, s, t, st, k, sk, sk.readPos, w, head, c);
    steps', s', st', sk' := RelaysBody(steps', s', t, st', k, s'.sockets[k], sk.readPos, head, c, |w| - c);
    steps', s' := Go(steps', s', Release(t));
  }

  /** A stream that waits for its answer, which has not begun, has asked for it. */
  lemma HasAsked(s: State, t: nat, st: StreamState, k: nat, sk: Socket)
    requires Inv(s) && With(s, t, st, k, sk, s.idle, s.now) && st.phase.Reading? && |sk.starts| == |sk.msgs|
    ensures Asked(sk.received, |sk.starts|)
  {
    hide Inv;
    Holder(s, t, k);
    HeadsAfter(sk.msgs, RequestSoFar(st), sk.received);
    HeadsOnce(RequestSoFar(st), 0);
  }

  /** A stream that holds a socket can be served: for every body of the declared length and every answer with a head
      that can be accepted, some run takes it to the end and gives its socket back. */
  lemma Serves(steps: seq<Step>, s: State, t: nat, k: nat, body: Bytes, w: Bytes, head: Head, c: nat)
    returns (steps': seq<Step>, s': State)
    requires Run(Init(), steps) == Some(s) && t in s.streams && s.streams[t].phase == Holding(k)
    requires PoolableRequest(RequestShape(s.streams[t].req))
    requires ForwardedLength(RequestShape(s.streams[t].req)) == |body|
    requires c <= MAX_HEADER_BYTES && Answer(w, head, c) && |s.idle| < DEFAULT_MAX_IDLE
    ensures Run(Init(), steps') == Some(s') && Others(s, s', t)
    ensures t in s'.streams && s'.streams[t].phase.Finished? && s'.streams[t].phase.sock == k
    ensures s'.idle == s.idle + [Idle(k, s.now)] && s'.now == s.now
  {
    hide Run, HeadFor, RequestShape, PoolableRequest, Inv, Asked, DeclaredLength, Answer;
    InvHolds(steps);
    Holder(s, t, k);
    var st, sk := s.streams[t], s.sockets[k];
    steps', s' := Asks(steps, s, t, st, k, sk, body);
    st, sk := s'.streams[t], s'.sockets[k];
    InvHolds(steps');
    HasAsked(s', t, st, k, sk);
    AnswerFits(w, head, c);
    steps', s' := Answers(steps', s', t, st, k, sk, w);
    assert s'.sockets[k].sent[|sk.sent|..] == w;
    steps', s' := Takes(steps', s', t, st, k, s'.sockets[k], w, head, c);
  }

  lemma AnswerFits(w: Bytes, head: Head, c: nat)
    requires Answer(w, head, c)
    ensures Within(w) && w != []
  {
    assert ParseHead(Response, []).Partial?;
  }

  /** Keep-alive: two streams, one after the other, with whatever pooled requests, bodies and answers, can both be
      served over one and the same socket, as long as the heads of the answers can be accepted. */
  lemma ServedOverOneSocket(req0: ConnectRequest, body0: Bytes, w0: Bytes, head0: Head, c0: nat,
                            req1: ConnectRequest, body1: Bytes, w1: Bytes, head1: Head, c1: nat)
    returns (steps: seq<Step>, s: State)
    requires WellFormed(req0) && PoolableRequest(RequestShape(req0))
    requires ForwardedLength(RequestShape(req0)) == |body0| && Answer(w0, head0, c0) && c0 <= MAX_HEADER_BYTES
    requires WellFormed(req1) && PoolableRequest(RequestShape(req1))
    requires ForwardedLength(RequestShape(req1)) == |body1| && Answer(w1, head1, c1) && c1 <= MAX_HEADER_BYTES
    ensures Run(Init(), steps) == Some(s) && 0 in s.streams && 1 in s.streams
    ensures s.streams[0].phase.Finished? && s.streams[1].phase.Finished?
    ensures s.streams[0].phase.sock == s.streams[1].phase.sock == 0 && s.idle == [Idle(0, 0)]
  {
    hide Run, RequestShape, PoolableRequest, Answer, WellFormed, HeldNext;
    steps, s := Opens(req0, req1);
    steps, s := Serves(steps, s, 0, 0, body0, w0, head0, c0);
    assert s.idle == [Idle(0, 0)];
    steps, s := Takeover(steps, s, 1, 0);
    steps, s := Serves(steps, s, 1, 0, body1, w1, head1, c1);
  }

  /** Both streams have arrived, and the first has a new socket. */
  lemma Opens(req0: ConnectRequest, req1: ConnectRequest) returns (steps: seq<Step>, s: State)
    requires WellFormed(req0) && WellFormed(req1)
    ensures Run(Init(), steps) == Some(s) && s.idle == [] && s.now == 0
    ensures s.streams == map[0 := StreamState(req0, Holding(0), [], None), 1 := StreamState(req1, Arrived, [], None)]
  {
    hide Run, WellFormed, HeldNext;
    RunNone();
    steps, s := [], Init();
    steps, s := Go(steps, s, Arrive(0, req0));
    steps, s := Go(steps, s, Arrive(1, req1));
    steps, s := Go(steps, s, Acquire(0));
    steps, s := Go(steps, s, Connect(0, 0));
  }

  lemma RunNone()
    ensures Run(Init(), []) == Some(Init())
  {
  }

  /** A stream that arrives gets the newest idle socket. */
  lemma Takeover(steps: seq<Step>, s: State, t: nat, k: nat) returns (steps': seq<Step>, s': State)
    requires Run(Init(), steps) == Some(s) && t in s.streams && s.streams[t].phase == Arrived
    requires s.idle == [Idle(k, s.now)]
    ensures Run(Init(), steps') == Some(s') && s'.idle == [] && s'.now == s.now
    ensures s'.streams == s.streams[t := s.streams[t].(phase := Holding(k))]
  {
    hide Run, Inv, HeldNext;
    InvHolds(steps);
    IdleAtBoundary(steps, 0);
    steps', s' := Go(steps, s, Acquire(t));
  }
}
