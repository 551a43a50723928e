/** What holds in every run of `SharedPool`. */
module IsolationRuns {
  import opened Options
  import opened Octets
  import opened Http1
  import opened Shapes
  import opened RequestHead
  import opened Pool
  import opened Proxy
  import opened Origin
  import opened SharedPool
  import opened Isolation
  import opened IsolationSteps
  import Runs

  // ── Every run ──

  /** The state after these steps, one after the other, if they can all be taken. */
  function Run(s: State, steps: seq<Step>): Option<State> { Runs.Run(Next, s, steps) }

  lemma RunKeeps(s: State, steps: seq<Step>)
    requires Inv(s) && Run(s, steps).Some?
    ensures Inv(Run(s, steps).value)
  {
    hide Inv, Next;
    forall s, step | Inv(s) && Next(s, step).Some? ensures Inv(Next(s, step).value) { StepKeeps(s, step); }
    Runs.Keeps(Next, Inv, s, steps);
  }

  lemma InvHolds(steps: seq<Step>)
    requires Run(Init(), steps).Some?
    ensures Inv(Run(Init(), steps).value)
  {
    RunKeeps(Init(), steps);
  }

  /** In every run, an idle socket is at a message boundary: the octets written to it are complete requests,
      as many as it has complete answers, nothing is unread, and the origin has nothing to send. */
  lemma IdleAtBoundary(steps: seq<Step>, i: nat)
    requires Run(Init(), steps).Some? && i < |Run(Init(), steps).value.idle|
    ensures var s := Run(Init(), steps).value;
            var k := s.idle[i].stream;
            && k in s.sockets && AtBoundary(s.sockets[k])
            && !Asked(s.sockets[k].received, |s.sockets[k].starts|)
            && forall chunk :: !MaySend(s.sockets[k], chunk)
  {
    InvHolds(steps);
    var s := Run(Init(), steps).value;
    assert IdleOk(s, s.idle[i].stream);
    BoundaryIsStill(s.sockets[s.idle[i].stream]);
  }

  ghost predicate HeldIn(s: State, k: nat, t: nat) { t in s.streams && HeldBy(s.streams[t].phase) == Some(k) }

  /** In every run, a socket is in exactly one place: in the pool, once; with one stream; or closed. The pool
      holds at most `max_idle` sockets. */
  lemma SocketConservation(steps: seq<Step>, k: nat)
    requires Run(Init(), steps).Some? && k in Run(Init(), steps).value.sockets
    ensures var s := Run(Init(), steps).value;
            match s.sockets[k].owner
            case InPool => InIdle(s.idle, k) && forall t :: !HeldIn(s, k, t)
            case Stream(t) => !InIdle(s.idle, k) && forall u :: HeldIn(s, k, u) <==> u == t
            case Nobody => !InIdle(s.idle, k) && forall t :: !HeldIn(s, k, t)
    ensures var s := Run(Init(), steps).value;
            && |s.idle| <= 16
            && forall i, j :: 0 <= i < j < |s.idle| ==> s.idle[i].stream != s.idle[j].stream
  {
    hide HeldOk, OwnResponse, AtBoundary, Run;
    InvHolds(steps);
    var s := Run(Init(), steps).value;
    assert OwnerOk(s, k);
    forall t | HeldIn(s, k, t) ensures s.sockets[k].owner == Stream(t) { Holder(s, t, k); }
    if i :| 0 <= i < |s.idle| && s.idle[i].stream == k { assert IdleOk(s, s.idle[i].stream); }
  }

  // ── The request of an exchange, as the origin reads it ──

  /** On every socket the complete requests stand at the front of what was written. */
  ghost predicate Fronts(s: State) { forall k | k in s.sockets :: Flat(s.sockets[k].msgs) <= s.sockets[k].received }

  lemma FrontsThroughRelease(s: State, t: nat, k: nat, st: StreamState, sk: Socket)
    requires Inv(s) && Fronts(s) && t in s.streams && st == s.streams[t] && k in s.sockets && sk == s.sockets[k]
    requires st.phase.Relaying? && HeldBy(st.phase) == Some(k)
    ensures Fronts(AfterRelease(s, t, st, k, sk))
  {
    hide Inv, Relayed, HeadFor, Message;
    Holder(s, t, k);
    FlatSnoc(sk.msgs, RequestSoFar(st));
  }

  lemma FrontsThroughHeld(s: State, step: Step, st: StreamState, k: nat, sk: Socket)
    requires Inv(s) && Fronts(s) && !step.Arrive? && !step.Tick? && !step.OriginBegin? && !step.OriginSend?
    requires step.t in s.streams && st == s.streams[step.t] && HeldBy(st.phase) == Some(k)
    requires k in s.sockets && sk == s.sockets[k] && HeldNext(s, step, st, k, sk).Some?
    ensures Fronts(HeldNext(s, step, st, k, sk).value)
  {
    hide Inv, AfterRelease, HeadFor, Flat, ParseHead, FrameOf, DeclaredLength;
    if step.Release? { FrontsThroughRelease(s, step.t, k, st, sk); }
  }

  lemma FrontsKept(s: State, step: Step)
    requires Inv(s) && Fronts(s) && Next(s, step).Some?
    ensures Fronts(Next(s, step).value)
  {
    hide Inv, HeldNext, WellFormed, MaySend, Asked;
    if !step.Arrive? && !step.Tick? && !step.OriginBegin? && !step.OriginSend? && !step.Drop? {
      var st := s.streams[step.t];
      if HeldBy(st.phase).Some? {
        FrontsThroughHeld(s, step, st, HeldBy(st.phase).value, s.sockets[HeldBy(st.phase).value]);
      }
    }
  }

  lemma RunKeepsFronts(s: State, steps: seq<Step>)
    requires Inv(s) && Fronts(s) && Run(s, steps).Some?
    ensures Fronts(Run(s, steps).value)
  {
    hide Inv, Next, Fronts;
    forall s, step | Inv(s) && Fronts(s) && Next(s, step).Some?
      ensures Inv(Next(s, step).value) && Fronts(Next(s, step).value)
    {
      StepKeeps(s, step);
      FrontsKept(s, step);
    }
    Runs.Keeps(Next, s => Inv(s) && Fronts(s), s, steps);
  }

  lemma FrontsHold(steps: seq<Step>)
    requires Run(Init(), steps).Some?
    ensures Fronts(Run(Init(), steps).value)
  {
    RunKeepsFronts(Init(), steps);
  }

  /** The octets of the requests before the `nth` one. */
  function RequestStart(sk: Socket, nth: nat): nat
    requires nth <= |sk.msgs|
  {
    |Flat(sk.msgs[..nth])|
  }

  /** `b` begins with the stream's request: its method, target and fields, and the body that was forwarded, of
      the length that RFC 9112 gives it. */
  ghost predicate Reads(st: StreamState, b: Bytes) {
    var c := |HeadFor(st.req, true)|;
    var fields := SentFields(st.req, true);
    && ParseHead(Request, b) == Complete(Head(RequestLine(Method(st.req), ExtractPath(st.req.dest)), fields), c)
    && BodyFraming(fields) == Fixed(|st.forwarded|) && At(b, c, st.forwarded)
  }

  /** Read from where the `nth` request begins, the octets written to the socket are the stream's request. */
  ghost predicate OwnRequest(st: StreamState, sk: Socket, nth: nat) {
    && nth < |sk.msgs| && RequestStart(sk, nth) <= |sk.received|
    && Reads(st, sk.received[RequestStart(sk, nth)..])
  }

  lemma Behind(x: Bytes, y: Bytes, z: Bytes, w: Bytes, b: Bytes)
    requires b == x + (y + z) + w
    ensures |x| <= |b| && b[|x|..] == y + (z + w)
  {
    assert b == x + (y + (z + w));
  }

  lemma FindRequest(sk: Socket, nth: nat) returns (after: Bytes)
    requires nth < |sk.msgs| && Flat(sk.msgs) <= sk.received
    ensures RequestStart(sk, nth) <= |sk.received|
    ensures sk.received[RequestStart(sk, nth)..] == sk.msgs[nth] + after
  {
    FlatSplit(sk.msgs, nth);
    var rest := sk.received[|Flat(sk.msgs)|..];
    var next := Flat(sk.msgs[nth + 1..]);
    FlatFirst(sk.msgs[nth..], sk.msgs[nth], sk.msgs[nth + 1..]);
    after := next + rest;
    hide Flat;
    Behind(Flat(sk.msgs[..nth]), sk.msgs[nth], next, rest, sk.received);
  }

  lemma FlatFirst(pieces: seq<Bytes>, first: Bytes, others: seq<Bytes>)
    requires pieces == [first] + others
    ensures Flat(pieces) == first + Flat(others)
  {
    assert pieces[1..] == others;
  }

  lemma RequestReads(st: StreamState, after: Bytes, b: Bytes)
    requires b == RequestSoFar(st) + after && Message(RequestSoFar(st))
    requires WellFormed(st.req) && PoolableRequest(RequestShape(st.req))
    ensures Reads(st, b)
  {
    hide HeadFor, PoolableRequest, RequestShape, ParseHead, BodyFraming, SentFields, Frames;
    RequestRoundTrip(st.req, true, st.forwarded);
    ParseStable(Request, RequestSoFar(st), after);
  }

  lemma RequestIsOwn(st: StreamState, sk: Socket, nth: nat)
    requires nth < |sk.msgs| && sk.msgs[nth] == RequestSoFar(st) && Message(sk.msgs[nth])
    requires Flat(sk.msgs) <= sk.received && WellFormed(st.req) && PoolableRequest(RequestShape(st.req))
    ensures OwnRequest(st, sk, nth)
  {
    hide WellFormed, RequestShape, PoolableRequest, Message, RequestSoFar, Reads;
    var after := FindRequest(sk, nth);
    RequestReads(st, after, sk.received[RequestStart(sk, nth)..]);
  }

  /** Response isolation. In every run, for every stream that finished on the pooled path: the origin reads
      its request, head and body, as the `nth` one on its socket; the answer that the origin began `nth` on
      that socket is complete, and the stream was given exactly its head, as a frame, and its body; the next
      answer, if there is one, begins right behind it; and no other stream has this exchange. */
  lemma ResponseIsolation(steps: seq<Step>, t: nat)
    requires Run(Init(), steps).Some? && t in Run(Init(), steps).value.streams
    requires Run(Init(), steps).value.streams[t].phase.Finished?
    ensures var s := Run(Init(), steps).value;
            var st := s.streams[t];
            var Finished(k, base, end, head, c, nth) := st.phase;
            && k in s.sockets
            && OwnRequest(st, s.sockets[k], nth)
            && OwnResponse(st, s.sockets[k], base, end, head, c, nth)
            && forall u | u in s.streams && u != t :: !SameExchange(st.phase, s.streams[u].phase)
  {
    hide HeldOk, Run, OwnRequest, Message, Given, PoolOk, OwnersOk;
    InvHolds(steps);
    FrontsHold(steps);
    var s := Run(Init(), steps).value;
    var st := s.streams[t];
    assert StreamOk(s.sockets, t, st) && RequestOk(st);
    RequestIsOwn(st, s.sockets[st.phase.sock], st.phase.nth);
  }

  // ── Off the pooled path ──

  /** The socket is closed, or with a stream that has left the pooled path. */
  predicate OffPool(s: State, k: nat) {
    k in s.sockets && match s.sockets[k].owner
                      case Nobody => true
                      case Stream(t) => t in s.streams && s.streams[t].phase == Unpooled(k)
                      case InPool => false
  }

  /** A step of the exchange touches its own stream and socket only, and an unpooled stream stays unpooled. */
  lemma HeldTouches(s: State, step: Step, st: StreamState, j: nat, sk: Socket)
    requires !step.Arrive? && !step.Tick? && !step.OriginBegin? && !step.OriginSend?
    requires step.t in s.streams && st == s.streams[step.t] && HeldBy(st.phase) == Some(j)
    requires j in s.sockets && sk == s.sockets[j] && HeldNext(s, step, st, j, sk).Some?
    ensures var s' := HeldNext(s, step, st, j, sk).value;
            && (forall i | i in s.sockets && i != j :: i in s'.sockets && s'.sockets[i] == s.sockets[i])
            && (forall u | u in s.streams && u != step.t :: u in s'.streams && s'.streams[u] == s.streams[u])
            && (st.phase.Unpooled? ==>
                  && j in s'.sockets && s'.sockets[j].owner == sk.owner
                  && step.t in s'.streams && s'.streams[step.t] == st)
  {
    hide HeadFor, ParseHead, FrameOf, DeclaredLength, RequestShape;
  }

  lemma OffPoolThroughHeld(s: State, step: Step, st: StreamState, j: nat, k: nat)
    requires Inv(s) && OffPool(s, k) && !step.Arrive? && !step.Tick? && !step.OriginBegin? && !step.OriginSend?
    requires step.t in s.streams && st == s.streams[step.t] && HeldBy(st.phase) == Some(j) && j in s.sockets
    requires HeldNext(s, step, st, j, s.sockets[j]).Some?
    ensures OffPool(HeldNext(s, step, st, j, s.sockets[j]).value, k)
  {
    hide Inv, HeldNext;
    Holder(s, step.t, j);
    HeldTouches(s, step, st, j, s.sockets[j]);
  }

  lemma StaysOffPool(s: State, step: Step, k: nat)
    requires Inv(s) && OffPool(s, k) && Next(s, step).Some?
    ensures OffPool(Next(s, step).value, k)
  {
    hide HeldNext, HeldOk, OwnResponse, AtBoundary, WellFormed, MaySend, Asked, RequestOk, Ordered;
    if !step.Arrive? && !step.Tick? && !step.OriginBegin? && !step.OriginSend? {
      var st := s.streams[step.t];
      if HeldBy(st.phase).Some? {
        Holder(s, step.t, HeldBy(st.phase).value);
        if !step.Drop? { OffPoolThroughHeld(s, step, st, HeldBy(st.phase).value, k); }
      } else if s.idle != [] {
        assert IdleOk(s, s.idle[|s.idle| - 1].stream);
      }
    }
  }

  lemma OffPoolIsNotIdle(s: State, k: nat)
    requires Inv(s) && OffPool(s, k)
    ensures !InIdle(s.idle, k)
  {
    hide HeldOk, OwnResponse, AtBoundary;
    forall i | 0 <= i < |s.idle| ensures s.idle[i].stream != k { assert IdleOk(s, s.idle[i].stream); }
  }

  /** A socket whose exchange failed, or left the pooled path, never becomes idle again. */
  lemma OffPoolForever(s: State, steps: seq<Step>, k: nat)
    requires Inv(s) && OffPool(s, k) && Run(s, steps).Some?
    ensures OffPool(Run(s, steps).value, k) && !InIdle(Run(s, steps).value.idle, k)
  {
    hide Inv, Next, OffPool;
    forall s, step | Inv(s) && OffPool(s, k) && Next(s, step).Some?
      ensures Inv(Next(s, step).value) && OffPool(Next(s, step).value, k)
    {
      StepKeeps(s, step);
      StaysOffPool(s, step, k);
    }
    Runs.Keeps(Next, s => Inv(s) && OffPool(s, k), s, steps);
    OffPoolIsNotIdle(Run(s, steps).value, k);
  }
}
