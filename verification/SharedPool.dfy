/** All inbound streams of a tunnel over the one pool of origin sockets, as a state machine whose steps
    interleave freely: streams arrive, acquire, write, read chunks of any length, release or fail, and the
    origin answers on every socket. */
module SharedPool {
  import opened Options
  import opened Octets
  import opened Http1
  import opened Shapes
  import opened RequestHead
  import opened Streams
  import opened HeadReader
  import opened Pumps
  import opened Pool
  import opened Proxy
  import opened Origin

  // ── State ──

  /** Who owns a socket. */
  datatype Owner = InPool | Stream(t: nat) | Nobody

  /** A socket: all octets written to the origin, of which `msgs` are the complete requests of earlier
      exchanges; all octets that the origin has sent, the offsets in them at which it began an answer, and
      how many the proxy has read. */
  datatype Socket = Socket(owner: Owner, received: Bytes, msgs: seq<Bytes>, sent: Bytes, starts: seq<nat>, readPos: nat)

  /** Where a stream is in `proxy_http`. `base` is where the socket's answers stood when it was acquired. */
  datatype Phase =
    | Arrived
    | Connecting
    | Holding(sock: nat)
    | Sending(sock: nat, base: nat, left: nat)
    | Reading(sock: nat, base: nat)
    | Relaying(sock: nat, base: nat, head: Head, c: nat, left: nat)
    | Unpooled(sock: nat)
    | Finished(sock: nat, base: nat, end: nat, head: Head, c: nat, nth: nat)
    | Ended

  /** A stream: its request, the body octets forwarded so far, and what the edge has been given. */
  datatype StreamState = StreamState(req: ConnectRequest, phase: Phase, forwarded: Bytes, got: Option<Delivery>)

  datatype State = State(sockets: map<nat, Socket>, streams: map<nat, StreamState>, idle: seq<Idle<nat>>, now: nat)

  function Init(): State { State(map[], map[], [], 0) }

  // ── Steps ──

  datatype Step =
    | Arrive(t: nat, req: ConnectRequest)
    | Acquire(t: nat)
    | Connect(t: nat, k: nat)
    | WriteHead(t: nat)
    | SendBody(t: nat, chunk: Bytes)
    | AwaitAnswer(t: nat)
    | ReadAnswer(t: nat, n: nat)
    | RelayBody(t: nat, n: nat)
    | Release(t: nat)
    | PumpUnpooled(t: nat, up: Bytes, down: nat)
    | Drop(t: nat)
    | OriginBegin(k: nat)
    | OriginSend(k: nat, chunk: Bytes)
    | Tick(d: nat)

  function RequestShape(req: ConnectRequest): Shape { ShapeOf(HeaderFields(req.metadata), false) }

  /** A request that takes the pooled path is one that HTTP/1.1 can carry, with its lengths in order. */
  predicate WellFormed(req: ConnectRequest) {
    PoolableRequest(RequestShape(req)) ==> Printable(req, true) && LengthsInOrder(HeaderFields(req.metadata))
  }

  function HeldBy(p: Phase): Option<nat> {
    match p
    case Holding(k) => Some(k)
    case Sending(k, _, _) => Some(k)
    case Reading(k, _) => Some(k)
    case Relaying(k, _, _, _, _) => Some(k)
    case Unpooled(k) => Some(k)
    case _ => None
  }

  /** The stream `t` and the socket `k` get new values. */
  function Put(s: State, t: nat, st: StreamState, k: nat, sk: Socket): State {
    s.(streams := s.streams[t := st], sockets := s.sockets[k := sk])
  }

  function Shut(sk: Socket): Socket { sk.(owner := Nobody) }

  /** `acquire`: the pool's verdict at the present time. Entries that it drops are closed. */
  function AfterAcquire(s: State, t: nat, st: StreamState): Option<State> {
    var taken := Acquired(s.idle, DEFAULT_IDLE_TTL, s.now);
    match taken.stream
    case Some(k) =>
      if k in s.sockets
      then Some(Put(s, t, st.(phase := Holding(k)), k, s.sockets[k].(owner := Stream(t))).(idle := taken.idle))
      else None
    case None =>
      Some(s.(streams := s.streams[t := st.(phase := Connecting)],
              sockets := map k | k in s.sockets ::
                           if s.sockets[k].owner == InPool then Shut(s.sockets[k]) else s.sockets[k],
              idle := []))
  }

  function AfterWriteHead(s: State, t: nat, st: StreamState, k: nat, sk: Socket): State {
    var shape := RequestShape(st.req);
    var sk' := sk.(received := sk.received + HeadFor(st.req, PoolableRequest(shape)));
    if PoolableRequest(shape)
    then Put(s, t, st.(phase := Sending(k, |sk.sent|, ForwardedLength(shape))), k, sk')
    else Put(s, t, st.(phase := Unpooled(k)), k, sk')
  }

  /** One read of the head reader, and what `run_pooled` does with its verdict. */
  function AfterReadAnswer(s: State, t: nat, st: StreamState, k: nat, base: nat, sk: Socket, next: nat): State
    requires base <= next <= |sk.sent|
  {
    var sk' := sk.(readPos := next);
    var buf := sk.sent[base..next];
    if |buf| > MAX_HEADER_BYTES then Put(s, t, st.(phase := Ended), k, Shut(sk'))
    else match ParseHead(Response, buf)
      case Bad => Put(s, t, st.(phase := Ended), k, Shut(sk'))
      case Partial => Put(s, t, st, k, sk')
      case Complete(head, c) =>
        var st' := st.(got := Some(Delivery(FrameOf(head), sk.sent[base + c..next])));
        match DeclaredLength(head)
        case Some(n) => Put(s, t, st'.(phase := Relaying(k, base, head, c, Monus(n, |buf| - c))), k, sk')
        case None => Put(s, t, st'.(phase := Unpooled(k)), k, sk')
  }

  function AfterRelease(s: State, t: nat, st: StreamState, k: nat, sk: Socket): State
    requires st.phase.Relaying?
  {
    var p := st.phase;
    var sk' := sk.(msgs := sk.msgs + [HeadFor(st.req, true) + st.forwarded]);
    var st' := st.(phase := Finished(k, p.base, sk.readPos, p.head, p.c, |sk.msgs|));
    if |s.idle| >= DEFAULT_MAX_IDLE then Put(s, t, st', k, Shut(sk'))
    else Put(s, t, st', k, sk'.(owner := InPool)).(idle := Released(s.idle, DEFAULT_MAX_IDLE, k, s.now))
  }

  /** The step's effect, or `None` where the step cannot be taken. */
  function Next(s: State, step: Step): Option<State> {
    match step
    case Arrive(t, req) =>
      if t !in s.streams && WellFormed(req)
      then Some(s.(streams := s.streams[t := StreamState(req, Arrived, [], None)])) else None
    case Tick(d) => Some(s.(now := s.now + d))
    case OriginBegin(k) =>
      if k in s.sockets && Asked(s.sockets[k].received, |s.sockets[k].starts|)
      then Some(s.(sockets := s.sockets[k := s.sockets[k].(starts := s.sockets[k].starts + [|s.sockets[k].sent|])]))
      else None
    case OriginSend(k, chunk) =>
      if k in s.sockets && MaySend(s.sockets[k], chunk)
      then Some(s.(sockets := s.sockets[k := s.sockets[k].(sent := s.sockets[k].sent + chunk)])) else None
    case _ =>
      if step.t in s.streams then StreamNext(s, step, s.streams[step.t]) else None
  }

  /** The origin sends only in answer to a request, and no more than it declares. */
  predicate MaySend(sk: Socket, chunk: Bytes) {
    && sk.starts != [] && chunk != [] && sk.starts[|sk.starts| - 1] <= |sk.sent|
    && Within(sk.sent[sk.starts[|sk.starts| - 1]..] + chunk)
  }

  function StreamNext(s: State, step: Step, st: StreamState): Option<State>
    requires !step.Arrive? && !step.Tick? && !step.OriginBegin? && !step.OriginSend?
  {
    var t := step.t;
    match (step, st.phase)
    case (Acquire(_), Arrived) => AfterAcquire(s, t, st)
    case (Connect(_, k), Connecting) =>
      if k in s.sockets then None
      else Some(Put(s, t, st.(phase := Holding(k)), k, Socket(Stream(t), [], [], [], [], 0)))
    case (Drop(_), p) => AfterDrop(s, t, st)
    case (_, p) =>
      if HeldBy(p).Some? && HeldBy(p).value in s.sockets
      then HeldNext(s, step, st, HeldBy(p).value, s.sockets[HeldBy(p).value]) else None
  }

  function AfterDrop(s: State, t: nat, st: StreamState): Option<State> {
    match HeldBy(st.phase)
    case Some(k) => if k in s.sockets then Some(Put(s, t, st.(phase := Ended), k, Shut(s.sockets[k]))) else None
    case None =>
      if st.phase.Arrived? || st.phase.Connecting?
      then Some(s.(streams := s.streams[t := st.(phase := Ended)])) else None
  }

  function HeldNext(s: State, step: Step, st: StreamState, k: nat, sk: Socket): Option<State>
    requires !step.Arrive? && !step.Tick? && !step.OriginBegin? && !step.OriginSend?
  {
    var t := step.t;
    match (step, st.phase)
    case (WriteHead(_), Holding(_)) => Some(AfterWriteHead(s, t, st, k, sk))
    case (SendBody(_, chunk), Sending(_, base, left)) =>
      if 0 < |chunk| <= Min(PUMP_CHUNK, left)
      then Some(Put(s, t, st.(phase := Sending(k, base, left - |chunk|), forwarded := st.forwarded + chunk),
                    k, sk.(received := sk.received + chunk)))
      else None
    case (AwaitAnswer(_), Sending(_, base, left)) =>
      if left == 0 then Some(Put(s, t, st.(phase := Reading(k, base)), k, sk)) else None
    case (ReadAnswer(_, n), Reading(_, base)) =>
      if 0 < n <= HEAD_CHUNK && base <= sk.readPos && sk.readPos + n <= |sk.sent|
      then Some(AfterReadAnswer(s, t, st, k, base, sk, sk.readPos + n)) else None
    case (RelayBody(_, n), Relaying(_, base, head, c, left)) =>
      if 0 < n <= Min(PUMP_CHUNK, left) && sk.readPos + n <= |sk.sent| && st.got.Some?
      then
        var more := sk.sent[sk.readPos..sk.readPos + n];
        Some(Put(s, t, st.(phase := Relaying(k, base, head, c, left - n),
                           got := Some(st.got.value.(body := st.got.value.body + more))),
                 k, sk.(readPos := sk.readPos + n)))
      else None
    case (Release(_), Relaying(_, _, _, _, left)) => if left == 0 then Some(AfterRelease(s, t, st, k, sk)) else None
    case (PumpUnpooled(_, up, down), Unpooled(_)) =>
      if sk.readPos + down <= |sk.sent|
      then Some(Put(s, t, st, k, sk.(received := sk.received + up, readPos := sk.readPos + down))) else None
    case _ => None
  }
}
