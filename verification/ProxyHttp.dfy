/** One inbound HTTP stream from its request to its end (`proxy_http`): a socket from the pool or a new one, the
    request's head, and the path that its shape calls for. */
module ProxyHttp {
  import opened Options
  import opened Octets
  import opened Http1
  import opened Shapes
  import opened RequestHead
  import opened Streams
  import opened HeadReader
  import opened Pumps
  import opened Pool
  import opened Proxy
  import opened Poolable

  /** A socket to the origin. */
  class Connection {
    const read: Source
    const write: Sink

    constructor (read: Source, write: Sink)
      ensures this.read == read && this.write == write
    {
      this.read, this.write := read, write;
    }
  }

  /** What connecting to the origin comes to, should it be needed. */
  datatype Connect = Established(socket: Connection) | ConnectRefused | ConnectTimedOut

  function SocketOf(c: Connect): Option<Connection> { if c.Established? then Some(c.socket) else None }

  /** The socket is open, and shares nothing with the stream to the edge. */
  predicate Usable(c: Connection, fromEdge: Source, toEdge: EdgeWriter)
    reads c.read, c.write
  {
    c.read.Valid() && !c.write.broken && c.read != fromEdge && c.write != toEdge.body
  }

  /** The request's header fields, all of which keep it on the pooled path. */
  ghost predicate KeepsAlive(req: ConnectRequest) {
    forall f: Field | ("HttpHeader:" + f.name, f.value) in req.metadata :: Keeps(f)
  }

  /** `write_error_response` */
  method WriteErrorResponse(toEdge: EdgeWriter, status: Bytes, message: Bytes) returns (ok: bool)
    modifies toEdge`frame
    ensures ok == toEdge.takesFrame
    ensures ok ==> toEdge.frame == Some(Frame(message, [("HttpStatus", status)]))
  {
    ok := toEdge.WriteFrame(Frame(message, [(HTTP_STATUS_KEY, status)]));
  }

  /** The sockets that the stream may use. */
  function Sockets(idle: seq<Idle<Connection>>, connect: Connect): set<Connection> {
    (set e <- idle :: e.stream) + if connect.Established? then {connect.socket} else {}
  }

  /** A socket for the stream: the newest idle one if it is fresh, else a new one. */
  method TakeSocket(pool: Pool<Connection>, clock: Clock, connect: Connect)
    returns (socket: Option<Connection>, ghost first: nat)
    requires pool.Valid(clock)
    modifies pool, clock
    ensures pool.Valid(clock) && old(clock.now) <= first <= clock.now
    ensures pool.idle == Acquired(old(pool.idle), pool.idleTtl, first).idle
    ensures socket == if Acquired(old(pool.idle), pool.idleTtl, first).stream.Some?
                      then Acquired(old(pool.idle), pool.idleTtl, first).stream else SocketOf(connect)
    ensures socket.Some? ==> socket.value in Sockets(old(pool.idle), connect)
  {
    ghost var idle := pool.idle;
    socket, first := pool.Acquire(clock, SocketOf(connect));
    if idle != [] { assert idle[|idle| - 1] in idle; }
  }

  /** Where everything stands before an exchange. */
  datatype Before = Before(edgePos: nat, written: Bytes, pos: nat, turn: nat, bytesIn: U64, bytesOut: U64)

  ghost function Now(fromEdge: Source, c: Connection, bytesIn: AtomicU64, bytesOut: AtomicU64): Before
    reads fromEdge, c.read, c.write, bytesIn, bytesOut
  {
    Before(fromEdge.pos, c.write.written, c.read.pos, c.read.turn, bytesIn.value, bytesOut.value)
  }

  /** The head, asking to keep the socket alive, and the body of the declared length went to the origin, and the body
      was counted; what the pooled path makes of the answer went to the edge, if the edge takes it. */
  ghost predicate ServedPooled(req: ConnectRequest, was: Before, fromEdge: Source, toEdge: EdgeWriter, c: Connection,
                               bytesIn: AtomicU64, bytesOut: AtomicU64, run: HeadRun)
    reads fromEdge, toEdge, toEdge.body, c.read, c.write, bytesIn, bytesOut
  {
    var n := ForwardedLength(ShapeOf(HeaderFields(req.metadata), false));
    && was.edgePos + n <= |fromEdge.data| && was.pos <= |c.read.data|
    && c.write.written == was.written + HeadFor(req, true) + fromEdge.data[was.edgePos..was.edgePos + n]
    && bytesIn.value == Wrap(was.bytesIn + n)
    && run == HeadAt(c.read.data, c.read.schedule, was.pos, was.turn)
    && (!toEdge.body.broken ==>
          Served(toEdge, PooledDelivery(c.read.data, c.read.schedule, run), was.bytesOut, bytesOut) && toEdge.closed)
  }

  /** The head, asking to close the socket, went to the origin, and then whatever came from the edge; what the fallback
      makes of the answer went to the edge. */
  ghost predicate ServedBidi(req: ConnectRequest, was: Before, toEdge: EdgeWriter, c: Connection,
                             bytesOut: AtomicU64, run: HeadRun)
    reads toEdge, toEdge.body, c.read, c.write, bytesOut
  {
    && was.pos <= |c.read.data| && was.written + HeadFor(req, false) <= c.write.written
    && run == HeadAt(c.read.data, c.read.schedule, was.pos, was.turn)
    && Served(toEdge, BidiDelivery(c.read.data, c.read.schedule, run), was.bytesOut, bytesOut) && toEdge.closed
  }

  /** The ends of the exchange do not fail: all reads succeed, and all that is written is taken. */
  ghost predicate Smooth(fromEdge: Source, toEdge: EdgeWriter, c: Connection) {
    Reliable(fromEdge.schedule) && Willing(toEdge) && Reliable(c.read.schedule) && c.write.room == None
  }

  /** The whole request body is there, and the whole of a framed answer. */
  ghost predicate CanPooled(req: ConnectRequest, was: Before, fromEdge: Source, c: Connection) {
    && was.edgePos + ForwardedLength(ShapeOf(HeaderFields(req.metadata), false)) <= |fromEdge.data|
    && was.pos <= |c.read.data|
    && PooledDelivery(c.read.data, c.read.schedule, HeadAt(c.read.data, c.read.schedule, was.pos, was.turn)).Some?
  }

  /** The head of the answer is accepted, and the end is met. */
  ghost predicate CanBidi(was: Before, c: Connection) {
    && was.pos <= |c.read.data|
    && BidiDelivery(c.read.data, c.read.schedule, HeadAt(c.read.data, c.read.schedule, was.pos, was.turn)).Some?
  }

  /** The pooled path, from the head on. */
  method ExchangePooled(req: ConnectRequest, shape: Shape, fromEdge: Source, toEdge: EdgeWriter, c: Connection,
                        bytesIn: AtomicU64, bytesOut: AtomicU64, pool: Pool<Connection>, clock: Clock)
    returns (ok: bool, ghost run: HeadRun)
    requires shape == ShapeOf(HeaderFields(req.metadata), false)
    requires pool.Valid(clock) && fromEdge.Valid() && bytesIn != bytesOut && Usable(c, fromEdge, toEdge)
    requires !toEdge.body.broken && toEdge.body.written == []
    modifies fromEdge, toEdge, toEdge.body, c.read, c.write, bytesIn, bytesOut, pool, clock
    ensures pool.Valid(clock)
    ensures ok ==>
              ServedPooled(req, old(Now(fromEdge, c, bytesIn, bytesOut)), fromEdge, toEdge, c, bytesIn, bytesOut, run)
    ensures Smooth(fromEdge, toEdge, c) ==>
              (ok <==> CanPooled(req, old(Now(fromEdge, c, bytesIn, bytesOut)), fromEdge, c))
    ensures pool.idle == if ok && run.outcome.HeadOk? && PoolableResponse(ResponseShape(run.outcome.head))
                         then Released(old(pool.idle), pool.maxIdle, c, clock.now) else old(pool.idle)
  {
    hide HeadFor, PooledDelivery, ResponseShape, FrameOf, ReadHead, ShapeOf, HeaderFields, Wrap;
    run := HeadAt(c.read.data, c.read.schedule, c.read.pos, c.read.turn);
    var head := BuildRequestHead(req, true);
    ok := c.write.WriteAll(head);
    if !ok { return; }
    ok, run := RunPooled(shape, fromEdge, toEdge, c.read, c.write, bytesIn, bytesOut, pool, clock, c);
  }

  /** The fallback, from the head on. */
  method ExchangeBidi(req: ConnectRequest, fromEdge: Source, toEdge: EdgeWriter, c: Connection,
                      bytesIn: AtomicU64, bytesOut: AtomicU64)
    returns (ok: bool, ghost run: HeadRun)
    requires fromEdge.Valid() && bytesIn != bytesOut && Usable(c, fromEdge, toEdge)
    requires !toEdge.body.broken && toEdge.body.written == []
    modifies fromEdge, toEdge, toEdge.body, c.read, c.write, bytesIn, bytesOut
    ensures ok ==> ServedBidi(req, old(Now(fromEdge, c, bytesIn, bytesOut)), toEdge, c, bytesOut, run)
    ensures Smooth(fromEdge, toEdge, c) ==> (ok <==> CanBidi(old(Now(fromEdge, c, bytesIn, bytesOut)), c))
  {
    hide HeadFor, BidiDelivery, FrameOf, ReadHead, Wrap;
    run := HeadAt(c.read.data, c.read.schedule, c.read.pos, c.read.turn);
    var head := BuildRequestHead(req, false);
    ghost var before := c.write.written;
    ok := c.write.WriteAll(head);
    if !ok { return; }
    ghost var late;
    ghost var from := fromEdge.pos;
    ok, run, late := RunBidi(fromEdge, toEdge, c.read, c.write, bytesIn, bytesOut);
    MovedGrows(fromEdge.data, from, fromEdge.pos - from, late, before + head, c.write.written);
  }

  lemma MovedGrows(data: Bytes, from: nat, k: nat, late: nat, was: Bytes, now: Bytes)
    requires late <= k && from + k <= |data| && was + data[from..from + k - late] <= now
    ensures was <= now
  {
  }

  /** The whole stream. Without a socket the edge is told 502 or 504. With one, the stream takes the pooled path exactly
      if its header fields keep it there, and the socket goes back to the pool exactly if it did, succeeded, and the
      answer was framed. With ends that do not fail it succeeds exactly if all that it needs is there. */
  method ProxyHttp(req: ConnectRequest, fromEdge: Source, toEdge: EdgeWriter, pool: Pool<Connection>, clock: Clock,
                   connect: Connect, bytesIn: AtomicU64, bytesOut: AtomicU64, message: Bytes)
    returns (ok: bool, socket: Option<Connection>, ghost first: nat, ghost run: HeadRun)
    requires pool.Valid(clock) && fromEdge.Valid() && bytesIn != bytesOut
    requires !toEdge.body.broken && toEdge.body.written == []
    requires forall c <- Sockets(pool.idle, connect) :: Usable(c, fromEdge, toEdge)
    modifies fromEdge, toEdge, toEdge.body, pool, clock, bytesIn, bytesOut
    modifies set c <- Sockets(pool.idle, connect) :: c.read, set c <- Sockets(pool.idle, connect) :: c.write
    ensures pool.Valid(clock)
    ensures socket == if Acquired(old(pool.idle), pool.idleTtl, first).stream.Some?
                      then Acquired(old(pool.idle), pool.idleTtl, first).stream else SocketOf(connect)
    ensures socket.None? ==>
              && pool.idle == [] && ok == toEdge.takesFrame
              && bytesIn.value == old(bytesIn.value) && bytesOut.value == old(bytesOut.value)
              && (ok ==> toEdge.frame ==
                           Some(Frame(message, [("HttpStatus", if connect.ConnectRefused? then "502" else "504")])))
    ensures socket.Some? && ok ==>
              var was := old(Now(fromEdge, socket.value, bytesIn, bytesOut));
              if KeepsAlive(req) then ServedPooled(req, was, fromEdge, toEdge, socket.value, bytesIn, bytesOut, run)
              else ServedBidi(req, was, toEdge, socket.value, bytesOut, run)
    ensures socket.Some? && Smooth(fromEdge, toEdge, socket.value) ==>
              var was := old(Now(fromEdge, socket.value, bytesIn, bytesOut));
              (ok <==> if KeepsAlive(req) then CanPooled(req, was, fromEdge, socket.value)
                       else CanBidi(was, socket.value))
    ensures socket.Some? ==>
              var idle := Acquired(old(pool.idle), pool.idleTtl, first).idle;
              pool.idle == if && ok && KeepsAlive(req)
                              && run.outcome.HeadOk? && PoolableResponse(ResponseShape(run.outcome.head))
                           then Released(idle, pool.maxIdle, socket.value, clock.now) else idle
  {
    hide ServedPooled, ServedBidi, CanPooled, CanBidi, Smooth;
    hide ResponseShape, ShapeOf, HeaderFields, Keeps, Released, PoolableResponse;
    run := HeadRun(HeadError, 0, 0);
    RequestPoolable(req);
    var shape := AnalyseRequest(req);
    socket, first := TakeSocket(pool, clock, connect);
    if socket.None? {
      var status := if connect.ConnectRefused? then "502" else "504";
      ok := WriteErrorResponse(toEdge, status, message);
      return;
    }
    assert Usable(socket.value, fromEdge, toEdge);
    if PoolableRequest(shape) {
      ok, run := ExchangePooled(req, shape, fromEdge, toEdge, socket.value, bytesIn, bytesOut, pool, clock);
    } else {
      ok, run := ExchangeBidi(req, fromEdge, toEdge, socket.value, bytesIn, bytesOut);
    }
  }
}
