/** One proxied exchange: the framed path over a pooled socket (`run_pooled`) and the fallback that pumps
    to the end of the stream (`run_bidi`). */
module Proxy {
  import opened Options
  import opened Octets
  import opened Http1
  import opened Shapes
  import opened RequestHead
  import opened Streams
  import opened HeadReader
  import opened Pumps
  import opened Pool

  /** The response frame to the edge, before it is encoded. */
  datatype Frame = Frame(error: Bytes, metadata: seq<(Bytes, Bytes)>)

  const HTTP_STATUS_KEY: Bytes := "HttpStatus"

  function Decimal(n: nat): Bytes {
    (if n < 10 then [] else Decimal(n / 10)) + [('0' as int + n % 10) as char]
  }

  function MetaOf(f: Field): (Bytes, Bytes) { (HEADER_PREFIX + f.name, f.value) }

  function Status(head: Head): nat { if head.start.StatusLine? then head.start.status else 0 }

  function MetaOfAll(fs: seq<Field>): seq<(Bytes, Bytes)> { seq(|fs|, i requires 0 <= i < |fs| => MetaOf(fs[i])) }

  function StatusMeta(head: Head): (Bytes, Bytes) { (HTTP_STATUS_KEY, Decimal(Status(head))) }

  function FrameOf(head: Head): Frame { Frame("", [StatusMeta(head)] + MetaOfAll(head.fields)) }

  function ResponseShape(head: Head): Shape { ShapeOf(head.fields, Status(head) == 101) }

  lemma {:induction false} DecimalReads(n: nat)
    ensures IsNumeral(Decimal(n)) && DigitsValue(Decimal(n)) == n
  {
    if n >= 10 { DecimalReads(n / 10); }
    var d := Decimal(n);
    assert d[..|d| - 1] == if n < 10 then [] else Decimal(n / 10);
  }

  lemma {:induction false} MetaCarriesFields(status: (Bytes, Bytes), fs: seq<Field>)
    requires !IsHeader(status.0)
    ensures HeaderFields([status] + MetaOfAll(fs)) == fs
    decreases |fs|
  {
    var metadata := [status] + MetaOfAll(fs);
    var n := |fs|;
    if n == 0 {
      assert metadata == [status];
      assert metadata[..0] == [];
    } else {
      MetaCarriesFields(status, fs[..n - 1]);
      assert metadata[..n] == [status] + MetaOfAll(fs[..n - 1]);
      MetaHoldsField(fs[n - 1]);
    }
  }

  lemma MetaHoldsField(f: Field)
    ensures IsHeader(MetaOf(f).0) && HeaderOf(MetaOf(f)) == f
  {
  }

  lemma StatusIsNoHeader()
    ensures !IsHeader(HTTP_STATUS_KEY)
  {
    assert HTTP_STATUS_KEY[4] != HEADER_PREFIX[4];
  }

  lemma FrameByIndex(head: Head)
    ensures var frame := FrameOf(head);
            && frame.error == "" && |frame.metadata| == |head.fields| + 1 && frame.metadata[0].0 == "HttpStatus"
            && forall i | 0 <= i < |head.fields| ::
                 frame.metadata[i + 1] == ("HttpHeader:" + head.fields[i].name, head.fields[i].value)
  {
    hide Decimal;
  }

  /** The frame tells the edge the head: it reports no error, and read as metadata is read, it gives the status and all
      fields in order. */
  lemma FrameCarriesHead(head: Head)
    ensures HeaderFields(FrameOf(head).metadata) == head.fields
    ensures var status := Meta(FrameOf(head).metadata, HTTP_STATUS_KEY);
            status.Some? && IsNumeral(status.value) && DigitsValue(status.value) == Status(head)
    ensures var frame := FrameOf(head);
            && frame.error == "" && |frame.metadata| == |head.fields| + 1 && frame.metadata[0].0 == "HttpStatus"
            && forall i | 0 <= i < |head.fields| ::
                 frame.metadata[i + 1] == ("HttpHeader:" + head.fields[i].name, head.fields[i].value)
  {
    FrameByIndex(head);
    hide HeaderFields, MetaOfAll, Decimal;
    DecimalReads(Status(head));
    StatusIsNoHeader();
    MetaCarriesFields(StatusMeta(head), head.fields);
  }

  /** The writing half of a stream to the edge: one frame, then the body. */
  class EdgeWriter {
    const body: Sink
    const takesFrame: bool
    const takesClose: bool
    var frame: Option<Frame>
    var closed: bool

    constructor (body: Sink, takesFrame: bool, takesClose: bool)
      ensures this.body == body && frame == None && !closed
      ensures this.takesFrame == takesFrame && this.takesClose == takesClose
    {
      this.body, this.takesFrame, this.takesClose := body, takesFrame, takesClose;
      frame, closed := None, false;
    }

    method WriteFrame(f: Frame) returns (ok: bool)
      modifies `frame
      ensures ok == takesFrame && frame == if ok then Some(f) else old(frame)
    {
      if takesFrame { frame := Some(f); }
      ok := takesFrame;
    }

    method Close() returns (ok: bool)
      modifies `closed
      ensures ok == takesClose && (ok ==> closed)
    {
      closed, ok := takesClose, takesClose;
    }
  }

  // ── What a successful exchange delivers ──

  datatype Delivery = Delivery(frame: Frame, body: Bytes)

  /** Everything that the pooled path takes from the socket, which it reads from `start` on: up to where. */
  function PooledEnd(data: Bytes, schedule: Schedule, run: HeadRun): nat
    requires run.outcome.HeadOk? && run.pos <= |data|
  {
    var shape := ResponseShape(run.outcome.head);
    if PoolableResponse(shape) then run.pos + Monus(shape.contentLength.value, |run.outcome.leftover|)
    else DrainStop(data, schedule, run.pos, run.turn).pos
  }

  /** `saturating_sub` */
  function Monus(a: nat, b: nat): nat { if a <= b then 0 else a - b }

  /** What the pooled path delivers, if it succeeds, once the head reader is done. */
  function PooledDelivery(data: Bytes, schedule: Schedule, run: HeadRun): Option<Delivery>
    requires run.pos <= |data|
  {
    if run.outcome.HeadError? || PooledEnd(data, schedule, run) > |data| then None
    else Some(Delivery(FrameOf(run.outcome.head),
                       run.outcome.leftover + data[run.pos..PooledEnd(data, schedule, run)]))
  }

  /** What the fallback delivers, if it succeeds, once the head reader is done. */
  function BidiDelivery(data: Bytes, schedule: Schedule, run: HeadRun): Option<Delivery>
    requires run.pos <= |data|
  {
    if run.outcome.HeadError? || !DrainStop(data, schedule, run.pos, run.turn).atEnd then None
    else Some(Delivery(FrameOf(run.outcome.head), run.outcome.leftover + data[run.pos..|data|]))
  }

  /** The head reader on a socket that is at `start`. */
  function HeadAt(data: Bytes, schedule: Schedule, start: nat, turn: nat): (r: HeadRun)
    requires start <= |data|
    ensures start <= r.pos <= |data|
  {
    ReadHead(data, schedule, start, start, turn)
  }

  ghost predicate Delivered(edge: EdgeWriter, d: Option<Delivery>)
    reads edge, edge.body
  {
    edge.frame.Some? && d == Some(Delivery(edge.frame.value, edge.body.written))
  }

  /** The edge takes whatever it is sent. */
  predicate Willing(edge: EdgeWriter) { edge.takesFrame && edge.takesClose && edge.body.room == None }

  // ── The exchanges ──

  /** Echo status and headers, then the octets read past the head. */
  method EchoHead(toEdge: EdgeWriter, head: Head, leftover: Bytes, bytesOut: AtomicU64) returns (ok: bool)
    requires !toEdge.body.broken
    modifies toEdge`frame, toEdge.body, bytesOut
    ensures ok ==> !toEdge.body.broken && toEdge.frame == Some(FrameOf(head))
    ensures ok ==> toEdge.body.written == old(toEdge.body.written) + leftover
    ensures ok ==> bytesOut.value == Wrap(old(bytesOut.value) + |leftover|)
    ensures Willing(toEdge) ==> ok
  {
    var meta: seq<(Bytes, Bytes)> := [(HTTP_STATUS_KEY, Decimal(Status(head)))];
    for i := 0 to |head.fields|
      invariant meta == FrameOf(head.(fields := head.fields[..i])).metadata
    {
      meta := meta + [MetaOf(head.fields[i])];
    }
    assert head.fields[..|head.fields|] == head.fields;
    ok := toEdge.WriteFrame(Frame("", meta));
    if !ok { return; }
    if leftover != [] {
      ok := toEdge.body.WriteAll(leftover);
      if !ok { return; }
      bytesOut.FetchAdd(|leftover|);
    }
  }

  lemma WrapTwice(a: nat, b: nat, c: nat)
    ensures Wrap(Wrap(a + b) + c) == Wrap(a + (b + c))
  {
    WrapAdd(a + b, c);
  }

  /** The head that `run` read has been echoed with what was read past it, and the socket is where `run` left it. */
  ghost predicate Opened(tcpRead: Source, edge: EdgeWriter, run: HeadRun, counted: U64, bytesOut: AtomicU64)
    reads tcpRead, edge, edge.body, bytesOut
  {
    && tcpRead.Valid() && run.pos == tcpRead.pos && run.turn == tcpRead.turn
    && run.outcome.HeadOk? && edge.frame == Some(FrameOf(run.outcome.head))
    && !edge.body.broken && edge.body.written == run.outcome.leftover
    && bytesOut.value == Wrap(counted + |run.outcome.leftover|)
  }

  /** `d` has been delivered and counted. */
  ghost predicate Served(edge: EdgeWriter, d: Option<Delivery>, counted: U64, bytesOut: AtomicU64)
    reads edge, edge.body, bytesOut
  {
    Delivered(edge, d) && bytesOut.value == Wrap(counted + |d.value.body|)
  }

  /** Read the head and echo it: the first half of every response. */
  method OpenResponse(tcpRead: Source, toEdge: EdgeWriter, bytesOut: AtomicU64)
    returns (answer: Option<HeadOutcome>, ghost run: HeadRun)
    requires tcpRead.Valid() && !toEdge.body.broken && toEdge.body.written == []
    modifies tcpRead, toEdge`frame, toEdge.body, bytesOut
    ensures tcpRead.Valid()
    ensures run == HeadAt(tcpRead.data, tcpRead.schedule, old(tcpRead.pos), old(tcpRead.turn))
    ensures answer.Some? ==>
              answer.value == run.outcome && Opened(tcpRead, toEdge, run, old(bytesOut.value), bytesOut)
    ensures Willing(toEdge) ==> (answer.Some? <==> run.outcome.HeadOk?)
  {
    var read := ReadHttpResponseHead(tcpRead);
    run := HeadRun(read, tcpRead.pos, tcpRead.turn);
    if read.HeadError? { return None, run; }
    var ok := EchoHead(toEdge, read.head, read.leftover, bytesOut);
    answer := if ok then Some(read) else None;
  }

  /** The rest of a framed body. */
  method RelayRest(tcpRead: Source, toEdge: EdgeWriter, bytesOut: AtomicU64, total: nat, over: nat,
                   ghost run: HeadRun, ghost counted: U64)
    returns (ok: bool)
    requires Opened(tcpRead, toEdge, run, counted, bytesOut) && over == |run.outcome.leftover|
    requires PoolableResponse(ResponseShape(run.outcome.head))
    requires total == ResponseShape(run.outcome.head).contentLength.value
    modifies tcpRead, toEdge`closed, toEdge.body, bytesOut
    ensures tcpRead.Valid()
    ensures ok ==>
              && !toEdge.body.broken && toEdge.closed
              && tcpRead.pos == PooledEnd(tcpRead.data, tcpRead.schedule, run)
              && Served(toEdge, PooledDelivery(tcpRead.data, tcpRead.schedule, run), counted, bytesOut)
    ensures Willing(toEdge) && Reliable(tcpRead.schedule) ==>
              (ok <==> PooledDelivery(tcpRead.data, tcpRead.schedule, run).Some?)
  {
    hide FrameOf, ResponseShape, Wrap, DrainStop;
    var remaining := Monus(total, over);
    if remaining > 0 {
      var r, _ := PumpN(tcpRead, toEdge.body, remaining, bytesOut);
      if r != Done { return false; }
    } else {
      assert run.outcome.leftover + tcpRead.data[run.pos..tcpRead.pos] == run.outcome.leftover;
    }
    ok := toEdge.Close();
    WrapTwice(counted, over, tcpRead.pos - run.pos);
  }

  /** The rest of an unframed body: drain to the end and ignore how the drain went. */
  method DrainRest(tcpRead: Source, toEdge: EdgeWriter, bytesOut: AtomicU64, ghost run: HeadRun, ghost counted: U64)
    returns (ok: bool)
    requires Opened(tcpRead, toEdge, run, counted, bytesOut)
    requires !PoolableResponse(ResponseShape(run.outcome.head))
    modifies tcpRead, toEdge`closed, toEdge.body, bytesOut
    ensures tcpRead.Valid()
    ensures ok ==> toEdge.closed
    ensures toEdge.takesClose ==> ok
    ensures ok && !toEdge.body.broken ==>
              Served(toEdge, PooledDelivery(tcpRead.data, tcpRead.schedule, run), counted, bytesOut)
  {
    hide FrameOf, ResponseShape, Wrap, DrainStop;
    var _, _ := PumpAll(tcpRead, toEdge.body, bytesOut);
    ok := toEdge.Close();
    WrapTwice(counted, |run.outcome.leftover|, tcpRead.pos - run.pos);
  }

  /** The response half of `run_pooled`: open the response, relay its body, and say whether the socket is
      to be released. */
  method ServeResponse(tcpRead: Source, toEdge: EdgeWriter, bytesOut: AtomicU64)
    returns (ok: bool, release: bool, ghost run: HeadRun)
    requires tcpRead.Valid() && !toEdge.body.broken && toEdge.body.written == []
    modifies tcpRead, toEdge, toEdge.body, bytesOut
    ensures tcpRead.Valid()
    ensures run == HeadAt(tcpRead.data, tcpRead.schedule, old(tcpRead.pos), old(tcpRead.turn))
    ensures ok ==> run.outcome.HeadOk? && (release <==> PoolableResponse(ResponseShape(run.outcome.head)))
    ensures release ==> ok && !toEdge.body.broken && tcpRead.pos == PooledEnd(tcpRead.data, tcpRead.schedule, run)
    ensures ok && !toEdge.body.broken ==>
              && Served(toEdge, PooledDelivery(tcpRead.data, tcpRead.schedule, run), old(bytesOut.value), bytesOut)
              && toEdge.closed
    ensures Willing(toEdge) && Reliable(tcpRead.schedule) ==>
              (ok <==> PooledDelivery(tcpRead.data, tcpRead.schedule, run).Some?)
  {
    release := false;
    var answer;
    answer, run := OpenResponse(tcpRead, toEdge, bytesOut);
    if answer.None? { return false, false, run; }
    var HeadOk(head, leftover) := answer.value;
    var shape := AnalyseResponse(Status(head), head.fields);
    if PoolableResponse(shape) {
      ok := RelayRest(tcpRead, toEdge, bytesOut, shape.contentLength.value, |leftover|, run, old(bytesOut.value));
      release := ok;
    } else {
      ok := DrainRest(tcpRead, toEdge, bytesOut, run, old(bytesOut.value));
    }
  }

  /** `run_pooled`: forward the request body, serve the response, and release the socket if the response was framed. */
  method RunPooled<S>(shape: Shape, fromEdge: Source, toEdge: EdgeWriter, tcpRead: Source, tcpWrite: Sink,
                      bytesIn: AtomicU64, bytesOut: AtomicU64, pool: Pool<S>, clock: Clock, socket: S)
    returns (ok: bool, ghost run: HeadRun)
    requires fromEdge != tcpRead && toEdge.body != tcpWrite && bytesIn != bytesOut
    requires fromEdge.Valid() && tcpRead.Valid() && pool.Valid(clock)
    requires !tcpWrite.broken && !toEdge.body.broken && toEdge.body.written == []
    modifies fromEdge, toEdge, toEdge.body, tcpRead, tcpWrite, bytesIn, bytesOut, pool, clock
    ensures pool.Valid(clock)
    ensures ok ==>
              var n := ForwardedLength(shape);
              && old(fromEdge.pos) + n <= |fromEdge.data|
              && tcpWrite.written == old(tcpWrite.written) + fromEdge.data[old(fromEdge.pos)..old(fromEdge.pos) + n]
              && bytesIn.value == Wrap(old(bytesIn.value) + n)
    ensures run == HeadAt(tcpRead.data, tcpRead.schedule, old(tcpRead.pos), old(tcpRead.turn))
    ensures ok && !toEdge.body.broken ==>
              && Served(toEdge, PooledDelivery(tcpRead.data, tcpRead.schedule, run), old(bytesOut.value), bytesOut)
              && toEdge.closed
    ensures if ok && run.outcome.HeadOk? && PoolableResponse(ResponseShape(run.outcome.head))
            then pool.idle == Released(old(pool.idle), pool.maxIdle, socket, clock.now)
              && tcpRead.pos == PooledEnd(tcpRead.data, tcpRead.schedule, run)
            else pool.idle == old(pool.idle)
    ensures Willing(toEdge) && Reliable(tcpRead.schedule) && Reliable(fromEdge.schedule) && tcpWrite.room == None ==>
              (ok <==> && old(fromEdge.pos) + ForwardedLength(shape) <= |fromEdge.data|
                       && PooledDelivery(tcpRead.data, tcpRead.schedule, run).Some?)
  {
    run := HeadAt(tcpRead.data, tcpRead.schedule, tcpRead.pos, tcpRead.turn);
    ok := ForwardBody(shape, fromEdge, tcpWrite, bytesIn);
    if !ok { return; }
    var release;
    ok, release, run := ServeResponse(tcpRead, toEdge, bytesOut);
    if release {
      pool.Release(clock, socket);
    }
  }

  /** The request body: exactly Content-Length octets, or none. */
  method ForwardBody(shape: Shape, fromEdge: Source, tcpWrite: Sink, bytesIn: AtomicU64) returns (ok: bool)
    requires fromEdge.Valid() && !tcpWrite.broken
    modifies fromEdge, tcpWrite, bytesIn
    ensures ok ==>
              var n := ForwardedLength(shape);
              && old(fromEdge.pos) + n <= |fromEdge.data|
              && tcpWrite.written == old(tcpWrite.written) + fromEdge.data[old(fromEdge.pos)..old(fromEdge.pos) + n]
              && bytesIn.value == Wrap(old(bytesIn.value) + n)
    ensures Reliable(fromEdge.schedule) && tcpWrite.room == None ==>
              (ok <==> old(fromEdge.pos) + ForwardedLength(shape) <= |fromEdge.data|)
  {
    var n := ForwardedLength(shape);
    if n > 0 {
      var r, _ := PumpN(fromEdge, tcpWrite, n, bytesIn);
      return r == Done;
    }
    ok := true;
  }

  /** `run_bidi`. The two halves share no object, so the order in which they run does not matter. */
  method RunBidi(fromEdge: Source, toEdge: EdgeWriter, tcpRead: Source, tcpWrite: Sink,
                 bytesIn: AtomicU64, bytesOut: AtomicU64)
    returns (ok: bool, ghost run: HeadRun, ghost late: nat)
    requires fromEdge != tcpRead && toEdge.body != tcpWrite && bytesIn != bytesOut
    requires fromEdge.Valid() && tcpRead.Valid()
    requires !tcpWrite.broken && !toEdge.body.broken && toEdge.body.written == []
    modifies fromEdge, toEdge, toEdge.body, tcpRead, tcpWrite, bytesIn, bytesOut
    ensures !tcpWrite.broken ==>
              fromEdge.pos == DrainStop(fromEdge.data, fromEdge.schedule, old(fromEdge.pos), old(fromEdge.turn)).pos
    ensures fromEdge.Valid() && old(fromEdge.pos) <= fromEdge.pos
    ensures Moved(fromEdge.data, old(fromEdge.pos), fromEdge.pos - old(fromEdge.pos), late,
                  old(tcpWrite.written), tcpWrite.written, old(bytesIn.value), bytesIn.value)
    ensures late > 0 <==> tcpWrite.broken
    ensures run == HeadAt(tcpRead.data, tcpRead.schedule, old(tcpRead.pos), old(tcpRead.turn))
    ensures ok ==>
              && Served(toEdge, BidiDelivery(tcpRead.data, tcpRead.schedule, run), old(bytesOut.value), bytesOut)
              && toEdge.closed
    ensures Willing(toEdge) ==> (ok <==> BidiDelivery(tcpRead.data, tcpRead.schedule, run).Some?)
  {
    var up;
    up, late := PumpAll(fromEdge, tcpWrite, bytesIn);
    ok, run := BidiResponseHalf(tcpRead, toEdge, bytesOut);
    if ok { ok := toEdge.Close(); }
  }

  /** The half of `run_bidi` that carries the response. */
  method BidiResponseHalf(tcpRead: Source, toEdge: EdgeWriter, bytesOut: AtomicU64)
    returns (ok: bool, ghost run: HeadRun)
    requires tcpRead.Valid() && !toEdge.body.broken && toEdge.body.written == []
    modifies tcpRead, toEdge`frame, toEdge.body, bytesOut
    ensures run == HeadAt(tcpRead.data, tcpRead.schedule, old(tcpRead.pos), old(tcpRead.turn))
    ensures ok ==>
              Served(toEdge, BidiDelivery(tcpRead.data, tcpRead.schedule, run), old(bytesOut.value), bytesOut)
    ensures Willing(toEdge) ==> (ok <==> BidiDelivery(tcpRead.data, tcpRead.schedule, run).Some?)
  {
    hide FrameOf, ResponseShape, Wrap, DrainStop, ReadHead;
    var answer;
    answer, run := OpenResponse(tcpRead, toEdge, bytesOut);
    if answer.None? { return false, run; }
    var r, _ := PumpAll(tcpRead, toEdge.body, bytesOut);
    ok := r == Done;
    WrapTwice(old(bytesOut.value), |run.outcome.leftover|, tcpRead.pos - run.pos);
  }

  // ── The two paths compared ──

  /** The pooled path as a reader of a whole stream. */
  function PooledResponse(data: Bytes, schedule: Schedule): Option<Delivery> {
    PooledDelivery(data, schedule, HeadAt(data, schedule, 0, 0))
  }

  function BidiResponse(data: Bytes, schedule: Schedule): Option<Delivery> {
    BidiDelivery(data, schedule, HeadAt(data, schedule, 0, 0))
  }

  /** The whole stream as one response: its head, and everything after it. */
  function WholeResponse(data: Bytes, head: Head, c: nat): Delivery
    requires c <= |data|
  {
    Delivery(FrameOf(head), data[c..|data|])
  }

  lemma RunOfHead(data: Bytes, schedule: Schedule, head: Head, c: nat)
    requires Begins(data, 0, head, c) && HeadAt(data, schedule, 0, 0).outcome.HeadOk?
    ensures SoundHead(data, 0, HeadAt(data, schedule, 0, 0), c) && HeadAt(data, schedule, 0, 0).outcome.head == head
  {
    assert ParseHead(Response, data[0..0]).Partial?;
    var d := HeadReadSound(data, schedule, 0, 0, 0);
  }

  /** Leftover and relayed octets join up. */
  lemma Joined(data: Bytes, schedule: Schedule, head: Head, c: nat, end: nat)
    requires Begins(data, 0, head, c) && HeadAt(data, schedule, 0, 0).outcome.HeadOk?
    requires HeadAt(data, schedule, 0, 0).pos <= end <= |data|
    ensures var run := HeadAt(data, schedule, 0, 0);
            run.outcome.head == head && c <= run.pos && |run.outcome.leftover| == run.pos - c
            && run.outcome.leftover + data[run.pos..end] == data[c..end]
  {
    hide ParseHead, HeadAt, ReadHead;
    RunOfHead(data, schedule, head, c);
    var mid := HeadAt(data, schedule, 0, 0).pos;
    assert data[c..mid] + data[mid..end] == data[c..end];
  }

  /** The pooled path stopped at the end of the stream, not at a read that failed while it drained. */
  ghost predicate DrainsClean(data: Bytes, schedule: Schedule) {
    var run := HeadAt(data, schedule, 0, 0);
    DrainStop(data, schedule, run.pos, run.turn).atEnd
  }

  lemma PooledWhole(data: Bytes, head: Head, c: nat, fast: Schedule)
    requires Begins(data, 0, head, c) && PooledResponse(data, fast).Some?
    requires if PoolableResponse(ResponseShape(head))
             then ResponseShape(head).contentLength.value == |data| - c
             else DrainsClean(data, fast)
    ensures PooledResponse(data, fast).value == WholeResponse(data, head, c)
  {
    Joined(data, fast, head, c, |data|);
    assert PooledEnd(data, fast, HeadAt(data, fast, 0, 0)) == |data|;
  }

  /** The fast path refines the slow one. On a stream made of a head, exactly Content-Length octets if the
      head is poolable, and the end, whatever the two read schedules, both paths deliver the whole
      response if they succeed; for an unframed response this needs a drain that met the end. */
  lemma FastRefinesSlow(data: Bytes, head: Head, c: nat, fast: Schedule, slow: Schedule)
    requires Begins(data, 0, head, c)
    requires if PoolableResponse(ResponseShape(head))
             then ResponseShape(head).contentLength.value == |data| - c
             else DrainsClean(data, fast)
    ensures PooledResponse(data, fast).Some? ==> PooledResponse(data, fast).value == WholeResponse(data, head, c)
    ensures BidiResponse(data, slow).Some? ==> BidiResponse(data, slow).value == WholeResponse(data, head, c)
  {
    if PooledResponse(data, fast).Some? { PooledWhole(data, head, c, fast); }
    if BidiResponse(data, slow).Some? { Joined(data, slow, head, c, |data|); }
  }

  /** An unframed response is delivered whole by the pooled path if and only if no read of the drain fails before
      the last octet: `run_pooled` ignores a read that fails while it drains. */
  lemma UnframedDelivery(data: Bytes, head: Head, c: nat, fast: Schedule)
    requires Begins(data, 0, head, c) && !PoolableResponse(ResponseShape(head))
    requires HeadAt(data, fast, 0, 0).outcome.HeadOk?
    ensures var run := HeadAt(data, fast, 0, 0);
            (PooledResponse(data, fast) == Some(WholeResponse(data, head, c))
             <==> NoneFailsEarly(data, fast, run.pos, run.turn))
  {
    hide ParseHead, FrameOf, ReadHead, HeadAt, NoneFailsEarly;
    var run := HeadAt(data, fast, 0, 0);
    RunOfHead(data, fast, head, c);
    var end := PooledEnd(data, fast, run);
    Joined(data, fast, head, c, end);
    DrainReadsAll(data, fast, run.pos, run.turn);
    assert |data[c..end]| == end - c && |data[c..|data|]| == |data| - c;
  }

  /** What the pooled path delivers of an unframed response when all reads behind the head fail: its head. */
  lemma HeadAloneDelivered(data: Bytes, head: Head, c: nat)
    requires Begins(data, 0, head, c) && !PoolableResponse(ResponseShape(head)) && c <= MAX_HEADER_BYTES
    ensures PooledResponse(data, HeadOnly(c)) == Some(Delivery(FrameOf(head), []))
  {
    hide ParseHead, FrameOf, ReadHead;
    HeadAlone(data, 0, 0, 0, head, c);
    var run := HeadAt(data, HeadOnly(c), 0, 0);
    RunOfHead(data, HeadOnly(c), head, c);
    assert DrainStop(data, HeadOnly(c), run.pos, run.turn).pos == c;
    Joined(data, HeadOnly(c), head, c, c);
  }

  /** For which streams a success can be trusted: every success of the pooled path, under whatever schedule, has
      delivered the whole of an unframed response if and only if it has no body. */
  lemma UnframedTrusted(data: Bytes, head: Head, c: nat)
    requires Begins(data, 0, head, c) && !PoolableResponse(ResponseShape(head)) && c <= MAX_HEADER_BYTES
    ensures (forall s: Schedule | PooledResponse(data, s).Some? ::
               PooledResponse(data, s).value == WholeResponse(data, head, c))
       <==> |data| == c
  {
    hide ParseHead, FrameOf, ReadHead;
    if |data| == c {
      forall s: Schedule | PooledResponse(data, s).Some?
        ensures PooledResponse(data, s).value == WholeResponse(data, head, c)
      {
        RunOfHead(data, s, head, c);
        Joined(data, s, head, c, |data|);
      }
    } else {
      HeadAloneDelivered(data, head, c);
      assert |WholeResponse(data, head, c).body| == |data| - c;
    }
  }

  /** What a success of the pooled path delivers for a framed response: the body up to its length, or all
      that was read with the head if that was more. */
  lemma FramedDelivery(data: Bytes, head: Head, c: nat, schedule: Schedule)
    requires Begins(data, 0, head, c) && PoolableResponse(ResponseShape(head))
    requires PooledResponse(data, schedule).Some?
    ensures var n := ResponseShape(head).contentLength.value;
            var run := HeadAt(data, schedule, 0, 0);
            && run.outcome.HeadOk? && c + Max(n, |run.outcome.leftover|) <= |data|
            && PooledResponse(data, schedule).value
            == Delivery(FrameOf(head), data[c..c + Max(n, |run.outcome.leftover|)])
            && PooledEnd(data, schedule, run) == c + Max(n, |run.outcome.leftover|)
  {
    hide FrameOf, ParseHead, ReadHead, HeadAt;
    var run := HeadAt(data, schedule, 0, 0);
    RunOfHead(data, schedule, head, c);
    Joined(data, schedule, head, c, PooledEnd(data, schedule, run));
  }

  /** As many octets as can be read past a head of `c` octets. */
  function MostOver(data: Bytes, c: nat): nat
    requires c <= |data| && c <= MAX_HEADER_BYTES
  {
    Min(HEAD_CHUNK - 1, Min(|data| - c, MAX_HEADER_BYTES - c))
  }

  /** Exact delivery. For a framed response of length `n` that is all there, every success delivers exactly
      the `n` octets, under every schedule, if and only if no more than `n` octets can be read past the head. */
  lemma ExactDelivery(data: Bytes, head: Head, c: nat)
    requires Begins(data, 0, head, c) && c <= MAX_HEADER_BYTES && PoolableResponse(ResponseShape(head))
    requires c + ResponseShape(head).contentLength.value <= |data|
    ensures (forall s: Schedule | PooledResponse(data, s).Some? ::
               |PooledResponse(data, s).value.body| == ResponseShape(head).contentLength.value)
       <==> MostOver(data, c) <= ResponseShape(head).contentLength.value
  {
    var n := ResponseShape(head).contentLength.value;
    var m := MostOver(data, c);
    if m <= n {
      forall s: Schedule | PooledResponse(data, s).Some?
        ensures |PooledResponse(data, s).value.body| == n
      {
        FramedDelivery(data, head, c, s);
        RunOfHead(data, s, head, c);
      }
    } else {
      var s := Paced(c - 1, m + 1);
      LeftoverReached(data, 0, 0, 0, head, c, m);
      RunOfHead(data, s, head, c);
      FramedDelivery(data, head, c, s);
    }
  }

  /** A head that declares an empty body. */
  function EmptyBodyHead(): Head { Head(StatusLine(200), [Field("Content-Length", "0")]) }

  const OK_LINE: Bytes := "HTTP/1.1 200"

  lemma OkLineParses()
    ensures ParseStart(Response, OK_LINE) == Some(StatusLine(200)) && '\r' !in OK_LINE
  {
    assert OK_LINE[9..12] == ['2', '0', '0'] && OK_LINE[..9] == "HTTP/1.1 ";
    assert ['2', '0', '0'][..2] == ['2', '0'] && ['2', '0'][..1] == ['2'] && ['2'][..0] == [];
    assert DigitsValue(['2']) == 2 && DigitsValue(['2', '0']) == 20;
  }

  lemma EmptyBodyField(f: Field)
    requires f == EmptyBodyHead().fields[0]
    ensures RoleOf(f.name) == ContentLength && f.value == ['0'] && ParseU64(f.value) == Some(0)
  {
    assert Lower("Content-Length") == "content-length";
    assert ['0'][..0] == [];
  }

  lemma EmptyBodyShape()
    ensures PrintableField(EmptyBodyHead().fields[0])
    ensures ResponseShape(EmptyBodyHead()) == Shape(Some(0), false, false, false)
  {
    var f := EmptyBodyHead().fields[0];
    EmptyBodyField(f);
    assert LastLength([f]) == Some(f.value);
    assert ShapeOf([f], false) == Shape(Some(0), false, false, false);
  }

  lemma EmptyBodyParses(after: Bytes)
    ensures var text := PrintHead(OK_LINE, EmptyBodyHead().fields);
            |text| < 1000 && ParseHead(Response, text + after) == Complete(EmptyBodyHead(), |text|)
  {
    OkLineParses();
    EmptyBodyShape();
    PrintFieldsCons(EmptyBodyHead().fields);
    PrintedHeadParses(Response, OK_LINE, StatusLine(200), EmptyBodyHead().fields, after);
  }

  lemma OverReadByOne(data: Bytes, head: Head, c: nat)
    requires Begins(data, 0, head, c) && c < MAX_HEADER_BYTES && |data| == c + 1
    requires ResponseShape(head) == Shape(Some(0), false, false, false)
    ensures PooledResponse(data, Paced(c - 1, 2)) == Some(Delivery(FrameOf(head), data[c..c + 1]))
  {
    LeftoverReached(data, 0, 0, 0, head, c, 1);
    var run := HeadAt(data, Paced(c - 1, 2), 0, 0);
    Joined(data, Paced(c - 1, 2), head, c, run.pos);
    assert PooledEnd(data, Paced(c - 1, 2), run) == run.pos == c + 1;
  }

  /** Such a stream exists: an origin that sends an octet more than it declared can have it delivered. */
  lemma OverReadDelivered(data: Bytes, c: nat)
    requires data == PrintHead(OK_LINE, EmptyBodyHead().fields) + "X" && c == |data| - 1
    ensures PooledResponse(data, Paced(c - 1, 2)) == Some(Delivery(FrameOf(EmptyBodyHead()), "X"))
  {
    EmptyBodyParses("X");
    EmptyBodyShape();
    assert data[0..] == data && data[c..c + 1] == "X";
    OverReadByOne(data, EmptyBodyHead(), c);
  }

  /** A head that says nothing of its body. */
  function BareHead(): Head { Head(StatusLine(200), []) }

  lemma BareHeadParses(after: Bytes)
    ensures var text := PrintHead(OK_LINE, []);
            |text| == 16 && ParseHead(Response, text + after) == Complete(BareHead(), |text|)
    ensures !PoolableResponse(ResponseShape(BareHead()))
  {
    OkLineParses();
    PrintedHeadParses(Response, OK_LINE, StatusLine(200), [], after);
    assert |OK_LINE| == 12 && PrintFields([]) == [];
  }

  /** A body that was cut short and reported as a success: its only octet is lost. */
  lemma TruncatedDelivered(data: Bytes)
    requires data == PrintHead(OK_LINE, []) + "X"
    ensures PooledResponse(data, HeadOnly(16)) == Some(Delivery(FrameOf(BareHead()), []))
    ensures WholeResponse(data, BareHead(), 16).body == "X"
  {
    hide ParseHead, PoolableResponse, ResponseShape, PrintHead;
    BareHeadParses("X");
    assert data[0..] == data;
    HeadAloneDelivered(data, BareHead(), 16);
  }
}
