/** When the two paths of an exchange succeed, and what they deliver, in terms of what the origin sends and of how
    the reads fall. The answer may begin anywhere on the socket. */
module Delivery {
  import opened Options
  import opened Octets
  import opened Http1
  import opened Shapes
  import opened Streams
  import opened HeadReader
  import opened Pumps
  import opened Proxy

  /** The head that begins at `start` is accepted under every schedule of reads that succeed. */
  predicate Acceptable(data: Bytes, start: nat, c: nat) { c <= 30721 || |data| - start <= 32768 }

  lemma AcceptsReliably(data: Bytes, schedule: Schedule, start: nat, turn: nat, head: Head, c: nat)
    requires Begins(data, start, head, c) && Reliable(schedule) && Acceptable(data, start, c)
    ensures HeadAt(data, schedule, start, turn).outcome.HeadOk?
  {
    hide ParseHead, ReadHead;
    HeadNotEmpty(data, start, head, c);
    AcceptedIfShort(data, schedule, start, start, turn, head, c);
  }

  lemma HeadNotEmpty(data: Bytes, start: nat, head: Head, c: nat)
    requires Begins(data, start, head, c)
    ensures 0 < c && start + c <= |data|
  {
  }

  lemma HeadAtSound(data: Bytes, schedule: Schedule, start: nat, turn: nat, head: Head, c: nat)
    requires Begins(data, start, head, c) && HeadAt(data, schedule, start, turn).outcome.HeadOk?
    ensures var run := HeadAt(data, schedule, start, turn);
            SoundHead(data, start, run, c) && run.outcome.head == head
  {
    assert ParseHead(Response, data[start..start]).Partial?;
    var d := HeadReadSound(data, schedule, start, start, turn);
  }

  /** The octets read past the head and those read after it are one stretch of the stream. */
  lemma JoinedAt(data: Bytes, schedule: Schedule, start: nat, turn: nat, head: Head, c: nat, end: nat)
    requires Begins(data, start, head, c) && HeadAt(data, schedule, start, turn).outcome.HeadOk?
    requires HeadAt(data, schedule, start, turn).pos <= end <= |data|
    ensures var run := HeadAt(data, schedule, start, turn);
            && run.outcome.head == head && start + c <= run.pos && |run.outcome.leftover| == run.pos - start - c
            && run.outcome.leftover + data[run.pos..end] == data[start + c..end]
  {
    hide ParseHead, HeadAt, ReadHead;
    HeadAtSound(data, schedule, start, turn, head, c);
    var mid := HeadAt(data, schedule, start, turn).pos;
    assert data[start + c..mid] + data[mid..end] == data[start + c..end];
  }

  // ── The fallback ──

  /** `run_bidi` delivers all that comes after the head, up to the end, if and only if the head is accepted and no read
      fails until one meets the end; else it fails. */
  lemma BidiAnswers(data: Bytes, schedule: Schedule, start: nat, turn: nat, head: Head, c: nat)
    requires Begins(data, start, head, c)
    ensures var run := HeadAt(data, schedule, start, turn);
            BidiDelivery(data, schedule, run)
            == if run.outcome.HeadOk? && MeetsEnd(data, schedule, run.pos, run.turn)
               then Some(Delivery(FrameOf(head), data[start + c..|data|])) else None
  {
    hide ParseHead, HeadAt, ReadHead, FrameOf, DrainStop, MeetsEnd;
    HeadNotEmpty(data, start, head, c);
    var run := HeadAt(data, schedule, start, turn);
    DrainMeetsEnd(data, schedule, run.pos, run.turn);
    if run.outcome.HeadOk? { JoinedAt(data, schedule, start, turn, head, c, |data|); }
  }

  /** With reads that succeed, whatever their chunks, it delivers every response whose head is acceptable, whole. */
  lemma BidiDelivers(data: Bytes, schedule: Schedule, start: nat, turn: nat, head: Head, c: nat)
    requires Begins(data, start, head, c) && Reliable(schedule) && Acceptable(data, start, c)
    ensures start + c <= |data|
    ensures BidiDelivery(data, schedule, HeadAt(data, schedule, start, turn))
         == Some(Delivery(FrameOf(head), data[start + c..|data|]))
  {
    hide ParseHead, HeadAt, ReadHead, FrameOf, BidiDelivery, MeetsEnd;
    HeadNotEmpty(data, start, head, c);
    AcceptsReliably(data, schedule, start, turn, head, c);
    BidiAnswers(data, schedule, start, turn, head, c);
    var run := HeadAt(data, schedule, start, turn);
    ReliableDrain(data, schedule, run.pos, run.turn);
    DrainMeetsEnd(data, schedule, run.pos, run.turn);
  }

  // ── The pooled path ──

  /** `run_pooled` delivers a framed response if and only if the head is accepted and all of its `n` octets are there:
      these octets, or all that was read with the head if that was more; else it fails. */
  lemma PooledAnswers(data: Bytes, schedule: Schedule, start: nat, turn: nat, head: Head, c: nat, n: nat)
    requires Begins(data, start, head, c)
    requires PoolableResponse(ResponseShape(head)) && ResponseShape(head).contentLength == Some(n)
    ensures var run := HeadAt(data, schedule, start, turn);
            && (PooledDelivery(data, schedule, run).Some? <==> run.outcome.HeadOk? && start + c + n <= |data|)
            && (PooledDelivery(data, schedule, run).Some? ==>
                  && start + c + Max(n, |run.outcome.leftover|) <= |data|
                  && PooledDelivery(data, schedule, run).value
                  == Delivery(FrameOf(head), data[start + c..start + c + Max(n, |run.outcome.leftover|)]))
  {
    hide ParseHead, HeadAt, ReadHead, FrameOf, DrainStop, ResponseShape;
    HeadNotEmpty(data, start, head, c);
    var run := HeadAt(data, schedule, start, turn);
    if run.outcome.HeadOk? {
      HeadAtSound(data, schedule, start, turn, head, c);
      var end := start + c + Max(n, |run.outcome.leftover|);
      assert PooledEnd(data, schedule, run) == end;
      if end <= |data| { JoinedAt(data, schedule, start, turn, head, c, end); }
    }
  }

  /** With reads that succeed, whatever their chunks, it delivers a framed response whose head is acceptable if and only
      if all of it is there; and exactly that if nothing comes behind it. */
  lemma PooledDelivers(data: Bytes, schedule: Schedule, start: nat, turn: nat, head: Head, c: nat, n: nat)
    requires Begins(data, start, head, c) && Reliable(schedule) && Acceptable(data, start, c)
    requires PoolableResponse(ResponseShape(head)) && ResponseShape(head).contentLength == Some(n)
    ensures PooledDelivery(data, schedule, HeadAt(data, schedule, start, turn)).Some? <==> start + c + n <= |data|
    ensures start + c + n == |data| ==>
              PooledDelivery(data, schedule, HeadAt(data, schedule, start, turn))
              == Some(Delivery(FrameOf(head), data[start + c..|data|]))
  {
    hide ParseHead, HeadAt, ReadHead, FrameOf, PooledDelivery, ResponseShape;
    AcceptsReliably(data, schedule, start, turn, head, c);
    PooledAnswers(data, schedule, start, turn, head, c, n);
    HeadAtSound(data, schedule, start, turn, head, c);
  }

  /** An unframed response: `run_pooled` succeeds if and only if the head is accepted, and delivers all up to where the
      drain stops; that is the end if and only if no read fails before the last octet. */
  lemma UnframedAnswers(data: Bytes, schedule: Schedule, start: nat, turn: nat, head: Head, c: nat)
    returns (stop: nat)
    requires Begins(data, start, head, c) && !PoolableResponse(ResponseShape(head))
    ensures var run := HeadAt(data, schedule, start, turn);
            && run.pos <= stop <= |data| && (stop == |data| <==> NoneFailsEarly(data, schedule, run.pos, run.turn))
            && (run.outcome.HeadError? ==> PooledDelivery(data, schedule, run) == None)
            && (run.outcome.HeadOk? ==>
                  && start + c <= stop
                  && PooledDelivery(data, schedule, run) == Some(Delivery(FrameOf(head), data[start + c..stop])))
  {
    hide ParseHead, HeadAt, ReadHead, FrameOf, DrainStop, ResponseShape, NoneFailsEarly;
    HeadNotEmpty(data, start, head, c);
    var run := HeadAt(data, schedule, start, turn);
    stop := DrainStop(data, schedule, run.pos, run.turn).pos;
    DrainReadsAll(data, schedule, run.pos, run.turn);
    if run.outcome.HeadOk? { JoinedAt(data, schedule, start, turn, head, c, stop); }
  }

  /** Both paths deliver: on a head that is acceptable, exactly Content-Length octets if it is poolable, and the end,
      under any two schedules of reads that succeed, each path delivers the whole response. */
  lemma BothDeliver(data: Bytes, head: Head, c: nat, fast: Schedule, slow: Schedule)
    requires Begins(data, 0, head, c) && Acceptable(data, 0, c) && Reliable(fast) && Reliable(slow)
    requires PoolableResponse(ResponseShape(head)) ==> ResponseShape(head).contentLength.value == |data| - c
    ensures c <= |data|
    ensures PooledResponse(data, fast) == BidiResponse(data, slow) == Some(WholeResponse(data, head, c))
  {
    hide ParseHead, HeadAt, ReadHead, FrameOf, PooledDelivery, BidiDelivery, NoneFailsEarly;
    HeadNotEmpty(data, 0, head, c);
    BidiDelivers(data, slow, 0, 0, head, c);
    if PoolableResponse(ResponseShape(head)) {
      PooledDelivers(data, fast, 0, 0, head, c, |data| - c);
    } else {
      AcceptsReliably(data, fast, 0, 0, head, c);
      var stop := UnframedAnswers(data, fast, 0, 0, head, c);
      var run := HeadAt(data, fast, 0, 0);
      ReliableDrain(data, fast, run.pos, run.turn);
      DrainReadsAll(data, fast, run.pos, run.turn);
    }
  }
}
