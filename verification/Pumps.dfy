/** The byte pumps (`pump_n_*` and `pump_*_counted`). The two directions of each have the same shape. */
module Pumps {
  import opened Options
  import opened Octets
  import opened Streams

  /** The pump buffer, `[0u8; 16 * 1024]` */
  const PUMP_CHUNK: nat := 16 * 1024

  datatype PumpResult = Done | SourceEof | ReadFailed | WriteFailed

  /** `k` octets of `data` from `from` on were read. They were all written and counted, except that after
      a failed write the last `late` of them are not counted and perhaps only partly written. */
  ghost predicate Moved(data: Bytes, from: nat, k: nat, late: nat, was: Bytes, now: Bytes, counted: U64, counter: U64) {
    && late <= k && from + k <= |data| && late <= PUMP_CHUNK
    && (late == 0 ==> now == was + data[from..from + k])
    && was + data[from..from + k - late] <= now <= was + data[from..from + k]
    && counter == Wrap(counted + (k - late))
  }

  lemma MovedNone(data: Bytes, from: nat, was: Bytes, counted: U64)
    requires from <= |data|
    ensures Moved(data, from, 0, 0, was, was, counted, counted)
  {
    assert was + data[from..from] == was;
  }

  lemma MovedMore(data: Bytes, from: nat, k: nat, n: nat, late: nat, was: Bytes, mid: Bytes, now: Bytes,
                  counted: U64, counter: U64)
    requires Moved(data, from, k, 0, was, mid, counted, counter) && from + k + n <= |data| && n <= PUMP_CHUNK
    requires late == 0 || late == n
    requires if late == 0 then now == mid + data[from + k..from + k + n]
             else mid <= now <= mid + data[from + k..from + k + n]
    ensures Moved(data, from, k + n, late, was, now, counted, if late == 0 then Wrap(counter + n) else counter)
  {
    assert mid == was + data[from..from + k];
    assert mid + data[from + k..from + k + n] == was + data[from..from + k + n];
    WrapAdd(counted + k, n);
  }

  /** Write what was read, and count it. */
  method Pass(bytes: Bytes, dst: Sink, counter: AtomicU64,
              ghost data: Bytes, ghost from: nat, ghost k: nat, ghost was: Bytes, ghost counted: U64)
    returns (ok: bool, ghost late: nat)
    requires !dst.broken && Moved(data, from, k, 0, was, dst.written, counted, counter.value)
    requires At(data, from + k, bytes) && 0 < |bytes| <= PUMP_CHUNK
    modifies dst, counter
    ensures Moved(data, from, k + |bytes|, late, was, dst.written, counted, counter.value)
    ensures ok <==> !dst.broken
    ensures late > 0 <==> !ok
    ensures dst.room == None ==> ok
  {
    ghost var mid := dst.written;
    ok := dst.WriteAll(bytes);
    late := if ok then 0 else |bytes|;
    MovedMore(data, from, k, |bytes|, late, was, mid, dst.written, counted, counter.value);
    if ok { counter.FetchAdd(|bytes|); }
  }

  /** One read, write and count; `ended` when the pump stops here. */
  method PumpOnce(src: Source, dst: Sink, max: nat, counter: AtomicU64,
                  ghost from: nat, ghost was: Bytes, ghost counted: U64)
    returns (ended: Option<PumpResult>, ghost late: nat)
    requires src.Valid() && 0 < max <= PUMP_CHUNK && !dst.broken && from <= src.pos
    requires Moved(src.data, from, src.pos - from, 0, was, dst.written, counted, counter.value)
    modifies src, dst, counter
    ensures src.Valid() && old(src.pos) <= src.pos <= old(src.pos) + max && src.turn == old(src.turn) + 1
    ensures Moved(src.data, from, src.pos - from, late, was, dst.written, counted, counter.value)
    ensures var choice := src.schedule(old(src.turn));
            && (choice.Fail? <==> ended == Some(ReadFailed))
            && (choice.Fail? ==> src.pos == old(src.pos))
            && (choice.Deliver? ==> src.pos == old(src.pos) + ChunkLen(choice.want, max, |src.data| - old(src.pos)))
    ensures ended == Some(SourceEof) ==> old(src.pos) == src.pos == |src.data|
    ensures ended == None ==> old(src.pos) < src.pos
    ensures ended != Some(Done)
    ensures dst.broken <==> ended == Some(WriteFailed)
    ensures late > 0 <==> dst.broken
    ensures dst.room == None ==> !dst.broken
  {
    late := 0;
    var got := src.Read(max);
    if got.ReadError? { return Some(ReadFailed), late; }
    if got.bytes == [] { return Some(SourceEof), late; }
    var ok;
    ok, late := Pass(got.bytes, dst, counter, src.data, from, old(src.pos) - from, was, counted);
    ended := if ok then None else Some(WriteFailed);
  }

  /** Forward exactly `n` octets. */
  method PumpN(src: Source, dst: Sink, n: nat, counter: AtomicU64) returns (r: PumpResult, ghost late: nat)
    requires src.Valid() && !dst.broken
    modifies src, dst, counter
    ensures src.Valid() && old(src.pos) <= src.pos <= old(src.pos) + n
    ensures Moved(src.data, old(src.pos), src.pos - old(src.pos), late, old(dst.written), dst.written,
                  old(counter.value), counter.value)
    ensures late > 0 <==> r == WriteFailed
    ensures r == Done ==> src.pos == old(src.pos) + n
    ensures r == SourceEof ==> src.pos == |src.data| < old(src.pos) + n
    ensures r == ReadFailed ==> src.pos < old(src.pos) + n
    ensures dst.broken <==> r == WriteFailed
    ensures Reliable(src.schedule) && dst.room == None ==> (r == Done <==> old(src.pos) + n <= |src.data|)
  {
    ghost var from, was, counted := src.pos, dst.written, counter.value;
    MovedNone(src.data, from, was, counted);
    hide Moved, Wrap;
    var left: nat := n;
    late := 0;
    while left > 0
      invariant src.Valid() && from <= src.pos && src.pos + left == from + n && !dst.broken && late == 0
      invariant Moved(src.data, from, src.pos - from, 0, was, dst.written, counted, counter.value)
      decreases left
    {
      var want := Min(PUMP_CHUNK, left);
      var before := src.pos;
      var ended;
      ended, late := PumpOnce(src, dst, want, counter, from, was, counted);
      if ended.Some? { return ended.value, late; }
      left := left - (src.pos - before);
    }
    r := Done;
  }

  /** Where a pump that runs to the end of its source stops, and whether it met the end rather than a failing read. */
  datatype Stop = Stop(pos: nat, atEnd: bool)

  function DrainStop(data: Bytes, schedule: Schedule, pos: nat, turn: nat): (r: Stop)
    requires pos <= |data|
    ensures pos <= r.pos <= |data| && (r.atEnd ==> r.pos == |data|)
    decreases |data| - pos
  {
    match schedule(turn)
    case Fail => Stop(pos, false)
    case Deliver(want) =>
      var k := ChunkLen(want, PUMP_CHUNK, |data| - pos);
      if k == 0 then Stop(pos, true) else DrainStop(data, schedule, pos + k, turn + 1)
  }

  lemma {:induction false} ReliableDrain(data: Bytes, schedule: Schedule, pos: nat, turn: nat)
    requires pos <= |data| && Reliable(schedule)
    ensures DrainStop(data, schedule, pos, turn) == Stop(|data|, true)
    decreases |data| - pos
  {
    if pos < |data| {
      ReliableDrain(data, schedule, pos + ChunkLen(schedule(turn).want, PUMP_CHUNK, |data| - pos), turn + 1);
    }
  }

  /** Where `n` reads get, if one that fails delivers nothing. */
  function Through(data: Bytes, schedule: Schedule, pos: nat, turn: nat, n: nat): (r: nat)
    requires pos <= |data|
    ensures pos <= r <= |data|
    decreases n
  {
    if n == 0 then pos
    else match schedule(turn)
      case Fail => Through(data, schedule, pos, turn + 1, n - 1)
      case Deliver(want) =>
        Through(data, schedule, pos + ChunkLen(want, PUMP_CHUNK, |data| - pos), turn + 1, n - 1)
  }

  /** The `n`th read from this one on fails. */
  predicate NthFails(schedule: Schedule, turn: nat, n: nat) { schedule(turn + n).Fail? }

  /** From this read on, none fails before the last octet has been read. */
  ghost predicate NoneFailsEarly(data: Bytes, schedule: Schedule, pos: nat, turn: nat)
    requires pos <= |data|
  {
    forall n: nat :: NthFails(schedule, turn, n) ==> Through(data, schedule, pos, turn, n) == |data|
  }

  lemma NoneFailsFromNext(data: Bytes, schedule: Schedule, pos: nat, turn: nat)
    requires pos <= |data| && schedule(turn).Deliver?
    ensures var next := pos + ChunkLen(schedule(turn).want, PUMP_CHUNK, |data| - pos);
            NoneFailsEarly(data, schedule, pos, turn) <==> NoneFailsEarly(data, schedule, next, turn + 1)
  {
    var next, later := pos + ChunkLen(schedule(turn).want, PUMP_CHUNK, |data| - pos), turn + 1;
    if NoneFailsEarly(data, schedule, pos, turn) {
      forall n: nat | NthFails(schedule, later, n) ensures Through(data, schedule, next, later, n) == |data| {
        assert NthFails(schedule, turn, n + 1);
        assert Through(data, schedule, pos, turn, n + 1) == |data|;
      }
    }
    if NoneFailsEarly(data, schedule, next, turn + 1) {
      forall n: nat | NthFails(schedule, turn, n) ensures Through(data, schedule, pos, turn, n) == |data| {
        assert NthFails(schedule, turn + 1, n - 1);
        assert Through(data, schedule, next, turn + 1, n - 1) == |data|;
      }
    }
  }

  /** A drain reads everything if and only if no read fails before the last octet. */
  lemma {:induction false} DrainReadsAll(data: Bytes, schedule: Schedule, pos: nat, turn: nat)
    requires pos <= |data|
    ensures DrainStop(data, schedule, pos, turn).pos == |data| <==> NoneFailsEarly(data, schedule, pos, turn)
    decreases |data| - pos
  {
    if pos < |data| {
      match schedule(turn)
      case Fail =>
        assert NthFails(schedule, turn, 0) && Through(data, schedule, pos, turn, 0) == pos;
      case Deliver(want) =>
        NoneFailsFromNext(data, schedule, pos, turn);
        DrainReadsAll(data, schedule, pos + ChunkLen(want, PUMP_CHUNK, |data| - pos), turn + 1);
    }
  }

  /** No read fails until one meets the end: the `n` reads from this one on get there, and they and the next one
      succeed. */
  ghost predicate MeetsEnd(data: Bytes, schedule: Schedule, pos: nat, turn: nat)
    requires pos <= |data|
  {
    exists n: nat :: Through(data, schedule, pos, turn, n) == |data| && NoneFails(schedule, turn, n)
  }

  /** The reads from this one on up to the `n`th succeed. */
  ghost predicate NoneFails(schedule: Schedule, turn: nat, n: nat) {
    forall m: nat | m <= n :: !NthFails(schedule, turn, m)
  }

  lemma NoneFailsFrom(schedule: Schedule, turn: nat, n: nat)
    ensures NoneFails(schedule, turn, n + 1) <==> schedule(turn).Deliver? && NoneFails(schedule, turn + 1, n)
  {
    var later := turn + 1;
    if NoneFails(schedule, turn, n + 1) {
      assert !NthFails(schedule, turn, 0);
      forall m: nat | m <= n ensures !NthFails(schedule, later, m) { assert !NthFails(schedule, turn, m + 1); }
    }
    if schedule(turn).Deliver? && NoneFails(schedule, later, n) {
      forall m: nat | m <= n + 1 ensures !NthFails(schedule, turn, m) {
        if m > 0 { assert !NthFails(schedule, later, m - 1); }
      }
    }
  }

  /** A drain ends well if and only if no read fails until one meets the end. */
  lemma {:induction false} DrainMeetsEnd(data: Bytes, schedule: Schedule, pos: nat, turn: nat)
    requires pos <= |data|
    ensures DrainStop(data, schedule, pos, turn).atEnd <==> MeetsEnd(data, schedule, pos, turn)
    decreases |data| - pos
  {
    hide NoneFails;
    match schedule(turn)
    case Fail =>
      forall n: nat ensures !NoneFails(schedule, turn, n) { FailsNow(schedule, turn, n); }
    case Deliver(want) =>
      var next := pos + ChunkLen(want, PUMP_CHUNK, |data| - pos);
      if next == pos {
        OneRead(schedule, turn);
        assert Through(data, schedule, pos, turn, 0) == |data|;
      } else {
        DrainMeetsEnd(data, schedule, next, turn + 1);
        MeetsEndFromNext(data, schedule, pos, turn, next);
      }
  }

  lemma MeetsEndFromNext(data: Bytes, schedule: Schedule, pos: nat, turn: nat, next: nat)
    requires pos < |data| && schedule(turn).Deliver?
    requires next == pos + ChunkLen(schedule(turn).want, PUMP_CHUNK, |data| - pos)
    ensures MeetsEnd(data, schedule, pos, turn) <==> MeetsEnd(data, schedule, next, turn + 1)
  {
    hide NoneFails;
    var later := turn + 1;
    if n: nat :| Through(data, schedule, next, later, n) == |data| && NoneFails(schedule, later, n) {
      NoneFailsFrom(schedule, turn, n);
      assert Through(data, schedule, pos, turn, n + 1) == |data|;
    }
    if n: nat :| Through(data, schedule, pos, turn, n) == |data| && NoneFails(schedule, turn, n) {
      NoneFailsFrom(schedule, turn, n - 1);
      assert Through(data, schedule, next, turn + 1, n - 1) == |data|;
    }
  }

  lemma FailsNow(schedule: Schedule, turn: nat, n: nat)
    requires schedule(turn).Fail?
    ensures !NoneFails(schedule, turn, n)
  {
    assert NthFails(schedule, turn, 0);
  }

  lemma OneRead(schedule: Schedule, turn: nat)
    requires schedule(turn).Deliver?
    ensures NoneFails(schedule, turn, 0)
  {
  }

  /** Forward everything until the source ends. */
  method PumpAll(src: Source, dst: Sink, counter: AtomicU64) returns (r: PumpResult, ghost late: nat)
    requires src.Valid() && !dst.broken
    modifies src, dst, counter
    ensures src.Valid() && old(src.pos) <= src.pos
    ensures Moved(src.data, old(src.pos), src.pos - old(src.pos), late, old(dst.written), dst.written,
                  old(counter.value), counter.value)
    ensures late > 0 <==> r == WriteFailed
    ensures dst.broken <==> r == WriteFailed
    ensures r == Done || r == ReadFailed || r == WriteFailed
    ensures r != WriteFailed ==>
              DrainStop(src.data, src.schedule, old(src.pos), old(src.turn)) == Stop(src.pos, r == Done)
    ensures dst.room == None ==> r != WriteFailed
  {
    ghost var from, was, counted := src.pos, dst.written, counter.value;
    ghost var stop := DrainStop(src.data, src.schedule, src.pos, src.turn);
    MovedNone(src.data, from, was, counted);
    hide Moved, Wrap;
    late := 0;
    while true
      invariant src.Valid() && from <= src.pos && !dst.broken && late == 0
      invariant Moved(src.data, from, src.pos - from, 0, was, dst.written, counted, counter.value)
      invariant DrainStop(src.data, src.schedule, src.pos, src.turn) == stop
      decreases |src.data| - src.pos
    {
      var ended;
      ended, late := PumpOnce(src, dst, PUMP_CHUNK, counter, from, was, counted);
      if ended.Some? { return if ended.value == SourceEof then Done else ended.value, late; }
    }
  }
}
