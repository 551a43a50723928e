/** The ends of the byte streams that the proxy copies between, and the shared byte counters. */
module Streams {
  import opened Options
  import opened Octets

  /** What one `read` does: deliver about `want` octets, or fail. */
  datatype ReadChoice = Deliver(want: nat) | Fail

  /** The outcome of every read, by its number: one interleaving of the peer's writes and our reads. */
  type Schedule = nat -> ReadChoice

  ghost predicate Reliable(schedule: Schedule) { forall i :: schedule(i).Deliver? }

  datatype ReadResult = Got(bytes: Bytes) | ReadError

  function Min(a: nat, b: nat): nat { if a <= b then a else b }

  function Max(a: nat, b: nat): nat { if a <= b then b else a }

  /** A read delivers any length from 1 up to what was asked for and is left, and 0 only at the end. */
  function ChunkLen(want: nat, max: nat, left: nat): (n: nat)
    requires 0 < max
    ensures n <= max && n <= left && (n == 0 <==> left == 0)
  {
    Min(Max(want, 1), Min(max, left))
  }

  /** The reading half of a socket or stream: all that the peer sends before it closes its side. */
  class Source {
    const data: Bytes
    const schedule: Schedule
    var pos: nat
    var turn: nat

    constructor (data: Bytes, schedule: Schedule)
      ensures this.data == data && this.schedule == schedule && pos == 0 && turn == 0
    {
      this.data, this.schedule, this.pos, this.turn := data, schedule, 0, 0;
    }

    predicate Valid()
      reads this
    {
      pos <= |data|
    }

    method Read(max: nat) returns (r: ReadResult)
      requires Valid() && 0 < max
      modifies this
      ensures Valid() && turn == old(turn) + 1
      ensures schedule(old(turn)).Fail? ==> r == ReadError && pos == old(pos)
      ensures schedule(old(turn)).Deliver? ==>
                && pos == old(pos) + ChunkLen(schedule(old(turn)).want, max, |data| - old(pos))
                && r == Got(data[old(pos)..pos])
    {
      var from := pos;
      match schedule(turn) {
        case Fail => r := ReadError;
        case Deliver(want) =>
          pos := pos + ChunkLen(want, max, |data| - pos);
          r := Got(data[from..pos]);
      }
      turn := turn + 1;
    }
  }

  /** The writing half: it takes `room` octets in all, if bounded, and fails in the middle of the write
      that would exceed them. */
  class Sink {
    const room: Option<nat>
    var written: Bytes
    var broken: bool

    constructor (room: Option<nat>)
      ensures this.room == room && written == [] && !broken
    {
      this.room, this.written, this.broken := room, [], false;
    }

    method WriteAll(bytes: Bytes) returns (ok: bool)
      modifies this
      ensures ok <==> !broken
      ensures ok ==> !old(broken) && written == old(written) + bytes
      ensures !ok ==> old(written) <= written <= old(written) + bytes
      ensures room == None && !old(broken) ==> ok
    {
      if broken {
        return false;
      }
      if room.Some? && |written| + |bytes| > room.value {
        var k := if |written| <= room.value then room.value - |written| else 0;
        assert written + bytes == written + bytes[..k] + bytes[k..];
        written, broken := written + bytes[..k], true;
        return false;
      }
      written := written + bytes;
      return true;
    }
  }

  type U64 = n: nat | n < TWO_64

  /** `n` modulo 2^64. */
  function Wrap(n: nat): U64 {
    if n < TWO_64 then n else Wrap(n - TWO_64)
  }

  lemma {:induction false} WrapAdd(a: nat, b: nat)
    ensures Wrap(Wrap(a) + b) == Wrap(a + b)
    decreases a
  {
    if a >= TWO_64 {
      WrapAdd(a - TWO_64, b);
    }
  }

  /** `AtomicU64` with `fetch_add`, which wraps around. */
  class AtomicU64 {
    var value: U64

    constructor ()
      ensures value == 0
    {
      value := 0;
    }

    method FetchAdd(n: nat)
      modifies this
      ensures value == Wrap(old(value) + n)
    {
      value := Wrap(value + n);
    }
  }
}
