/** Reading the origin's response head off a socket (`read_http_response_head`). */
module HeadReader {
  import opened Options
  import opened Octets
  import opened Http1
  import opened Streams

  /** `MAX_HEADER_BYTES` */
  const MAX_HEADER_BYTES: nat := 32 * 1024

  /** The read buffer, `[0u8; 2048]` */
  const HEAD_CHUNK: nat := 2048

  /** The longest head that is accepted however the reads fall. */
  const ALWAYS_ACCEPTED: nat := MAX_HEADER_BYTES - HEAD_CHUNK + 1

  datatype HeadOutcome = HeadOk(head: Head, leftover: Bytes) | HeadError

  /** An outcome, and where the socket is left. */
  datatype HeadRun = HeadRun(outcome: HeadOutcome, pos: nat, turn: nat)

  datatype HeadStep = More(next: nat) | Stop(run: HeadRun)

  /** One round of the loop, with the octets of `data` from `start` to `pos` in the buffer. */
  function ReadOnce(data: Bytes, schedule: Schedule, start: nat, pos: nat, turn: nat): (r: HeadStep)
    requires start <= pos <= |data|
    ensures r.More? ==> pos < r.next <= |data|
    ensures r.Stop? ==> pos <= r.run.pos <= |data|
  {
    match schedule(turn)
    case Fail => Stop(HeadRun(HeadError, pos, turn + 1))
    case Deliver(want) =>
      var next := pos + ChunkLen(want, HEAD_CHUNK, |data| - pos);
      if next == pos || next - start > MAX_HEADER_BYTES then Stop(HeadRun(HeadError, next, turn + 1))
      else match ParseHead(Response, data[start..next])
        case Bad => Stop(HeadRun(HeadError, next, turn + 1))
        case Complete(head, c) => Stop(HeadRun(HeadOk(head, data[start + c..next]), next, turn + 1))
        case Partial => More(next)
  }

  /** The whole loop. */
  function ReadHead(data: Bytes, schedule: Schedule, start: nat, pos: nat, turn: nat): (r: HeadRun)
    requires start <= pos <= |data|
    ensures pos <= r.pos <= |data|
    decreases |data| - pos
  {
    match ReadOnce(data, schedule, start, pos, turn)
    case Stop(run) => run
    case More(next) => ReadHead(data, schedule, start, next, turn + 1)
  }

  method ReadHttpResponseHead(tcp: Source) returns (r: HeadOutcome)
    requires tcp.Valid()
    modifies tcp
    ensures tcp.Valid()
    ensures HeadRun(r, tcp.pos, tcp.turn) == ReadHead(tcp.data, tcp.schedule, old(tcp.pos), old(tcp.pos), old(tcp.turn))
  {
    ghost var start := tcp.pos;
    var buf: Bytes := [];
    while true
      invariant tcp.Valid() && start <= tcp.pos && buf == tcp.data[start..tcp.pos]
      invariant ReadHead(tcp.data, tcp.schedule, start, tcp.pos, tcp.turn)
             == ReadHead(tcp.data, tcp.schedule, start, start, old(tcp.turn))
      decreases |tcp.data| - tcp.pos
    {
      var done;
      buf, done := ReadRound(tcp, buf, start);
      if done.Some? { return done.value; }
    }
  }

  /** The loop body. */
  method ReadRound(tcp: Source, buf: Bytes, ghost start: nat) returns (more: Bytes, done: Option<HeadOutcome>)
    requires tcp.Valid() && start <= tcp.pos && buf == tcp.data[start..tcp.pos]
    modifies tcp
    ensures tcp.Valid() && tcp.turn == old(tcp.turn) + 1
    ensures ReadOnce(tcp.data, tcp.schedule, start, old(tcp.pos), old(tcp.turn))
         == if done.Some? then Stop(HeadRun(done.value, tcp.pos, tcp.turn)) else More(tcp.pos)
    ensures done.None? ==> start <= tcp.pos && more == tcp.data[start..tcp.pos]
  {
    hide ParseHead;
    ghost var before := tcp.pos;
    var got := tcp.Read(HEAD_CHUNK);
    more := buf;
    if got.ReadError? || got.bytes == [] { return more, Some(HeadError); }
    more := buf + got.bytes;
    assert more == tcp.data[start..tcp.pos];
    if |more| > MAX_HEADER_BYTES { return more, Some(HeadError); }
    match ParseHead(Response, more) {
      case Bad => done := Some(HeadError);
      case Complete(head, consumed) => done := Some(HeadOk(head, more[consumed..]));
      case Partial => done := None;
    }
  }

  // ── Every success is the head of the stream ──

  /** The stream from `start` on begins with a head of `c` octets. */
  ghost predicate Begins(data: Bytes, start: nat, head: Head, c: nat) {
    start <= |data| && ParseHead(Response, data[start..]) == Complete(head, c)
  }

  lemma Cut(data: Bytes, start: nat, mid: nat)
    requires start <= mid <= |data|
    ensures data[start..mid] + data[mid..] == data[start..]
  {
  }

  /** While the buffer is shorter than the head the parser asks for more; then it has the head. */
  lemma BufferVerdict(data: Bytes, start: nat, head: Head, c: nat, mid: nat)
    requires Begins(data, start, head, c) && start <= mid <= |data|
    ensures ParseHead(Response, data[start..mid]) == if mid < start + c then Partial else Complete(head, c)
  {
    Cut(data, start, mid);
    ParseOfPrefix(Response, data[start..mid], data[mid..]);
  }

  /** `run` delivered the head of the stream, with the right octets left over. */
  ghost predicate SoundHead(data: Bytes, start: nat, run: HeadRun, c: nat) {
    && run.outcome.HeadOk? && run.pos <= |data|
    && Begins(data, start, run.outcome.head, c)
    && start + c <= run.pos && run.outcome.leftover == data[start + c..run.pos]
    && |run.outcome.leftover| < HEAD_CHUNK && run.pos - start <= MAX_HEADER_BYTES
  }

  lemma ReadOnceSound(data: Bytes, schedule: Schedule, start: nat, pos: nat, turn: nat) returns (c: nat)
    requires start <= pos <= |data| && ParseHead(Response, data[start..pos]).Partial?
    requires var r := ReadOnce(data, schedule, start, pos, turn); r.Stop? && r.run.outcome.HeadOk?
    ensures SoundHead(data, start, ReadOnce(data, schedule, start, pos, turn).run, c)
  {
    var run := ReadOnce(data, schedule, start, pos, turn).run;
    var verdict := ParseHead(Response, data[start..run.pos]);
    c := verdict.consumed;
    Cut(data, start, run.pos);
    ParseStable(Response, data[start..run.pos], data[run.pos..]);
    BufferVerdict(data, start, verdict.head, c, pos);
  }

  /** Whenever the reader succeeds, its result is the head of the stream, and what is left over followed
      by what is unread is the rest of the stream; fewer than 2048 octets are left over. */
  lemma {:induction false} HeadReadSound(data: Bytes, schedule: Schedule, start: nat, pos: nat, turn: nat)
    returns (c: nat)
    requires start <= pos <= |data| && ParseHead(Response, data[start..pos]).Partial?
    requires ReadHead(data, schedule, start, pos, turn).outcome.HeadOk?
    ensures SoundHead(data, start, ReadHead(data, schedule, start, pos, turn), c)
    decreases |data| - pos
  {
    hide ParseHead, SoundHead;
    match ReadOnce(data, schedule, start, pos, turn)
    case Stop(_) => c := ReadOnceSound(data, schedule, start, pos, turn);
    case More(next) => c := HeadReadSound(data, schedule, start, next, turn + 1);
  }

  /** A head that is malformed is refused at once: the reader does not go on behind the chunk that shows it. */
  lemma {:induction false} StopsAtBad(data: Bytes, schedule: Schedule, start: nat, pos: nat, turn: nat, m: nat)
    requires start <= pos < m <= |data| && ParseHead(Response, data[start..m]) == Bad
    requires ParseHead(Response, data[start..pos]).Partial?
    ensures var r := ReadHead(data, schedule, start, pos, turn); r.outcome.HeadError? && r.pos < m + 2048
    decreases |data| - pos
  {
    hide ParseHead, ReadOnce;
    BadRound(data, schedule, start, pos, turn, m);
    match ReadOnce(data, schedule, start, pos, turn)
    case Stop(_) =>
    case More(next) => StopsAtBad(data, schedule, start, next, turn + 1, m);
  }

  lemma BadRound(data: Bytes, schedule: Schedule, start: nat, pos: nat, turn: nat, m: nat)
    requires start <= pos < m <= |data| && ParseHead(Response, data[start..m]) == Bad
    ensures match ReadOnce(data, schedule, start, pos, turn)
            case Stop(run) => run.outcome.HeadError? && run.pos < m + 2048
            case More(next) => next < m && ParseHead(Response, data[start..next]).Partial?
  {
    hide ParseHead;
    if schedule(turn).Deliver? {
      var next := pos + ChunkLen(schedule(turn).want, HEAD_CHUNK, |data| - pos);
      if m <= next {
        assert data[start..next] == data[start..m] + data[m..next];
        ParseStable(Response, data[start..m], data[m..next]);
      } else {
        assert data[start..m] == data[start..next] + data[next..m];
        if !ParseHead(Response, data[start..next]).Partial? {
          ParseStable(Response, data[start..next], data[next..m]);
        }
      }
    }
  }

  /** However it ends, the reader takes at most a chunk more than a head may have. */
  lemma {:induction false} ReadsBounded(data: Bytes, schedule: Schedule, start: nat, pos: nat, turn: nat)
    requires start <= pos <= |data| && pos - start <= 32768
    ensures ReadHead(data, schedule, start, pos, turn).pos - start <= 32768 + 2048
    decreases |data| - pos
  {
    hide ParseHead;
    match ReadOnce(data, schedule, start, pos, turn)
    case Stop(_) =>
    case More(next) => ReadsBounded(data, schedule, start, next, turn + 1);
  }

  // ── Which heads are accepted ──

  ghost predicate Accepts(data: Bytes, schedule: Schedule, start: nat, pos: nat, turn: nat)
    requires start <= pos <= |data|
  {
    ReadHead(data, schedule, start, pos, turn).outcome.HeadOk?
  }

  /** A round on a stream that begins with a head. */
  lemma ReadOnceOfHead(data: Bytes, schedule: Schedule, start: nat, pos: nat, turn: nat, head: Head, c: nat)
    requires Begins(data, start, head, c) && start <= pos < start + c && schedule(turn).Deliver?
    ensures var next := pos + ChunkLen(schedule(turn).want, HEAD_CHUNK, |data| - pos);
            var r := ReadOnce(data, schedule, start, pos, turn);
            && pos < next
            && r.More? == (next - start <= MAX_HEADER_BYTES && next < start + c)
            && (r.More? ==> r.next == next)
            && (r.Stop? ==> r.run.pos == next && r.run.turn == turn + 1)
            && (r.Stop? ==> (r.run.outcome.HeadOk? <==> next - start <= MAX_HEADER_BYTES))
  {
    hide ParseHead;
    BufferVerdict(data, start, head, c, pos + ChunkLen(schedule(turn).want, HEAD_CHUNK, |data| - pos));
  }

  lemma {:induction false} AcceptedIfShort(data: Bytes, schedule: Schedule, start: nat, pos: nat, turn: nat,
                                           head: Head, c: nat)
    requires Begins(data, start, head, c) && start <= pos < start + c && Reliable(schedule)
    requires c <= ALWAYS_ACCEPTED || |data| - start <= MAX_HEADER_BYTES
    ensures Accepts(data, schedule, start, pos, turn)
    decreases |data| - pos
  {
    hide ReadOnce, ParseHead;
    ReadOnceOfHead(data, schedule, start, pos, turn, head, c);
    match ReadOnce(data, schedule, start, pos, turn)
    case More(next) => AcceptedIfShort(data, schedule, start, next, turn + 1, head, c);
    case Stop(_) =>
  }

  /** Single octets for `quiet` reads, then `last` octets at a time. */
  function Paced(quiet: nat, last: nat): Schedule { i => if i < quiet then Deliver(1) else Deliver(last) }

  /** Single octets for `quiet` reads, then as much as the buffer takes. */
  function Hurried(quiet: nat): Schedule { Paced(quiet, HEAD_CHUNK) }

  lemma {:induction false} AcceptedOctetByOctet(data: Bytes, start: nat, pos: nat, turn: nat, head: Head, c: nat)
    requires Begins(data, start, head, c) && start <= pos < start + c && c <= MAX_HEADER_BYTES
    requires turn == pos - start
    ensures Accepts(data, Hurried(c), start, pos, turn)
    decreases |data| - pos
  {
    hide ReadOnce, ParseHead;
    ReadOnceOfHead(data, Hurried(c), start, pos, turn, head, c);
    if pos + 1 < start + c {
      AcceptedOctetByOctet(data, start, pos + 1, turn + 1, head, c);
    }
  }

  lemma {:induction false} RejectedWhenHurried(data: Bytes, start: nat, pos: nat, turn: nat, head: Head, c: nat)
    requires Begins(data, start, head, c) && start <= pos < start + c
    requires ALWAYS_ACCEPTED < c && MAX_HEADER_BYTES < |data| - start
    requires turn == pos - start && c <= MAX_HEADER_BYTES
    ensures !Accepts(data, Hurried(c - 1), start, pos, turn)
    decreases |data| - pos
  {
    hide ReadOnce, ParseHead;
    ReadOnceOfHead(data, Hurried(c - 1), start, pos, turn, head, c);
    if pos + 1 < start + c {
      RejectedWhenHurried(data, start, pos + 1, turn + 1, head, c);
    }
  }

  /** Any number of octets that the bounds allow can be left over. */
  lemma {:induction false} LeftoverReached(data: Bytes, start: nat, pos: nat, turn: nat, head: Head, c: nat, m: nat)
    requires Begins(data, start, head, c) && start <= pos < start + c
    requires m < HEAD_CHUNK && start + c + m <= |data| && c + m <= MAX_HEADER_BYTES
    requires turn == pos - start
    ensures var r := ReadHead(data, Paced(c - 1, m + 1), start, pos, turn);
            r.outcome.HeadOk? && r.pos == start + c + m
    decreases |data| - pos
  {
    hide ReadOnce, ParseHead;
    ReadOnceOfHead(data, Paced(c - 1, m + 1), start, pos, turn, head, c);
    if pos + 1 < start + c {
      LeftoverReached(data, start, pos + 1, turn + 1, head, c, m);
    }
  }

  /** The head in single octets, and then only failures. */
  function HeadOnly(c: nat): Schedule { i => if i < c then Deliver(1) else Fail }

  lemma {:induction false} HeadAlone(data: Bytes, start: nat, pos: nat, turn: nat, head: Head, c: nat)
    requires Begins(data, start, head, c) && start <= pos < start + c && c <= MAX_HEADER_BYTES
    requires turn == pos - start
    ensures var r := ReadHead(data, HeadOnly(c), start, pos, turn);
            r.outcome.HeadOk? && r.pos == start + c && r.turn == c
    decreases |data| - pos
  {
    hide ReadOnce, ParseHead;
    ReadOnceOfHead(data, HeadOnly(c), start, pos, turn, head, c);
    if pos + 1 < start + c {
      HeadAlone(data, start, pos + 1, turn + 1, head, c);
    }
  }

  lemma NeverAcceptedIfLong(data: Bytes, schedule: Schedule, start: nat, head: Head, c: nat)
    requires Begins(data, start, head, c) && MAX_HEADER_BYTES < c
    ensures !Accepts(data, schedule, start, start, 0)
  {
    if Accepts(data, schedule, start, start, 0) {
      BufferVerdict(data, start, head, c, start);
      var _ := HeadReadSound(data, schedule, start, start, 0);
    }
  }

  /** The bound on accepted heads is exact. A stream that begins with a head of `c` octets is accepted
      under every schedule of successful reads if and only if `c <= 30721` or the whole stream fits in
      32768 octets, and under some schedule if and only if `c <= 32768`. */
  lemma HeadAcceptance(data: Bytes, start: nat, head: Head, c: nat)
    requires Begins(data, start, head, c)
    ensures (forall s: Schedule | Reliable(s) :: Accepts(data, s, start, start, 0))
       <==> c <= 30721 || |data| - start <= 32768
    ensures (exists s: Schedule | Reliable(s) :: Accepts(data, s, start, start, 0)) <==> c <= 32768
  {
    if c <= ALWAYS_ACCEPTED || |data| - start <= MAX_HEADER_BYTES {
      forall s: Schedule | Reliable(s) ensures Accepts(data, s, start, start, 0) {
        AcceptedIfShort(data, s, start, start, 0, head, c);
      }
    } else if c <= MAX_HEADER_BYTES {
      RejectedWhenHurried(data, start, start, 0, head, c);
      assert Reliable(Hurried(c - 1));
    }
    if c <= MAX_HEADER_BYTES {
      AcceptedOctetByOctet(data, start, start, 0, head, c);
      assert Reliable(Hurried(c));
    } else {
      forall s: Schedule ensures !Accepts(data, s, start, start, 0) {
        NeverAcceptedIfLong(data, s, start, head, c);
      }
      assert Reliable(Hurried(c));
    }
  }
}
