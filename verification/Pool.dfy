/** The pool of idle origin sockets: a stack with a time to live and a cap. */
module Pool {
  import opened Options

  /** `DEFAULT_IDLE_TTL`, in seconds, and `DEFAULT_MAX_IDLE` */
  const DEFAULT_IDLE_TTL: nat := 30
  const DEFAULT_MAX_IDLE: nat := 16

  datatype Idle<+S> = Idle(stream: S, releasedAt: nat)

  predicate Fresh<S>(e: Idle<S>, ttl: nat, t: nat) { t <= e.releasedAt + ttl }

  /** Released in this order, none after `t`. */
  predicate Ordered<S>(idle: seq<Idle<S>>, t: nat) {
    && (forall i, j :: 0 <= i < j < |idle| ==> idle[i].releasedAt <= idle[j].releasedAt)
    && (forall i :: 0 <= i < |idle| ==> idle[i].releasedAt <= t)
  }

  datatype Taken<+S> = Taken(stream: Option<S>, idle: seq<Idle<S>>)

  /** What the pop loop of `acquire` comes to: take the newest entry if it is fresh, else drop them all. */
  function Acquired<S>(idle: seq<Idle<S>>, ttl: nat, t: nat): Taken<S> {
    if idle != [] && Fresh(idle[|idle| - 1], ttl, t)
    then Taken(Some(idle[|idle| - 1].stream), idle[..|idle| - 1])
    else Taken(None, [])
  }

  function Released<S>(idle: seq<Idle<S>>, maxIdle: nat, stream: S, t: nat): seq<Idle<S>> {
    if |idle| >= maxIdle then idle else idle + [Idle(stream, t)]
  }

  /** A socket is handed out exactly when some entry was released no longer ago than the time to live; a miss leaves
      nothing behind. */
  lemma HitIffSomeFresh<S>(idle: seq<Idle<S>>, ttl: nat, t: nat)
    requires Ordered(idle, t)
    ensures Acquired(idle, ttl, t).stream.Some? <==> exists i :: 0 <= i < |idle| && t - idle[i].releasedAt <= ttl
    ensures Acquired(idle, ttl, t).stream.None? ==> Acquired(idle, ttl, t).idle == []
  {
    if i :| 0 <= i < |idle| && t - idle[i].releasedAt <= ttl {
      assert idle[i].releasedAt <= idle[|idle| - 1].releasedAt;
    }
  }

  /** What is handed out is the newest entry, and it was released no longer ago than the time to live; and a newest
      entry for which that holds is always handed out. The others stay. */
  lemma NewestIfYoung<S>(idle: seq<Idle<S>>, ttl: nat, t: nat, stream: S)
    ensures Acquired(idle, ttl, t).stream == Some(stream)
       <==> idle != [] && idle[|idle| - 1].stream == stream && t - idle[|idle| - 1].releasedAt <= ttl
    ensures Acquired(idle, ttl, t).stream.Some? ==> Acquired(idle, ttl, t).idle == idle[..|idle| - 1]
  {
  }

  /** `Instant::now`: never goes back. */
  class Clock {
    const ticks: nat -> nat
    var now: nat
    var looks: nat

    constructor (ticks: nat -> nat)
      ensures this.ticks == ticks && now == 0 && looks == 0
    {
      this.ticks, now, looks := ticks, 0, 0;
    }

    method Now() returns (t: nat)
      modifies this
      ensures old(now) <= t == now
    {
      now, looks := now + ticks(looks), looks + 1;
      t := now;
    }
  }

  class Pool<S> {
    const idleTtl: nat
    const maxIdle: nat
    var idle: seq<Idle<S>>

    constructor ()
      ensures idle == [] && idleTtl == 30 && maxIdle == 16
    {
      idleTtl, maxIdle, idle := DEFAULT_IDLE_TTL, DEFAULT_MAX_IDLE, [];
    }

    predicate Valid(clock: Clock)
      reads this, clock
    {
      Ordered(idle, clock.now) && |idle| <= maxIdle
    }

    /** An idle socket, or else what connecting to the origin gives. `first` is the clock at the first look. */
    method Acquire(clock: Clock, connect: Option<S>) returns (r: Option<S>, ghost first: nat)
      requires Valid(clock)
      modifies this, clock
      ensures Valid(clock) && old(clock.now) <= first <= clock.now
      ensures var taken := Acquired(old(idle), idleTtl, first);
              && idle == taken.idle
              && r == if taken.stream.Some? then taken.stream else connect
    {
      first := clock.now;
      ghost var whole := idle;
      var firstLook := true;
      while idle != []
        invariant Ordered(idle, clock.now) && |idle| <= maxIdle && old(clock.now) <= first <= clock.now
        invariant firstLook ==> idle == whole && first == clock.now
        invariant !firstLook ==> Acquired(whole, idleTtl, first) == Taken(None, [])
        invariant !firstLook ==> forall i :: 0 <= i < |idle| ==> !Fresh(idle[i], idleTtl, clock.now)
        decreases |idle|
      {
        var entry := idle[|idle| - 1];
        var t := clock.Now();
        if firstLook { first := t; }
        firstLook := false;
        if t <= entry.releasedAt + idleTtl {
          idle := idle[..|idle| - 1];
          return Some(entry.stream), first;
        }
        idle := idle[..|idle| - 1];
      }
      r := connect;
    }

    method Release(clock: Clock, stream: S)
      requires Valid(clock)
      modifies this, clock
      ensures Valid(clock) && old(clock.now) <= clock.now
      ensures idle == Released(old(idle), maxIdle, stream, clock.now)
    {
      if |idle| >= maxIdle { return; }
      var t := clock.Now();
      idle := idle + [Idle(stream, t)];
    }
  }
}
