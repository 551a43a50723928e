/** The supervise phase of a leg: the accept loop of one connection (`supervisor::run`) inside the reactor's
    select on the shutdown signal. */
module Supervisor {
  import opened Options
  import opened Streams
  import opened Sums

  /** What `accept_bi` gives: an inbound stream, or one of its errors. */
  datatype Accepted = Stream | ApplicationClosed | LocallyClosed | OtherError

  datatype SupervisorExit = Shutdown | ConnectionLost

  /** One poll of the reactor's select: whether the signal has fired, and what the accept loop would accept in
      turn before it has to wait again. */
  datatype Poll = Poll(signal: bool, ready: seq<Accepted>)

  /** The streams before the first error. */
  function Accepts(ready: seq<Accepted>): (n: nat)
    ensures n <= |ready| && (forall k | 0 <= k < n :: ready[k] == Stream) && (n < |ready| ==> ready[n] != Stream)
  {
    if ready == [] || !ready[0].Stream? then 0 else 1 + Accepts(ready[1..])
  }

  predicate Lost(ready: seq<Accepted>) { exists k :: 0 <= k < |ready| && ready[k] != Stream }

  predicate Quiet(p: Poll) { !p.signal && !Lost(p.ready) }

  /** The streams of the first `n` polls. */
  function Served(polls: seq<Poll>, n: nat): nat
    requires n <= |polls|
  {
    Sum(seq(n, i requires 0 <= i < n => Accepts(polls[i].ready)))
  }

  lemma ServedMore(polls: seq<Poll>, n: nat)
    requires n < |polls|
    ensures Served(polls, n + 1) == Served(polls, n) + Accepts(polls[n].ready)
  {
    hide Accepts;
    var xs := seq(n, i requires 0 <= i < n => Accepts(polls[i].ready));
    assert seq(n + 1, i requires 0 <= i < n + 1 => Accepts(polls[i].ready)) == xs + [Accepts(polls[n].ready)];
    SumSnoc(xs, Accepts(polls[n].ready));
  }

  /** The one-shot channel from the reactor to its accept loop, `sup_tx` and `sup_rx`. */
  class OneShot {
    var sent: bool

    constructor ()
      ensures !sent
    {
      sent := false;
    }

    method Send()
      modifies this
      ensures sent
    {
      sent := true;
    }
  }

  /** The accept loop, once polled. `closed` says whether it closed the connection itself, in its shutdown arm. */
  method AcceptLoop(streamsTotal: AtomicU64, shutdownRx: OneShot, ready: seq<Accepted>)
    returns (exit: Option<SupervisorExit>, closed: bool)
    modifies streamsTotal
    ensures shutdownRx.sent <==> exit == Some(Shutdown)
    ensures exit == Some(ConnectionLost) <==> !shutdownRx.sent && exists k :: 0 <= k < |ready| && ready[k] != Stream
    ensures closed <==> shutdownRx.sent
    ensures streamsTotal.value == Wrap(old(streamsTotal.value) + if shutdownRx.sent then 0 else Accepts(ready))
  {
    var k := 0;
    ghost var start := streamsTotal.value;
    WrapOfU64(start);
    while true
      invariant k <= |ready| && (shutdownRx.sent ==> k == 0)
      invariant forall j | 0 <= j < k :: ready[j] == Stream
      invariant Accepts(ready) == k + Accepts(ready[k..])
      invariant streamsTotal.value == Wrap(start + k)
      decreases |ready| - k
    {
      if shutdownRx.sent { return Some(Shutdown), true; }
      if k == |ready| { return None, false; }
      if !ready[k].Stream? { return Some(ConnectionLost), false; }
      streamsTotal.FetchAdd(1);
      WrapAdd(start + k, 1);
      assert ready[k..][1..] == ready[k + 1..];
      k := k + 1;
    }
  }

  lemma WrapOfU64(n: U64)
    ensures Wrap(n) == n
  {
  }

  /** The reactor's select: the signal comes first, and when it has fired the reactor sends word to the accept loop,
      which is not polled again but dropped. The phase ends with the first poll that is not quiet, by shutdown exactly
      if the signal has fired by then. Word is sent in that case, but the accept loop never gets it: its own shutdown
      arm, with its close of the connection, does not run. */
  method Supervise(streamsTotal: AtomicU64, polls: seq<Poll>)
    returns (exit: Option<SupervisorExit>, ended: nat, closed: bool, sup: OneShot)
    modifies streamsTotal
    ensures ended <= |polls|
    ensures forall i | 0 <= i < ended ::
              !polls[i].signal && forall k | 0 <= k < |polls[i].ready| :: polls[i].ready[k] == Stream
    ensures exit.None? <==> ended == |polls|
    ensures exit == Some(Shutdown) <==> ended < |polls| && polls[ended].signal
    ensures exit == Some(ConnectionLost) <==>
              ended < |polls| && !polls[ended].signal
              && exists k :: 0 <= k < |polls[ended].ready| && polls[ended].ready[k] != Stream
    ensures streamsTotal.value
         == Wrap(old(streamsTotal.value) + Served(polls, if exit == Some(ConnectionLost) then ended + 1 else ended))
    ensures sup.sent <==> exit == Some(Shutdown)
    ensures !closed
  {
    hide Accepts, Wrap, Lost, Served;
    sup := new OneShot();
    closed := false;
    ghost var start := streamsTotal.value;
    WrapOfU64(start);
    NoneServed(polls);
    for i := 0 to |polls|
      invariant fresh(sup) && !sup.sent && !closed
      invariant forall j | 0 <= j < i :: Quiet(polls[j])
      invariant streamsTotal.value == Wrap(start + Served(polls, i))
    {
      AllQuiet(polls[..i]);
      if polls[i].signal {
        sup.Send();
        return Some(Shutdown), i, closed, sup;
      }
      exit, closed := AcceptLoop(streamsTotal, sup, polls[i].ready);
      WrapAdd(start + Served(polls, i), Accepts(polls[i].ready));
      ServedMore(polls, i);
      LostMeans(polls[i].ready);
      if exit.Some? {
        assert exit.value.Shutdown? || exit.value.ConnectionLost?;
        return exit, i, closed, sup;
      }
    }
    AllQuiet(polls[..|polls|]);
    return None, |polls|, closed, sup;
  }

  lemma NoneServed(polls: seq<Poll>)
    ensures Served(polls, 0) == 0
  {
  }

  lemma LostMeans(ready: seq<Accepted>)
    ensures Lost(ready) <==> exists k :: 0 <= k < |ready| && ready[k] != Stream
  {
  }

  lemma AllQuiet(polls: seq<Poll>)
    requires forall i | 0 <= i < |polls| :: Quiet(polls[i])
    ensures forall i | 0 <= i < |polls| ::
              !polls[i].signal && forall k | 0 <= k < |polls[i].ready| :: polls[i].ready[k] == Stream
  {
  }
}
