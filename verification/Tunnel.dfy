/** A tunnel: all its legs, the shared reconnect counter, and the shutdown signal (`start_inner`,
    `QuickTunnelHandle`). */
module Tunnel {
  import opened Options
  import opened Streams
  import opened Sums
  import Runs
  import S = Session
  import L = Leg

  const MAX_HA_CONNECTIONS: nat := 4

  datatype Tunnel = Tunnel(legs: seq<L.Leg>, reconnects: U64)

  function Init(n: nat): Tunnel { Tunnel(seq(n, _ => L.UNBORN), 0) }

  /** A move of leg `i` or of one of its sessions, or `notify_waiters`. */
  datatype Step = Act(i: nat, move: L.Move) | Notify

  /** The further legs begin once the first has registered. */
  predicate MayAct(t: Tunnel, i: nat, m: L.Move) {
    i < |t.legs| && (m.Begin? && i > 0 ==> L.Won(t.legs[0]) > 0)
  }

  function SignalAll(legs: seq<L.Leg>): seq<L.Leg> {
    seq(|legs|, i requires 0 <= i < |legs| => L.Signal(legs[i]))
  }

  /** Only a leg that enters its loop anew counts a reconnect. */
  function Next(t: Tunnel, step: Step): Option<Tunnel> {
    match step
    case Notify => Some(t.(legs := SignalAll(t.legs)))
    case Act(i, m) =>
      if !MayAct(t, i, m) then None
      else
        match L.Next(t.legs[i], i == 0, m)
        case None => None
        case Some(l) =>
          Some(Tunnel(t.legs[i := l], if Counts(t.legs[i], m) then Wrap(t.reconnects + 1) else t.reconnects))
  }

  predicate Counts(l: L.Leg, m: L.Move) { m.Enter? && l.phase == L.Entering(true) }

  function Run(t: Tunnel, steps: seq<Step>): Option<Tunnel> { Runs.Run(Next, t, steps) }

  // ── What every step keeps ──

  /** The reconnects of a leg that are counted: all registrations that got the details but the first, less one
      in flight. */
  function Returns(l: L.Leg): nat {
    if L.Won(l) <= 1 then 0 else L.Won(l) - 1 - if l.phase == L.Entering(true) then 1 else 0
  }

  function Tally(legs: seq<L.Leg>): nat { Sum(seq(|legs|, i requires 0 <= i < |legs| => Returns(legs[i]))) }

  ghost predicate LegsOk(legs: seq<L.Leg>) { forall i | 0 <= i < |legs| :: L.Inv(legs[i]) }

  ghost predicate Inv(t: Tunnel) { LegsOk(t.legs) && t.reconnects == Wrap(Tally(t.legs)) }

  lemma TallyUpdate(legs: seq<L.Leg>, i: nat, l: L.Leg)
    requires i < |legs|
    ensures Tally(legs[i := l]) == Tally(legs) - Returns(legs[i]) + Returns(l)
  {
    hide Returns;
    var xs := seq(|legs|, j requires 0 <= j < |legs| => Returns(legs[j]));
    var legs' := legs[i := l];
    assert seq(|legs'|, j requires 0 <= j < |legs'| => Returns(legs'[j])) == xs[i := Returns(l)];
    SumUpdate(xs, i, Returns(l));
  }

  lemma TallySignal(legs: seq<L.Leg>)
    requires LegsOk(legs)
    ensures LegsOk(SignalAll(legs)) && Tally(SignalAll(legs)) == Tally(legs)
  {
    hide L.Inv, L.Won, L.Signal, Returns;
    var legs' := SignalAll(legs);
    forall i | 0 <= i < |legs| ensures L.Inv(legs'[i]) && Returns(legs'[i]) == Returns(legs[i]) {
      SignalReturns(legs[i]);
    }
    assert seq(|legs'|, j requires 0 <= j < |legs'| => Returns(legs'[j]))
        == seq(|legs|, j requires 0 <= j < |legs| => Returns(legs[j]));
  }

  lemma SignalReturns(l: L.Leg)
    requires L.Inv(l)
    ensures L.Inv(L.Signal(l)) && Returns(L.Signal(l)) == Returns(l)
  {
    hide L.Inv, L.Won;
    L.SignalKeeps(l);
  }

  /** Only an answer that brings the details, and the increment that follows it, move a leg's counts. */
  lemma PhaseOfMove(l: L.Leg, first: bool, m: L.Move)
    requires L.Inv(l) && L.Next(l, first, m).Some?
    ensures var l' := L.Next(l, first, m).value;
            && (l'.phase.Entering? && !m.Answer? ==> l'.phase == l.phase && !m.Enter?)
            && (l.phase.Entering? ==> m.Enter? || l'.phase == l.phase)
            && (m.Answer? ==> !l.phase.Entering?)
            && (m.Enter? ==> l.phase.Entering? && !l'.phase.Entering?)
  {
    hide L.Inv, S.Next;
  }

  lemma EnteringWon(l: L.Leg)
    requires L.Inv(l) && l.phase.Entering?
    ensures L.Won(l) >= 1 && (l.phase.again <==> L.Won(l) >= 2)
  {
    hide L.Wins, L.PastOk;
  }

  lemma MoveReturns(l: L.Leg, first: bool, m: L.Move)
    requires L.Inv(l) && L.Next(l, first, m).Some?
    ensures var l' := L.Next(l, first, m).value;
            L.Inv(l') && Returns(l') == Returns(l) + if Counts(l, m) then 1 else 0
  {
    hide L.Inv, L.Won, L.Next;
    L.StepKeeps(l, first, m);
    PhaseOfMove(l, first, m);
    if l.phase.Entering? { EnteringWon(l); }
    var l' := L.Next(l, first, m).value;
    if l'.phase.Entering? { EnteringWon(l'); }
  }

  lemma StepKeeps(t: Tunnel, step: Step)
    requires Inv(t) && Next(t, step).Some?
    ensures Inv(Next(t, step).value)
  {
    hide L.Inv, L.Next, Tally, Wrap, SignalAll;
    match step
    case Notify => TallySignal(t.legs);
    case Act(i, m) =>
      MoveReturns(t.legs[i], i == 0, m);
      TallyUpdate(t.legs, i, Next(t, step).value.legs[i]);
      WrapAdd(Tally(t.legs), 1);
  }

  lemma RunKeeps(t: Tunnel, steps: seq<Step>)
    requires Inv(t) && Run(t, steps).Some?
    ensures Inv(Run(t, steps).value) && |Run(t, steps).value.legs| == |t.legs|
  {
    hide Inv, L.Next, Tally;
    var n := |t.legs|;
    forall t, step | Inv(t) && Next(t, step).Some?
      ensures Inv(Next(t, step).value) && |Next(t, step).value.legs| == |t.legs|
    {
      StepKeeps(t, step);
    }
    Runs.Keeps(Next, t => Inv(t) && |t.legs| == n, t, steps);
  }

  lemma {:induction false} ZeroSum(n: nat)
    ensures Sum(seq(n, _ => 0)) == 0
  {
    if n > 0 {
      ZeroSum(n - 1);
      assert seq(n, _ => 0)[1..] == seq(n - 1, _ => 0);
    }
  }

  lemma InitKeeps(n: nat)
    ensures Inv(Init(n))
  {
    var legs := Init(n).legs;
    ZeroSum(n);
    assert seq(|legs|, j requires 0 <= j < |legs| => Returns(legs[j])) == seq(n, _ => 0);
  }

  lemma RunHolds(n: nat, steps: seq<Step>)
    requires Run(Init(n), steps).Some?
    ensures Inv(Run(Init(n), steps).value) && |Run(Init(n), steps).value.legs| == n
  {
    hide Inv, Next;
    InitKeeps(n);
    RunKeeps(Init(n), steps);
  }
}
