/** What holds in every run of a tunnel: sessions, flags, reconnect counts, giving up, and shutting down. */
module TunnelRuns {
  import opened Options
  import opened Streams
  import opened Retry
  import opened Tunnel
  import S = Session
  import L = Leg

  /** A leg in some state of some run. */
  ghost predicate Reached(n: nat, steps: seq<Step>, i: nat, l: L.Leg) {
    Run(Init(n), steps).Some? && i < |Run(Init(n), steps).value.legs| && Run(Init(n), steps).value.legs[i] == l
  }

  lemma ReachedKeeps(n: nat, steps: seq<Step>, i: nat, l: L.Leg)
    requires Reached(n, steps, i, l)
    ensures L.Inv(l)
  {
    hide L.Inv, Init, Run;
    RunHolds(n, steps);
  }

  /** Every register that the leg has sent, in order. */
  function All(l: L.Leg): seq<L.Registration> { if l.current.Some? then l.past + [l.current.value] else l.past }

  /** It was stopped while it supervised. */
  predicate Graceful(l: L.Leg) { l.phase.Closing? || l.phase == L.Over(L.ShutDown(true)) }

  /** A leg holds at most one live session. It is done with all others: one that it got was ended by exactly
      one command, the immediate close if the connection was lost; only a leg that was stopped while it
      supervised gives the graceful one. None is left when a register is sent. */
  lemma SessionConservation(n: nat, steps: seq<Step>, i: nat, l: L.Leg)
    requires Reached(n, steps, i, l)
    ensures forall j | 0 <= j < |l.past| ::
              && (l.past[j].session.owner.Closed? || l.past[j].session.owner.Failed?)
              && l.past[j].session.commands == if l.past[j].session.got then [S.Immediate] else []
    ensures L.Next(l, i == 0, L.Register).Some? ==> l.current.None?
    ensures l.current.Some? ==> l.current.value.session.commands == (if Graceful(l) then [S.Graceful(30)] else [])
    ensures l.phase.Over? ==> (l.current.Some? <==> l.phase.end == L.ShutDown(true))
    ensures l.phase.Over? && l.current.Some? ==> L.SessionOver(l.current.value.session)
  {
    hide Reached, Retry.Slept, L.Wins, L.Honest;
    ReachedKeeps(n, steps, i, l);
  }

  lemma {:induction false} WinsExist(rs: seq<L.Registration>)
    ensures L.Wins(rs) > 0 <==> exists k :: 0 <= k < |rs| && rs[k].session.got
    decreases |rs|
  {
    if rs != [] {
      var m := |rs| - 1;
      WinsExist(rs[..m]);
      if k :| 0 <= k < |rs| && rs[k].session.got {
        if k < m { assert rs[..m][k].session.got; }
      }
    }
  }

  lemma {:induction false} HonestAt(rs: seq<L.Registration>, j: nat)
    requires L.Honest(rs) && j < |rs|
    ensures rs[j].replace <==> exists k :: 0 <= k < j && rs[k].session.got
    decreases |rs|
  {
    var m := |rs| - 1;
    if j < m {
      HonestAt(rs[..m], j);
      assert rs[..m][j] == rs[j];
      forall k | 0 <= k < j ensures rs[..m][k] == rs[k] {}
    } else {
      WinsExist(rs[..m]);
      forall k | 0 <= k < m ensures rs[..m][k] == rs[k] {}
    }
  }

  lemma AllOk(l: L.Leg)
    requires L.Inv(l)
    ensures L.Honest(All(l)) && L.Wins(All(l)) == L.Won(l)
  {
    hide S.Inv, Retry.Slept, L.Holding, L.Alone, L.Attempt, L.Resting;
    if l.current.Some? { assert (l.past + [l.current.value])[..|l.past|] == l.past; }
  }

  /** In every run, a leg sends `replace_existing` exactly when an earlier register of it got the details. */
  lemma ReplaceExact(n: nat, steps: seq<Step>, i: nat, l: L.Leg, j: nat)
    requires Reached(n, steps, i, l) && j < |All(l)|
    ensures All(l)[j].replace <==> exists k :: 0 <= k < j && All(l)[k].session.got
  {
    hide Reached, L.Inv, All, L.Honest;
    ReachedKeeps(n, steps, i, l);
    AllOk(l);
    HonestAt(All(l), j);
  }

  /** In every run, the shared counter is the sum over the legs of the registrations that got the details but
      the first, less an increment in flight. */
  lemma ReconnectsExact(n: nat, steps: seq<Step>)
    requires Run(Init(n), steps).Some?
    ensures var t := Run(Init(n), steps).value;
            && t.reconnects == Wrap(Tally(t.legs))
            && forall i | 0 <= i < |t.legs| :: var w := L.Wins(All(t.legs[i]));
                 Returns(t.legs[i])
                 == if w == 0 then 0 else w - 1 - if t.legs[i].phase == L.Entering(true) then 1 else 0
  {
    hide Init, Run, L.Inv, L.Wins, L.Won, All;
    RunHolds(n, steps);
    var t := Run(Init(n), steps).value;
    forall i | 0 <= i < |t.legs|
      ensures var w := L.Wins(All(t.legs[i]));
              Returns(t.legs[i]) == if w == 0 then 0 else w - 1 - if t.legs[i].phase == L.Entering(true) then 1 else 0
    {
      AllOk(t.legs[i]);
      if t.legs[i].phase.Entering? { EnteringWon(t.legs[i]); }
    }
  }

  /** Over its whole life, with however many sessions, a leg sends at most one `unregisterConnection`: the
      sessions it is done with sent none, and the one it holds sends one only while the leg shuts down. */
  lemma UnregistersOnce(n: nat, steps: seq<Step>, i: nat, l: L.Leg)
    requires Reached(n, steps, i, l)
    ensures forall j | 0 <= j < |l.past| :: l.past[j].session.unregisters == 0
    ensures l.current.Some? && l.current.value.session.unregisters > 0 ==>
              l.current.value.session.unregisters == 1 && l.current.value.session.got && Graceful(l)
  {
    hide Reached, Retry.Slept, L.Wins, L.Honest;
    ReachedKeeps(n, steps, i, l);
  }

  // ── Giving up ──

  /** In every run, a leg gives up exactly when ten retries in a row have failed, and has then slept 181 s since
      the outage began; while it still tries, fewer have failed and `Slept` says how long it has slept. */
  lemma GivesUpExactly(n: nat, steps: seq<Step>, i: nat, l: L.Leg)
    requires Reached(n, steps, i, l) && l.phase != L.Over(L.NotStarted)
    requires l.phase.Dialing? || l.phase.Registering? || l.phase.BackingOff? || l.phase == L.Over(L.Exhausted)
    ensures l.phase == L.Over(L.Exhausted) <==> l.fails == 10
    ensures l.fails <= 10
    ensures l.phase == L.Over(L.Exhausted) ==> l.slept == 181
    ensures l.phase.BackingOff? ==> l.slept == Slept(l.fails)
    ensures (l.phase.Dialing? || l.phase.Registering?) && l.phase.k > 0 ==> l.slept == Slept(l.fails + 1)
  {
    hide Reached, Retry.Slept, L.PastOk, L.Wins, S.Inv;
    ReachedKeeps(n, steps, i, l);
  }

  // ── Starting ──

  /** Only the first leg can fail to start, and the others have not begun unless the first has registered. */
  ghost predicate StartOk(legs: seq<L.Leg>) {
    forall i | 0 < i < |legs| :: legs[i].phase != L.Over(L.NotStarted) && (legs[i] == L.UNBORN || L.Won(legs[0]) > 0)
  }

  lemma MoveStarts(l: L.Leg, m: L.Move)
    requires l.phase != L.Over(L.NotStarted) && L.Next(l, false, m).Some?
    ensures L.Next(l, false, m).value.phase != L.Over(L.NotStarted)
    ensures l == L.UNBORN ==> m.Begin?
  {
    hide S.Next;
  }

  lemma StepStarts(t: Tunnel, step: Step)
    requires Inv(t) && StartOk(t.legs) && Next(t, step).Some?
    ensures StartOk(Next(t, step).value.legs)
  {
    hide L.Next, L.Inv, L.Won, Tally;
    var t' := Next(t, step).value;
    if step.Notify? {
      forall i | 0 <= i < |t.legs|
        ensures L.Won(t'.legs[i]) == L.Won(t.legs[i])
        ensures t.legs[i].phase != L.Over(L.NotStarted) ==> t'.legs[i].phase != L.Over(L.NotStarted)
      {
        L.SignalKeeps(t.legs[i]);
      }
    } else {
      L.StepKeeps(t.legs[step.i], step.i == 0, step.move);
      if step.i > 0 { MoveStarts(t.legs[step.i], step.move); }
    }
  }

  lemma RunStarts(t: Tunnel, steps: seq<Step>)
    requires Inv(t) && StartOk(t.legs) && Run(t, steps).Some?
    ensures StartOk(Run(t, steps).value.legs)
  {
    hide Inv, Next, StartOk;
    forall t, step | Inv(t) && StartOk(t.legs) && Next(t, step).Some?
      ensures Inv(Next(t, step).value) && StartOk(Next(t, step).value.legs)
    {
      StepKeeps(t, step);
      StepStarts(t, step);
    }
    Runs.Keeps(Next, t => Inv(t) && StartOk(t.legs), t, steps);
  }

  /** From one phase of the first connect to the next: no change, on to the register, success, or the first retry. */
  predicate TriesOn(from: L.Phase, p: L.Phase) {
    p == from || p == L.Registering(false, 0) || p == L.Entering(false) || p == L.BackingOff(false, 1, false)
  }

  /** The first connect of a further leg: whatever ends it but success, the leg goes on to its retries. */
  lemma FirstConnectEnds(l: L.Leg, m: L.Move)
    requires (l.phase == L.Dialing(false, 0) || l.phase == L.Registering(false, 0)) && L.Next(l, false, m).Some?
    ensures var p := L.Next(l, false, m).value.phase;
            TriesOn(l.phase, p)
    ensures m.DialFails? || m == L.Answer(S.OwnerTimeout) ==>
              L.Next(l, false, m).value.phase == L.BackingOff(false, 1, false)
  {
    hide Run;
  }

  /** The first connect of the first leg: whatever ends it but success, `start` has failed. */
  lemma StartFails(l: L.Leg, m: L.Move)
    requires (l.phase == L.Dialing(false, 0) || l.phase == L.Registering(false, 0)) && L.Next(l, true, m).Some?
    ensures var p := L.Next(l, true, m).value.phase;
            p == l.phase || p == L.Registering(false, 0) || p == L.Entering(false) || p == L.Over(L.NotStarted)
    ensures m.DialFails? || m == L.Answer(S.OwnerTimeout) || m == L.Answer(S.OwnerCancel) ==>
              L.Next(l, true, m).value.phase == L.Over(L.NotStarted)
  {
  }

  /** If `start` fails, no leg but the first has sent a register; and a further leg whose first connect fails always
      goes on to its retries. */
  lemma StartFailsAlone(n: nat, steps: seq<Step>, i: nat)
    requires Run(Init(n), steps).Some? && 0 < i < |Run(Init(n), steps).value.legs|
    ensures var legs := Run(Init(n), steps).value.legs;
            && legs[i].phase != L.Over(L.NotStarted)
            && (legs[0].phase == L.Over(L.NotStarted) ==> legs[i] == L.UNBORN)
    ensures var l := Run(Init(n), steps).value.legs[i];
            l.phase == L.Dialing(false, 0) || l.phase == L.Registering(false, 0) ==>
              forall m | L.Next(l, false, m).Some? ::
                var p := L.Next(l, false, m).value.phase;
                TriesOn(l.phase, p)
  {
    hide Run, L.Inv;
    RunHolds(n, steps);
    InitKeeps(n);
    RunStarts(Init(n), steps);
    var legs := Run(Init(n), steps).value.legs;
    if legs[0].phase == L.Over(L.NotStarted) { NothingWon(legs[0]); }
    hide L.Next;
    if legs[i].phase == L.Dialing(false, 0) || legs[i].phase == L.Registering(false, 0) {
      forall m | L.Next(legs[i], false, m).Some?
        ensures var p := L.Next(legs[i], false, m).value.phase;
                TriesOn(legs[i].phase, p)
      {
        FirstConnectEnds(legs[i], m);
      }
    }
  }

  lemma NothingWon(l: L.Leg)
    requires L.Inv(l) && l.phase == L.Over(L.NotStarted)
    ensures L.Won(l) == 0
  {
    hide L.Wins, L.PastOk;
  }

  // ── Shutting down ──

  /** The signal has reached the leg at one of its selects: it winds down, or has ended. */
  predicate Winding(l: L.Leg) {
    l.phase == L.Supervising(true) || (l.phase.BackingOff? && l.phase.signalled) || l.phase.Closing?
    || (l.phase.Over? && l.phase.end.ShutDown?)
  }

  /** How many moves of its own it has left. */
  function Left(l: L.Leg): nat {
    if l.phase.Over? then 0 else if l.phase.Supervising? then 2 else 1
  }

  /** Whether it has a session to close gracefully. */
  predicate Closes(l: L.Leg) { l.phase.Supervising? || Graceful(l) }

  lemma MoveWinds(l: L.Leg, first: bool, m: L.Move)
    requires Winding(l) && L.Next(l, first, m).Some?
    ensures var l' := L.Next(l, first, m).value;
            && Winding(l') && |All(l')| == |All(l)| && (Closes(l') <==> Closes(l))
            && Left(l') == Left(l) - if L.Own(m) then 1 else 0
  {
    hide S.Next;
  }

  lemma SignalWinds(l: L.Leg)
    requires Winding(l)
    ensures var l' := L.Signal(l);
            Winding(l') && All(l') == All(l) && (Closes(l') <==> Closes(l)) && Left(l') == Left(l)
  {
  }

  /** The leg's own moves in a run. */
  function OwnMoves(steps: seq<Step>, i: nat): nat {
    if steps == [] then 0
    else (if steps[0].Act? && steps[0].i == i && L.Own(steps[0].move) then 1 else 0) + OwnMoves(steps[1..], i)
  }

  lemma StepWinds(t: Tunnel, step: Step, i: nat)
    requires i < |t.legs| && Winding(t.legs[i]) && Next(t, step).Some?
    ensures var t' := Next(t, step).value;
            && i < |t'.legs| && Winding(t'.legs[i]) && |All(t'.legs[i])| == |All(t.legs[i])|
            && (Closes(t'.legs[i]) <==> Closes(t.legs[i]))
            && Left(t.legs[i]) == Left(t'.legs[i]) + OwnMoves([step], i)
  {
    hide L.Next, Winding, All, Closes, Left, L.Signal;
    assert OwnMoves([step][1..], i) == 0;
    if step.Notify? {
      SignalWinds(t.legs[i]);
    } else if step.i == i {
      MoveWinds(t.legs[i], i == 0, step.move);
    }
  }

  /** Shutdown safety: once the signal has reached a leg at either select, then in every run from there, with
      the other legs doing what they may, it sends no further register and makes at most two more moves. */
  lemma {:induction false} ShutdownSafety(t: Tunnel, steps: seq<Step>, i: nat)
    requires i < |t.legs| && Winding(t.legs[i]) && Run(t, steps).Some?
    ensures var t' := Run(t, steps).value;
            && i < |t'.legs| && Winding(t'.legs[i]) && |All(t'.legs[i])| == |All(t.legs[i])|
            && (Closes(t'.legs[i]) <==> Closes(t.legs[i]))
            && Left(t.legs[i]) == Left(t'.legs[i]) + OwnMoves(steps, i)
    decreases |steps|
  {
    hide Next, Winding, All, Closes, Left;
    if steps != [] {
      StepWinds(t, steps[0], i);
      assert OwnMoves([steps[0]][1..], i) == 0;
      ShutdownSafety(Next(t, steps[0]).value, steps[1..], i);
    }
  }

  lemma MoveStaysMissed(l: L.Leg, first: bool, m: L.Move)
    requires !Winding(l) && L.Next(l, first, m).Some?
    ensures !Winding(L.Next(l, first, m).value)
  {
    hide S.Next;
  }

  /** Without a signal no leg shuts down, whatever becomes of the others: one that does not wind down runs on, gives
      up, or, if it is the first, never starts. */
  lemma {:induction false} NoSignalNoStop(t: Tunnel, steps: seq<Step>, i: nat)
    requires i < |t.legs| && !Winding(t.legs[i]) && Run(t, steps).Some?
    requires forall k | 0 <= k < |steps| :: steps[k] != Notify
    ensures i < |Run(t, steps).value.legs| && !Winding(Run(t, steps).value.legs[i])
    decreases |steps|
  {
    hide L.Next, Winding;
    if steps != [] {
      if steps[0].i == i { MoveStaysMissed(t.legs[i], i == 0, steps[0].move); }
      assert forall k | 0 <= k < |steps| - 1 :: steps[1..][k] == steps[k + 1];
      NoSignalNoStop(Next(t, steps[0]).value, steps[1..], i);
    }
  }

  predicate ShutDown(l: L.Leg) { l.phase.Over? && l.phase.end.ShutDown? }

  /** Whom the signal stops, over whole runs. From any reachable state let the signal fire, and then anything happen
      but another signal: a leg winds down, and sends no further register, if and only if it was at one of its two
      selects, supervising or backing off for whatever attempt, or winding down already, when the signal fired. From
      the one select it has shut down after two moves of its own, from the other after one. A leg that was elsewhere,
      as in a connect cycle, never shuts down. */
  lemma ShutdownReaches(n: nat, before: seq<Step>, after: seq<Step>, i: nat)
    requires Run(Init(n), before).Some? && i < |Run(Init(n), before).value.legs|
    requires Run(Run(Init(n), before).value, [Notify] + after).Some?
    requires forall k | 0 <= k < |after| :: after[k] != Notify
    ensures var t := Run(Init(n), before).value;
            var t' := Run(t, [Notify] + after).value;
            && i < |t'.legs|
            && var l, l' := t.legs[i], t'.legs[i];
            && (Winding(l') <==> l.phase.Supervising? || l.phase.BackingOff? || l.phase.Closing? || ShutDown(l))
            && (ShutDown(l') <==>
                  match l.phase
                  case Supervising(_) => OwnMoves(after, i) == 2
                  case BackingOff(_, _, _) => OwnMoves(after, i) == 1
                  case Closing => OwnMoves(after, i) == 1
                  case Over(end) => end.ShutDown?
                  case _ => false)
            && (l.phase.Supervising? || l.phase.BackingOff? ==> |All(l')| == |All(l)| && OwnMoves(after, i) <= 2)
  {
    hide Run, L.Inv, L.Next, OwnMoves;
    var t := Run(Init(n), before).value;
    var t1 := t.(legs := SignalAll(t.legs));
    SignalFirst(t, after);
    SignalByPhase(t.legs[i]);
    assert t1.legs[i] == L.Signal(t.legs[i]);
    if Winding(t1.legs[i]) {
      ShutdownSafety(t1, after, i);
      EndsWound(Run(t1, after).value.legs[i]);
    } else {
      NoSignalNoStop(t1, after, i);
    }
  }

  /** What the signal makes of each phase. */
  lemma SignalByPhase(l: L.Leg)
    ensures var l1 := L.Signal(l);
            && All(l1) == All(l)
            && (Winding(l1) <==> l.phase.Supervising? || l.phase.BackingOff? || l.phase.Closing? || ShutDown(l))
            && (l.phase.Supervising? ==> Left(l1) == 2) && (l.phase.BackingOff? || l.phase.Closing? ==> Left(l1) == 1)
            && (ShutDown(l) ==> Left(l1) == 0)
  {
  }

  lemma SignalFirst(t: Tunnel, after: seq<Step>)
    ensures Run(t, [Notify] + after) == Run(t.(legs := SignalAll(t.legs)), after)
  {
    assert ([Notify] + after)[1..] == after;
  }

  lemma EndsWound(l: L.Leg)
    requires Winding(l)
    ensures ShutDown(l) <==> Left(l) == 0
  {
  }

  /** When it has ended: exactly one graceful command in case it was supervising when the signal came, and no
      further one in case it was backing off. */
  lemma ShutdownCommands(n: nat, before: seq<Step>, after: seq<Step>, i: nat, l: L.Leg, l': L.Leg)
    requires Reached(n, before, i, l) && (l.phase == L.Supervising(true) || (l.phase.BackingOff? && l.phase.signalled))
    requires var t := Run(Init(n), before).value;
             Run(t, after).Some? && i < |Run(t, after).value.legs| && l' == Run(t, after).value.legs[i]
    requires Left(l') == 0
    ensures |All(l')| == |All(l)|
    ensures l.phase.Supervising? ==>
              && l'.current.Some? && L.SessionOver(l'.current.value.session)
              && l'.current.value.session.commands == [S.Graceful(30)]
    ensures l.phase.BackingOff? ==> l'.current.None?
  {
    hide L.Inv, Run, Init;
    var t := Run(Init(n), before).value;
    RunHolds(n, before);
    RunKeeps(t, after);
    ShutdownSafety(t, after, i);
    EndedHow(l');
  }

  lemma EndedHow(l: L.Leg)
    requires L.Inv(l) && l.phase.Over? && l.phase.end.ShutDown?
    ensures l.phase.end.closing <==> l.current.Some?
    ensures l.current.Some? ==>
              && L.SessionOver(l.current.value.session)
              && l.current.value.session.commands == [S.Graceful(30)]
  {
  }

  /** A leg that the signal has reached can always go on: it can stop at once, and then waits for its session
      until that is done or the wait, bounded by the grace period and two seconds, is over. */
  lemma ShutdownProgress(n: nat, steps: seq<Step>, i: nat, l: L.Leg)
    requires Reached(n, steps, i, l) && Winding(l) && !l.phase.Over?
    ensures !l.phase.Closing? ==> L.Next(l, i == 0, L.Stop).Some?
    ensures l.phase.Closing? ==>
              && l.current.Some?
              && var s := l.current.value.session;
              && s.owner.Closing? && s.now <= s.owner.since + 32
              && (s.done || s.now == s.owner.since + 32 ==>
                    L.Next(l, i == 0, L.StopDone).Some?)
  {
    hide Reached, Retry.Slept, L.PastOk, L.Wins;
    ReachedKeeps(n, steps, i, l);
  }

  /** The signal takes effect on a leg exactly if the leg is at one of its two selects: elsewhere, and so during
      the whole of a connect cycle, it changes nothing at all. */
  lemma SignalTaken(n: nat, steps: seq<Step>, i: nat, l: L.Leg)
    requires Reached(n, steps, i, l)
    ensures var t := Next(Run(Init(n), steps).value, Notify).value;
            && i < |t.legs| && t.reconnects == Run(Init(n), steps).value.reconnects
            && (L.Next(t.legs[i], i == 0, L.Stop).Some? <==> l.phase.Supervising? || l.phase.BackingOff?)
            && (!l.phase.Supervising? && !l.phase.BackingOff? ==> t.legs[i] == l)
  {
    hide Run, Init, L.Inv;
    ReachedKeeps(n, steps, i, l);
    CanStop(l, i == 0);
  }

  lemma CanStop(l: L.Leg, first: bool)
    requires L.Inv(l)
    ensures L.Next(L.Signal(l), first, L.Stop).Some? <==> l.phase.Supervising? || l.phase.BackingOff?
    ensures !l.phase.Supervising? && !l.phase.BackingOff? ==> L.Signal(l) == l
  {
    hide Retry.Slept, L.PastOk, L.Wins;
  }
}
