/** Two runs that show where the lifecycle is weaker than one may expect: a signal that is lost, and a
    registration that the edge has and the leg does not know of. */
module TunnelTraces {
  import opened Options
  import opened Streams
  import opened Tunnel
  import opened TunnelRuns
  import Runs
  import S = Session
  import L = Leg

  /** A leg of a reachable state takes its move. */
  lemma Go(n: nat, steps: seq<Step>, t: Tunnel, i: nat, m: L.Move) returns (steps': seq<Step>, t': Tunnel)
    requires Run(Init(n), steps) == Some(t) && MayAct(t, i, m) && L.Next(t.legs[i], i == 0, m).Some?
    ensures Run(Init(n), steps') == Some(t')
    ensures t'.legs == t.legs[i := L.Next(t.legs[i], i == 0, m).value]
    ensures t'.reconnects == if Counts(t.legs[i], m) then Wrap(t.reconnects + 1) else t.reconnects
    ensures steps' == steps + [Act(i, m)]
  {
    hide L.Next, Init;
    Runs.Longer(Next, Init(n), steps, Act(i, m));
    steps' := steps + [Act(i, m)];
    t' := Next(t, Act(i, m)).value;
  }

  /** The signal fires, and no leg listens. */
  lemma Fires(n: nat, steps: seq<Step>, t: Tunnel) returns (steps': seq<Step>)
    requires Run(Init(n), steps) == Some(t) && forall i | 0 <= i < |t.legs| :: !L.Listening(t.legs[i])
    ensures Run(Init(n), steps') == Some(t) && steps' == steps + [Notify]
  {
    Runs.Longer(Next, Init(n), steps, Notify);
    steps' := steps + [Notify];
    assert SignalAll(t.legs) == t.legs;
  }

  /** A session that is held, its driver waiting for a command. */
  const HELD: S.Session := S.Session(0, S.Holding, S.Looping(S.Loop(true, false, [S.Details], None, 1)),
    Some(S.Details), false, None, S.Silent, false, true, [], [S.Details], 0)

  lemma HeldInThree()
    ensures S.Next(S.Begin(0), S.Reply(S.Details)).Some?
    ensures var s := S.Next(S.Begin(0), S.Reply(S.Details)).value;
            && S.Next(s, S.DriverPoll).Some?
            && S.Next(S.Next(s, S.DriverPoll).value, S.OwnerReceive) == Some(HELD)
  {
    var none: seq<S.Outcome> := [];
    assert none + [S.Details] == [S.Details];
  }

  /** The first leg registers and supervises; then its connection is lost and it sets out to reconnect. At that
      point the shutdown signal fires, and is lost: the leg registers once more and supervises its new session,
      unsignalled. */
  lemma SignalLost() returns (before: seq<Step>, after: seq<Step>, t: Tunnel, t': Tunnel)
    ensures Run(Init(1), before) == Some(t) && |before| > 0 && before[|before| - 1] == Notify
    ensures before <= after && Run(Init(1), after) == Some(t')
    ensures |t.legs| == |t'.legs| == 1 && |All(t'.legs[0])| == |All(t.legs[0])| + 1
    ensures t'.legs[0].phase == L.Supervising(false) && t'.reconnects == 1
    ensures All(t'.legs[0])[|All(t'.legs[0])| - 1].replace
  {
    hide Run, Init, S.Next;
    Start1();
    before, t := [], Tunnel([L.UNBORN], 0);
    before, t := Go(1, before, t, 0, L.Begin);
    before, t := Connects(1, before, t, 0, false, 0);
    before, t := Go(1, before, t, 0, L.Lose);
    LoseHeld();
    before, t := Go(1, before, t, 0, L.DropControl);
    before, t := Go(1, before, t, 0, L.WakeUp);
    before := Fires(1, before, t);
    after, t' := Connects(1, before, t, 0, true, 1);
  }

  lemma Start1()
    ensures Run(Init(1), []) == Some(Tunnel([L.UNBORN], 0))
  {
    assert seq(1, _ => L.UNBORN) == [L.UNBORN];
  }

  lemma LoseHeld()
    ensures S.Next(HELD, S.OwnerDrop)
         == Some(HELD.(owner := S.Closed, command := S.Sent(S.Immediate), commands := [S.Immediate]))
  {
    var none: seq<S.Command> := [];
    assert none + [S.Immediate] == [S.Immediate];
  }

  /** From a connect cycle to the supervision of a new session, which takes its replies at once. */
  lemma Connects(n: nat, steps: seq<Step>, t: Tunnel, i: nat, again: bool, k: nat)
    returns (steps': seq<Step>, t': Tunnel)
    requires Run(Init(n), steps) == Some(t) && i < |t.legs|
    requires t.legs[i].phase == L.Dialing(again, k) && t.reconnects == 0
    ensures Run(Init(n), steps') == Some(t') && steps <= steps'
    ensures var r := L.Registration(again, HELD);
            t'.legs == t.legs[i := t.legs[i].(phase := L.Supervising(false), current := Some(r))]
    ensures t'.reconnects == t.reconnects + if again then 1 else 0
  {
    hide Run, Init, S.Next, S.Begin;
    HeldInThree();
    steps', t' := Go(n, steps, t, i, L.Register);
    steps', t' := Go(n, steps', t', i, L.CurrentDriver(S.Reply(S.Details)));
    steps', t' := Go(n, steps', t', i, L.CurrentDriver(S.DriverPoll));
    steps', t' := Go(n, steps', t', i, L.Answer(S.OwnerReceive));
    steps', t' := Go(n, steps', t', i, L.Enter);
  }

  /** Time passes for a leg that waits for the answer to its register. */
  lemma {:induction false} Idles(n: nat, steps: seq<Step>, t: Tunnel, i: nat, s: S.Session, ticks: nat)
    returns (steps': seq<Step>, t': Tunnel)
    requires Run(Init(n), steps) == Some(t) && i < |t.legs| && t.legs[i].current == Some(L.Registration(false, s))
    requires s.owner.Waiting? && s.driver.Looping? && s.now + ticks <= s.owner.until
    ensures Run(Init(n), steps') == Some(t') && t'.reconnects == t.reconnects
    ensures t'.legs == t.legs[i := t.legs[i].(current := Some(L.Registration(false, s.(now := s.now + ticks))))]
    decreases ticks
  {
    hide Run, Init;
    steps', t' := steps, t;
    if ticks > 0 {
      steps', t' := Go(n, steps, t, i, L.CurrentDriver(S.Tick));
      steps', t' := Idles(n, steps', t', i, s.(now := s.now + 1), ticks - 1);
    }
  }

  /** What becomes of a session whose register the edge has answered, but whose owner has stopped waiting. */
  const LATE: S.Session := S.Session(S.RPC_TIMEOUT, S.Failed, S.Finished, Some(S.Details), false, None, S.SenderGone,
    true, false, [], [S.Details], 0)

  function Answered(): S.Session { S.Begin(0).(call := Some(S.Details)) }

  function TimedOut(): S.Session { S.GiveUp(Answered().(now := S.RPC_TIMEOUT)) }

  lemma LateSteps()
    ensures S.Next(S.Begin(0), S.Reply(S.Details)) == Some(Answered())
    ensures S.Next(Answered().(now := S.RPC_TIMEOUT), S.OwnerTimeout) == Some(TimedOut())
    ensures var s := S.Next(TimedOut(), S.DriverPoll); s.Some? && S.Next(s.value, S.DriverPoll) == Some(LATE)
  {
    var none: seq<S.Outcome> := [];
    assert none + [S.Details] == [S.Details];
  }

  /** `replace_existing` tells what the leg knows, not what the edge has: a leg whose first register succeeded
      at the edge, with an answer that came too late, registers again without the flag, and the session that
      the edge has is never unregistered. */
  lemma LateReply() returns (steps: seq<Step>, t: Tunnel)
    ensures Run(Init(2), steps) == Some(t) && |t.legs| == 2
    ensures var l := t.legs[1];
            && l.past == [L.Registration(false, LATE)]
            && l.phase == L.Registering(false, 1) && l.current.Some? && !l.current.value.replace
  {
    hide Run, Init, S.Next;
    Start2();
    steps, t := [], Tunnel([L.UNBORN, L.UNBORN], 0);
    steps, t := Go(2, steps, t, 0, L.Begin);
    steps, t := Connects(2, steps, t, 0, false, 0);
    FirstWon(t.legs[0]);
    steps, t := TimesOut(steps, t);
    steps, t := TriesAgain(steps, t);
  }

  lemma TriesAgain(steps: seq<Step>, t: Tunnel) returns (steps': seq<Step>, t': Tunnel)
    requires Run(Init(2), steps) == Some(t) && |t.legs| == 2
    requires t.legs[1] == L.Leg(L.BackingOff(false, 1, false), [L.Registration(false, TimedOut())], None, 0, 0)
    ensures Run(Init(2), steps') == Some(t') && |t'.legs| == 2
    ensures var l := t'.legs[1];
            && l.past == [L.Registration(false, LATE)]
            && l.phase == L.Registering(false, 1) && l.current.Some? && !l.current.value.replace
  {
    hide Run, Init, S.Next, S.Begin, TimedOut;
    LateSteps();
    steps', t' := Go(2, steps, t, 1, L.WakeUp);
    steps', t' := Go(2, steps', t', 1, L.Register);
    steps', t' := Go(2, steps', t', 1, L.OldDriver(0, S.DriverPoll));
    steps', t' := Go(2, steps', t', 1, L.OldDriver(0, S.DriverPoll));
  }

  lemma TimesOut(steps: seq<Step>, t: Tunnel) returns (steps': seq<Step>, t': Tunnel)
    requires Run(Init(2), steps) == Some(t) && |t.legs| == 2 && t.legs[1] == L.UNBORN && L.Won(t.legs[0]) > 0
    ensures Run(Init(2), steps') == Some(t') && |t'.legs| == 2
    ensures t'.legs[1] == L.Leg(L.BackingOff(false, 1, false), [L.Registration(false, TimedOut())], None, 0, 0)
  {
    hide Run, Init, S.Next, L.Won;
    LateSteps();
    steps', t' := Go(2, steps, t, 1, L.Begin);
    steps', t' := Go(2, steps', t', 1, L.Register);
    steps', t' := Go(2, steps', t', 1, L.CurrentDriver(S.Reply(S.Details)));
    steps', t' := Idles(2, steps', t', 1, Answered(), S.RPC_TIMEOUT);
    steps', t' := Go(2, steps', t', 1, L.Answer(S.OwnerTimeout));
  }

  lemma FirstWon(l: L.Leg)
    requires l.current == Some(L.Registration(false, HELD))
    ensures L.Won(l) > 0
  {
  }

  lemma Start2()
    ensures Run(Init(2), []) == Some(Tunnel([L.UNBORN, L.UNBORN], 0))
  {
    assert seq(2, _ => L.UNBORN) == [L.UNBORN, L.UNBORN];
  }
}
