/** One leg of the tunnel: the reactor that connects, supervises, loses its connection, backs off, reconnects,
    gives up or shuts down (`connect_cycle`, `reactor_loop`, `reactor_loop_after_failure`), together with every
    control session that it has opened. */
module Leg {
  import opened Options
  import opened Retry
  import S = Session

  /** `DEFAULT_GRACE_PERIOD`, in seconds */
  const GRACE: nat := 30

  /** Why a leg is over: the first connect of the first leg failed, ten retries in a row failed, or it was
      stopped, with a session to close or while it backed off. */
  datatype End = NotStarted | Exhausted | ShutDown(closing: bool)

  /** Attempt 0 is the first connect, the others are retries; `again` is the flag the call site passes. A leg
      listens to the shutdown signal only where it says `signalled`. */
  datatype Phase =
    | Unborn
    | Dialing(again: bool, k: nat)
    | Registering(again: bool, k: nat)
    | Entering(again: bool)
    | Supervising(signalled: bool)
    | Losing
    | BackingOff(again: bool, k: nat, signalled: bool)
    | Closing
    | Over(end: End)

  /** A register that was sent, with its `replace_existing` flag, and the session it opened. */
  datatype Registration = Registration(replace: bool, session: S.Session)

  /** The registrations that the leg is done with, the one it holds, and, since its outage began, how many
      retries have failed and how long it has slept. */
  datatype Leg = Leg(phase: Phase, past: seq<Registration>, current: Option<Registration>, fails: nat, slept: nat)

  const UNBORN: Leg := Leg(Unborn, [], None, 0, 0)

  datatype Move =
    | Begin
    | DialFails
    | Register
    | Answer(step: S.Step)
    | Enter
    | Lose
    | DropControl
    | WakeUp
    | Stop
    | StopDone
    | OldDriver(j: nat, step: S.Step)
    | CurrentDriver(step: S.Step)

  /** The leg's own moves; the others are those of the sessions' drivers. */
  predicate Own(m: Move) { !m.OldDriver? && !m.CurrentDriver? }

  /** What the leg does when attempt `k` has failed. */
  function AfterFailure(l: Leg, first: bool, again: bool, k: nat): Leg {
    if k == 0 then l.(phase := if first then Over(NotStarted) else BackingOff(false, 1, false))
    else if k + 1 > MAX_RECONNECT_ATTEMPTS then l.(phase := Over(Exhausted), fails := l.fails + 1)
    else l.(phase := BackingOff(again, k + 1, false), fails := l.fails + 1)
  }

  /** The current registration, its session now `s`, becomes an old one. */
  function Retire(l: Leg, r: Registration, s: S.Session): Leg {
    l.(past := l.past + [r.(session := s)], current := None)
  }

  /** `register_connection` returns; only `start` can be cancelled while it waits. */
  function Answered(l: Leg, first: bool, again: bool, k: nat, step: S.Step): Option<Leg> {
    if l.current.None? then None
    else if !(step.OwnerReceive? || step.OwnerTimeout? || (step.OwnerCancel? && first && k == 0)) then None
    else
      var r := l.current.value;
      match S.Next(r.session, step)
      case None => None
      case Some(s) =>
        if s.owner.Holding? then Some(l.(phase := Entering(again), current := Some(r.(session := s))))
        else Some(AfterFailure(Retire(l, r, s), first, again, k))
  }

  /** `drop(control)`, and the retries begin. */
  function Dropped(l: Leg): Option<Leg> {
    if l.current.None? then None
    else
      match S.Next(l.current.value.session, S.OwnerDrop)
      case None => None
      case Some(s) =>
        Some(Retire(l, l.current.value, s).(phase := BackingOff(true, 1, false), fails := 0, slept := 0))
  }

  /** The current session's owner or driver takes a step. */
  function Moved(l: Leg, step: S.Step, phase: Phase): Option<Leg> {
    if l.current.None? then None
    else
      match S.Next(l.current.value.session, step)
      case None => None
      case Some(s) => Some(l.(phase := phase, current := Some(l.current.value.(session := s))))
  }

  function OldMoved(l: Leg, j: nat, step: S.Step): Option<Leg> {
    if j >= |l.past| then None
    else
      match S.Next(l.past[j].session, step)
      case None => None
      case Some(s) => Some(l.(past := l.past[j := l.past[j].(session := s)]))
  }

  /** The signal stops a leg at either of its selects. */
  function Stopping(l: Leg): Option<Leg> {
    if l.phase == Supervising(true) then Moved(l, S.OwnerShutdown(GRACE), Closing)
    else if l.phase.BackingOff? && l.phase.signalled then Some(l.(phase := Over(ShutDown(false))))
    else None
  }

  function Next(l: Leg, first: bool, m: Move): Option<Leg> {
    match m
    case Begin => if l.phase.Unborn? then Some(l.(phase := Dialing(false, 0))) else None
    case DialFails => if l.phase.Dialing? then Some(AfterFailure(l, first, l.phase.again, l.phase.k)) else None
    case Register =>
      if l.phase.Dialing?
      then
        var r := Registration(l.phase.again, S.Begin(0));
        Some(l.(phase := Registering(l.phase.again, l.phase.k), current := Some(r)))
      else None
    case Answer(step) => if l.phase.Registering? then Answered(l, first, l.phase.again, l.phase.k, step) else None
    case Enter => if l.phase.Entering? then Some(l.(phase := Supervising(false))) else None
    case Lose => if l.phase == Supervising(false) then Some(l.(phase := Losing)) else None
    case DropControl => if l.phase.Losing? then Dropped(l) else None
    case WakeUp =>
      if l.phase.BackingOff? && !l.phase.signalled
      then Some(l.(phase := Dialing(l.phase.again, l.phase.k), slept := l.slept + Backoff(l.phase.k))) else None
    case Stop => Stopping(l)
    case StopDone => if l.phase.Closing? then Moved(l, S.OwnerDone, Over(ShutDown(true))) else None
    case OldDriver(j, step) => if S.OwnerActs(step) then None else OldMoved(l, j, step)
    case CurrentDriver(step) => if S.OwnerActs(step) then None else Moved(l, step, l.phase)
  }

  predicate Listening(l: Leg) { l.phase.Supervising? || l.phase.BackingOff? }

  /** `notify_waiters`: it leaves no permit behind, so a leg that is not listening does not get it. */
  function Signal(l: Leg): Leg {
    if Listening(l) then l.(phase := l.phase.(signalled := true)) else l
  }

  // ── What every move keeps ──

  /** How many of the registrations got the details. */
  function Wins(rs: seq<Registration>): nat
    decreases |rs|
  {
    if rs == [] then 0 else Wins(rs[..|rs| - 1]) + if rs[|rs| - 1].session.got then 1 else 0
  }

  /** Each sent the flag exactly when an earlier one had got the details. */
  ghost predicate Honest(rs: seq<Registration>)
    decreases |rs|
  {
    rs != [] ==> Honest(rs[..|rs| - 1]) && (rs[|rs| - 1].replace <==> Wins(rs[..|rs| - 1]) > 0)
  }

  /** Registrations of this leg that got the details. */
  function Won(l: Leg): nat {
    Wins(l.past) + if l.current.Some? && l.current.value.session.got then 1 else 0
  }

  predicate SessionOver(s: S.Session) { s.owner.Closed? || s.owner.Failed? }

  /** A session that never got the details got no command, one that was lost got the immediate close. */
  predicate Spent(s: S.Session) { SessionOver(s) && s.commands == if s.got then [S.Immediate] else [] }

  ghost predicate PastOk(rs: seq<Registration>) {
    Honest(rs) && forall j | 0 <= j < |rs| :: S.Inv(rs[j].session) && Spent(rs[j].session)
  }

  /** An attempt under way: the flag is right, and what was slept and what failed are those of `k` retries. */
  ghost predicate Attempt(wins: nat, again: bool, k: nat, fails: nat, slept: nat) {
    && (again <==> wins > 0) && (again ==> k >= 1) && k <= MAX_RECONNECT_ATTEMPTS
    && slept == Slept(k) && fails == if k == 0 then 0 else k - 1
  }

  ghost predicate Resting(wins: nat, again: bool, k: nat, fails: nat, slept: nat) {
    && (again <==> wins > 0) && 1 <= k <= MAX_RECONNECT_ATTEMPTS && slept == Slept(k - 1) && fails == k - 1
  }

  /** What a leg that holds no session is at. */
  ghost predicate Alone(phase: Phase, wins: nat, fails: nat, slept: nat) {
    match phase
    case Unborn => wins == 0 && fails == 0 && slept == 0
    case Dialing(again, k) => Attempt(wins, again, k, fails, slept)
    case BackingOff(again, k, _) => Resting(wins, again, k, fails, slept)
    case Over(NotStarted) => wins == 0
    case Over(Exhausted) => fails == MAX_RECONNECT_ATTEMPTS && slept == 181
    case Over(ShutDown(closing)) => !closing
    case _ => false
  }

  /** What a leg that holds session `s` is at. */
  ghost predicate Holding(phase: Phase, wins: nat, s: S.Session, replace: bool, fails: nat, slept: nat) {
    match phase
    case Registering(again, k) => s.owner.Waiting? && replace == again && Attempt(wins, again, k, fails, slept)
    case Entering(again) => s.owner.Holding? && replace == again
    case Supervising(_) => s.owner.Holding?
    case Losing => s.owner.Holding?
    case Closing => s.owner.Closing? && s.owner.grace == GRACE
    case Over(ShutDown(closing)) => closing && s.owner.Closed? && s.commands == [S.Graceful(GRACE)]
    case _ => false
  }

  ghost predicate Current(l: Leg, wins: nat) {
    match l.current
    case None => Alone(l.phase, wins, l.fails, l.slept)
    case Some(r) =>
      S.Inv(r.session) && (r.replace <==> wins > 0) && Holding(l.phase, wins, r.session, r.replace, l.fails, l.slept)
  }

  ghost predicate Inv(l: Leg) { PastOk(l.past) && Current(l, Wins(l.past)) }

  /** A driver's step leaves the owner's side alone. */
  lemma DriverLeavesOwner(s: S.Session, step: S.Step)
    requires !S.OwnerActs(step) && S.Next(s, step).Some?
    ensures var s' := S.Next(s, step).value;
            s'.owner == s.owner && s'.got == s.got && s'.commands == s.commands
  {
  }

  lemma {:induction false} SameWins(rs: seq<Registration>, j: nat, r: Registration)
    requires j < |rs| && r.replace == rs[j].replace && r.session.got == rs[j].session.got
    ensures Wins(rs[j := r]) == Wins(rs)
    ensures Honest(rs) ==> Honest(rs[j := r])
    decreases |rs|
  {
    var n := |rs| - 1;
    if j < n {
      SameWins(rs[..n], j, r);
      assert rs[j := r][..n] == rs[..n][j := r];
    } else {
      assert rs[j := r][..n] == rs[..n];
    }
  }

  lemma OldMovedKeeps(l: Leg, j: nat, step: S.Step)
    requires Inv(l) && !S.OwnerActs(step) && OldMoved(l, j, step).Some?
    ensures Inv(OldMoved(l, j, step).value) && Won(OldMoved(l, j, step).value) == Won(l)
  {
    hide S.Inv, S.Next, Wins, Honest, Current;
    var s := S.Next(l.past[j].session, step).value;
    DriverLeavesOwner(l.past[j].session, step);
    S.StepKeeps(l.past[j].session, step);
    SameWins(l.past, j, l.past[j].(session := s));
    CurrentOfFields(l, OldMoved(l, j, step).value, Wins(l.past));
  }

  lemma CurrentOfFields(l: Leg, l': Leg, wins: nat)
    requires l'.phase == l.phase && l'.current == l.current && l'.fails == l.fails && l'.slept == l.slept
    ensures Current(l, wins) ==> Current(l', wins)
  {
  }

  lemma CurrentMovedKeeps(l: Leg, step: S.Step)
    requires Inv(l) && !S.OwnerActs(step) && Moved(l, step, l.phase).Some?
    ensures Inv(Moved(l, step, l.phase).value) && Won(Moved(l, step, l.phase).value) == Won(l)
  {
    hide S.Inv, S.Next, Wins, PastOk;
    DriverLeavesOwner(l.current.value.session, step);
    S.StepKeeps(l.current.value.session, step);
  }

  lemma RetireKeeps(rs: seq<Registration>, r: Registration)
    requires PastOk(rs) && S.Inv(r.session) && Spent(r.session) && (r.replace <==> Wins(rs) > 0)
    ensures PastOk(rs + [r]) && Wins(rs + [r]) == Wins(rs) + if r.session.got then 1 else 0
  {
    hide S.Inv;
    assert (rs + [r])[..|rs|] == rs;
  }

  /** Ten failed retries have slept 181 s. */
  lemma FailureKeeps(l: Leg, first: bool, again: bool, k: nat)
    requires PastOk(l.past) && l.current.None? && Attempt(Wins(l.past), again, k, l.fails, l.slept)
    ensures Inv(AfterFailure(l, first, again, k))
  {
    hide PastOk, Wins, Slept;
    SleptInClosedForm(MAX_RECONNECT_ATTEMPTS);
    Slept0();
  }

  lemma Slept0()
    ensures Slept(0) == 0
  {
  }

  /** The owner's steps: what they make of a session that waits or is held. */
  lemma OwnerMoves(s: S.Session, step: S.Step)
    requires S.Inv(s) && S.Next(s, step).Some?
    ensures var s' := S.Next(s, step).value;
            && S.Inv(s')
            && (step.OwnerReceive? || step.OwnerTimeout? || step.OwnerCancel? ==>
                  !s.got && ((s'.owner.Holding? && s'.got) || (Spent(s') && !s'.got)))
            && (step.OwnerDrop? ==> s.got && s'.got && Spent(s'))
            && (step.OwnerShutdown? ==> s'.owner.Closing? && s'.owner.grace == step.grace && s'.got == s.got)
            && (step.OwnerDone? ==> s'.owner.Closed? && s'.commands == [S.Graceful(s.owner.grace)] && s'.got == s.got)
  {
    S.StepKeeps(s, step);
  }

  lemma AnsweredKeeps(l: Leg, first: bool, again: bool, k: nat, step: S.Step)
    requires Inv(l) && l.phase == Registering(again, k) && Answered(l, first, again, k, step).Some?
    ensures var l' := Answered(l, first, again, k, step).value;
            Inv(l') && Won(l') == Won(l) + if l'.phase.Entering? then 1 else 0
  {
    hide S.Inv, S.Next, Wins, PastOk, Attempt, AfterFailure;
    var r := l.current.value;
    var s := S.Next(r.session, step).value;
    OwnerMoves(r.session, step);
    if !s.owner.Holding? {
      RetireKeeps(l.past, r.(session := s));
      FailureKeeps(Retire(l, r, s), first, again, k);
      FailureFrame(Retire(l, r, s), first, again, k);
    }
  }

  lemma FailureFrame(l: Leg, first: bool, again: bool, k: nat)
    ensures var l' := AfterFailure(l, first, again, k);
            l'.past == l.past && l'.current == l.current && !l'.phase.Entering? && !l'.phase.Unborn?
  {
  }

  lemma DroppedKeeps(l: Leg)
    requires Inv(l) && l.phase.Losing? && Dropped(l).Some?
    ensures Inv(Dropped(l).value) && Won(Dropped(l).value) == Won(l)
  {
    hide S.Inv, S.Next, Wins, PastOk, Slept;
    var r := l.current.value;
    var s := S.Next(r.session, S.OwnerDrop).value;
    OwnerMoves(r.session, S.OwnerDrop);
    RetireKeeps(l.past, r.(session := s));
    Slept0();
  }

  lemma StopKeeps(l: Leg)
    requires Inv(l) && Stopping(l).Some?
    ensures Inv(Stopping(l).value) && Won(Stopping(l).value) == Won(l)
  {
    hide S.Inv, S.Next, Wins, PastOk;
    if l.phase.Supervising? { OwnerMoves(l.current.value.session, S.OwnerShutdown(GRACE)); }
  }

  lemma StopDoneKeeps(l: Leg)
    requires Inv(l) && l.phase.Closing? && Moved(l, S.OwnerDone, Over(ShutDown(true))).Some?
    ensures var l' := Moved(l, S.OwnerDone, Over(ShutDown(true))).value; Inv(l') && Won(l') == Won(l)
  {
    hide S.Inv, S.Next, Wins, PastOk;
    OwnerMoves(l.current.value.session, S.OwnerDone);
  }

  lemma RegisterKeeps(l: Leg, first: bool)
    requires Inv(l) && Next(l, first, Register).Some?
    ensures Inv(Next(l, first, Register).value) && Won(Next(l, first, Register).value) == Won(l)
  {
    hide Wins, PastOk, Slept;
    BeginOk();
  }

  lemma BeginOk()
    ensures S.Inv(S.Begin(0)) && S.Begin(0).owner.Waiting? && !S.Begin(0).got
  {
  }

  /** The moves that only change the phase. */
  lemma PhaseMoveKeeps(l: Leg, first: bool, m: Move)
    requires Inv(l) && Next(l, first, m).Some? && (m.Begin? || m.Enter? || m.Lose? || m.WakeUp?)
    ensures Inv(Next(l, first, m).value) && Won(Next(l, first, m).value) == Won(l)
  {
    hide S.Inv, Wins, PastOk;
  }

  lemma StepKeeps(l: Leg, first: bool, m: Move)
    requires Inv(l) && Next(l, first, m).Some?
    ensures var l' := Next(l, first, m).value;
            Inv(l') && Won(l') == Won(l) + if m.Answer? && l'.phase.Entering? then 1 else 0
  {
    hide Wins, PastOk, S.Next, S.Inv, AfterFailure, Answered, Dropped, Moved, OldMoved, Stopping;
    match m
    case DialFails =>
      FailureKeeps(l, first, l.phase.again, l.phase.k);
      FailureFrame(l, first, l.phase.again, l.phase.k);
    case Register => RegisterKeeps(l, first);
    case Answer(step) => AnsweredKeeps(l, first, l.phase.again, l.phase.k, step);
    case DropControl => DroppedKeeps(l);
    case Stop => StopKeeps(l);
    case StopDone => StopDoneKeeps(l);
    case OldDriver(j, step) => OldMovedKeeps(l, j, step);
    case CurrentDriver(step) => CurrentMovedKeeps(l, step);
    case _ => PhaseMoveKeeps(l, first, m);
  }

  lemma SignalKeeps(l: Leg)
    requires Inv(l)
    ensures Inv(Signal(l)) && Won(Signal(l)) == Won(l)
  {
    hide PastOk, Wins, S.Inv;
  }
}
