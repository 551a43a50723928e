/** A control session: its owner and the driver thread that runs its RPC, which talk over one-shot channels
    (`register_connection`, `ControlSession`). */
module Session {
  import opened Options
  import Runs

  /** `DEFAULT_RPC_TIMEOUT`, in seconds */
  const RPC_TIMEOUT: nat := 15

  /** What `shutdown_graceful` waits beyond the grace period. */
  const SHUTDOWN_MARGIN: nat := 2

  datatype Command = Immediate | Graceful(grace: nat)

  /** The outcome of `registerConnection`: connection details, or some error. */
  datatype Outcome = Details | Refused

  // ── The driver's loop ──

  /** What one poll of the `select!` finds ready: the register call, the shutdown channel (with a command, or
      with none because its sender is gone), and the end of the RPC system. */
  datatype Ready = Ready(call: Option<Outcome>, command: Option<Option<Command>>, dead: bool)

  /** The loop's variables, the results it has reported, and the shutdown kind once it has left the loop. */
  datatype Loop = Loop(sentDone: bool, doneTx: bool, reports: seq<Outcome>, left: Option<Option<Command>>, rounds: nat)

  const START: Loop := Loop(false, true, [], None, 0)

  function Report(l: Loop, r: Outcome): Loop {
    if l.doneTx then l.(doneTx := false, reports := l.reports + [r]) else l
  }

  /** One poll, arms in order. */
  function Poll(l: Loop, r: Ready): Loop {
    if l.left.Some? then l
    else if r.call.Some? && !l.sentDone then Report(l, r.call.value).(sentDone := true, rounds := l.rounds + 1)
    else if r.command.Some? then l.(left := Some(r.command.value), rounds := l.rounds + 1)
    else if r.dead then (if l.sentDone then l else Report(l, Refused)).(left := Some(None), rounds := l.rounds + 1)
    else l
  }

  function PollAll(l: Loop, polls: seq<Ready>): Loop
    decreases |polls|
  {
    if polls == [] then l else Poll(PollAll(l, polls[..|polls| - 1]), polls[|polls| - 1])
  }

  /** The loop as the driver runs it: `polls` says what it finds each time it is woken. */
  method DriveLoop(polls: seq<Ready>) returns (l: Loop)
    ensures l == PollAll(START, polls)
    ensures |l.reports| <= 1 && l.rounds <= 2
    ensures l.left.Some? ==> l.rounds >= 1 && (l.sentDone <==> l.rounds == 2)
    ensures l.left.None? ==> l.rounds == if l.sentDone then 1 else 0
  {
    var sentDone, doneTx, rounds := false, true, 0;
    var reports: seq<Outcome> := [];
    var left: Option<Option<Command>> := None;
    for i := 0 to |polls|
      invariant Loop(sentDone, doneTx, reports, left, rounds) == PollAll(START, polls[..i])
      invariant doneTx <==> reports == []
      invariant |reports| <= 1
      invariant left.None? ==> (doneTx <==> !sentDone)
      invariant rounds == (if sentDone then 1 else 0) + (if left.Some? then 1 else 0)
    {
      assert polls[..i + 1][..i] == polls[..i];
      if left.None? {
        var r := polls[i];
        if r.call.Some? && !sentDone {
          if doneTx { doneTx, reports := false, reports + [r.call.value]; }
          sentDone, rounds := true, rounds + 1;
        } else if r.command.Some? {
          left, rounds := Some(r.command.value), rounds + 1;
        } else if r.dead {
          if !sentDone && doneTx { doneTx, reports := false, reports + [Refused]; }
          left, rounds := Some(None), rounds + 1;
        }
      }
    }
    assert polls[..|polls|] == polls;
    l := Loop(sentDone, doneTx, reports, left, rounds);
  }

  // ── The owner's handle ──

  /** The sending half of the shutdown channel. */
  class ShutdownSender {
    var sent: Option<Command>

    constructor ()
      ensures sent == None
    {
      sent := None;
    }

    method Send(c: Command)
      modifies this
      ensures sent == Some(c)
    {
      sent := Some(c);
    }
  }

  /** The receiving half of the driver's last word: how many seconds it takes to come, if it ever does. */
  datatype DoneReceiver = DoneReceiver(comesAfter: Option<nat>)

  /** `timeout(budget, rx)`: how long that waits. */
  function Waited(rx: DoneReceiver, budget: nat): (r: nat)
    ensures r <= budget && (r < budget ==> rx.comesAfter == Some(r))
    ensures rx.comesAfter.Some? ==> r <= rx.comesAfter.value
  {
    if rx.comesAfter.Some? && rx.comesAfter.value < budget then rx.comesAfter.value else budget
  }

  class ControlSession {
    const channel: ShutdownSender
    var shutdown: Option<ShutdownSender>
    var done: Option<DoneReceiver>

    /** The sender is taken exactly when a command has been sent. */
    predicate Valid()
      reads this, channel
    {
      shutdown == if channel.sent.None? then Some(channel) else None
    }

    constructor (channel: ShutdownSender, done: DoneReceiver)
      requires channel.sent == None
      ensures Valid() && this.channel == channel && this.done == Some(done)
    {
      this.channel, this.shutdown, this.done := channel, Some(channel), Some(done);
    }

    /** Sends the command unless one has been sent before, and waits for the driver's last word, for the grace period
        and two seconds at most. */
    method ShutdownGraceful(grace: nat) returns (waited: nat)
      requires Valid()
      modifies this, channel
      ensures Valid() && channel.sent == if old(channel.sent).None? then Some(Graceful(grace)) else old(channel.sent)
      ensures done == None
      ensures waited == if old(done).Some? then Waited(old(done).value, grace + SHUTDOWN_MARGIN) else 0
    {
      waited := 0;
      if shutdown.Some? {
        var tx := shutdown.value;
        shutdown := None;
        tx.Send(Graceful(grace));
      }
      if done.Some? {
        var rx := done.value;
        done := None;
        var budget := grace + SHUTDOWN_MARGIN;
        waited := Waited(rx, budget);
      }
    }

    /** `Drop`: an immediate close, unless the session was shut down before. */
    method Drop()
      requires Valid()
      modifies this, channel
      ensures Valid() && channel.sent == if old(channel.sent).None? then Some(Immediate) else old(channel.sent)
      ensures done == old(done)
    {
      if shutdown.Some? {
        var tx := shutdown.value;
        shutdown := None;
        tx.Send(Immediate);
      }
    }
  }

  // ── Owner and driver together ──

  datatype Owner =
    | Waiting(until: nat)
    | Holding
    | Closing(since: nat, grace: nat)
    | Closed
    | Failed

  datatype Driver =
    | Looping(l: Loop)
    | Unregistering(since: nat, grace: nat)
    | Finished

  datatype Channel = Silent | Sent(c: Command) | SenderGone

  /** Both processes, the channels between them, and the history: whether the owner got the details, the
      commands it gave, and how often `unregisterConnection` was sent. */
  datatype Session = Session(
    now: nat, owner: Owner, driver: Driver, call: Option<Outcome>, dead: bool, reply: Option<Outcome>, command: Channel,
    done: bool, got: bool, commands: seq<Command>, reports: seq<Outcome>, unregisters: nat)

  function Begin(now: nat): Session {
    Session(now, Waiting(now + RPC_TIMEOUT), Looping(START), None, false, None, Silent, false, false, [], [], 0)
  }

  datatype Step =
    | Reply(r: Outcome)
    | Die
    | DriverPoll
    | DriverAck
    | OwnerReceive
    | OwnerTimeout
    | OwnerCancel
    | OwnerShutdown(grace: nat)
    | OwnerDrop
    | OwnerDone
    | Tick

  predicate OwnerActs(step: Step) {
    step.OwnerReceive? || step.OwnerTimeout? || step.OwnerCancel? ||
    step.OwnerShutdown? || step.OwnerDrop? || step.OwnerDone?
  }

  function CommandReady(c: Channel): Option<Option<Command>> {
    match c
    case Silent => None
    case Sent(cmd) => Some(Some(cmd))
    case SenderGone => Some(None)
  }

  /** A report reaches the owner if it still waits. */
  function Deliver(s: Session, before: seq<Outcome>, after: seq<Outcome>): Session {
    if |after| > |before| && s.owner.Waiting? then s.(reply := Some(after[|after| - 1]), reports := after)
    else s.(reports := after)
  }

  function AfterPoll(s: Session, l: Loop): Session {
    var l' := Poll(l, Ready(s.call, CommandReady(s.command), s.dead));
    var s' := Deliver(s, l.reports, l'.reports);
    match l'.left
    case None => s'.(driver := Looping(l'))
    case Some(Some(Graceful(grace))) =>
      if l'.sentDone then s'.(driver := Unregistering(s.now, grace), unregisters := s.unregisters + 1)
      else s'.(driver := Finished, done := true)
    case Some(_) => s'.(driver := Finished, done := true)
  }

  /** No timer is overdue. */
  predicate InTime(s: Session) {
    && (s.owner.Waiting? ==> s.now < s.owner.until)
    && (s.owner.Closing? ==> s.now < s.owner.since + s.owner.grace + SHUTDOWN_MARGIN)
    && (s.driver.Unregistering? ==> s.now < s.driver.since + s.driver.grace)
  }

  function Commanded(s: Session, owner: Owner, c: Command): Session {
    s.(owner := owner, command := Sent(c), commands := s.commands + [c])
  }

  function GiveUp(s: Session): Session { s.(owner := Failed, command := SenderGone, reply := None) }

  function Next(s: Session, step: Step): Option<Session> {
    match step
    case Reply(r) => if s.call.None? && !s.dead then Some(s.(call := Some(r))) else None
    case Die => Some(s.(dead := true))
    case DriverPoll => if s.driver.Looping? then Some(AfterPoll(s, s.driver.l)) else None
    case DriverAck => if s.driver.Unregistering? then Some(s.(driver := Finished, done := true)) else None
    case OwnerReceive =>
      if s.owner.Waiting? && s.reply == Some(Details) then Some(s.(owner := Holding, reply := None, got := true))
      else if s.owner.Waiting? && s.reply == Some(Refused) then Some(GiveUp(s))
      else None
    case OwnerTimeout => if s.owner.Waiting? && s.now >= s.owner.until then Some(GiveUp(s)) else None
    case OwnerCancel => if s.owner.Waiting? then Some(GiveUp(s)) else None
    case OwnerShutdown(grace) =>
      if s.owner.Holding? then Some(Commanded(s, Closing(s.now, grace), Graceful(grace))) else None
    case OwnerDrop =>
      if s.owner.Holding? then Some(Commanded(s, Closed, Immediate)) else None
    case OwnerDone =>
      if s.owner.Closing? && (s.done || s.now >= s.owner.since + s.owner.grace + SHUTDOWN_MARGIN)
      then Some(s.(owner := Closed)) else None
    case Tick => if InTime(s) then Some(s.(now := s.now + 1)) else None
  }

  // ── What every step keeps ──

  ghost predicate LoopOk(s: Session, l: Loop) {
    && l.left.None? && l.reports == s.reports
    && (l.doneTx <==> !l.sentDone) && (l.doneTx <==> s.reports == [])
    && (l.sentDone ==> s.call == Some(s.reports[0]))
  }

  ghost predicate OwnerOk(s: Session) {
    match s.owner
    case Waiting(until) =>
      && s.now <= until && !s.got && s.command == Silent && s.commands == []
      && (s.reply.Some? ==> s.reports == [s.reply.value])
    case Holding => s.got && s.command == Silent && s.commands == []
    case Closing(since, grace) =>
      s.got && s.command == Sent(Graceful(grace)) && s.commands == [Graceful(grace)]
      && s.now <= since + grace + SHUTDOWN_MARGIN
    case Closed => s.got && |s.commands| == 1 && s.command == Sent(s.commands[0])
    case Failed => !s.got && s.command == SenderGone && s.commands == []
  }

  /** All but the driver. */
  ghost predicate OwnerSide(s: Session) {
    && |s.reports| <= 1 && OwnerOk(s)
    && (s.got ==> s.reports == [Details] && s.call == Some(Details))
    && (s.reply == Some(Details) ==> s.call == Some(Details))
  }

  ghost predicate Inv(s: Session) {
    && OwnerSide(s)
    && (s.driver.Looping? ==> s.unregisters == 0 && LoopOk(s, s.driver.l))
    && s.unregisters <= 1
    && (s.unregisters == 1 ==> s.got && exists g: nat :: s.commands == [Graceful(g)])
    && (s.driver.Unregistering? ==>
          s.commands == [Graceful(s.driver.grace)] && s.now <= s.driver.since + s.driver.grace)
  }

  /** One poll of a loop that is in order. */
  lemma PollOk(s: Session, r: Ready)
    requires s.driver.Looping? && LoopOk(s, s.driver.l) && r.call == s.call && |s.reports| <= 1
    ensures var l := s.driver.l; var l' := Poll(l, r);
            && |l'.reports| <= 1 && (l'.doneTx <==> l'.reports == []) && l.reports <= l'.reports
            && (|l'.reports| > |l.reports| ==> l.reports == [])
            && (l'.left.None? ==> (l'.doneTx <==> !l'.sentDone) && (l'.sentDone ==> s.call == Some(l'.reports[0])))
            && (l'.reports != l.reports ==> s.call == Some(l'.reports[0]) || l'.reports == [Refused])
            && (l'.left.Some? ==> r.command == l'.left || l'.left == Some(None))
  {
  }

  lemma DeliverKeeps(s: Session, after: seq<Outcome>)
    requires OwnerSide(s) && |after| <= 1 && s.reports <= after
    requires after != s.reports ==> s.call == Some(after[0]) || after == [Refused]
    ensures OwnerSide(Deliver(s, s.reports, after))
  {
  }

  lemma OwnerSideFrame(s: Session, driver: Driver, done: bool, unregisters: nat)
    ensures OwnerSide(s.(driver := driver, done := done, unregisters := unregisters)) <==> OwnerSide(s)
  {
  }

  lemma PollKeeps(s: Session)
    requires Inv(s) && s.driver.Looping?
    ensures Inv(AfterPoll(s, s.driver.l))
  {
    hide Poll, OwnerOk;
    var s' := AfterPoll(s, s.driver.l);
    var polled := Poll(s.driver.l, Ready(s.call, CommandReady(s.command), s.dead)).reports;
    PollOk(s, Ready(s.call, CommandReady(s.command), s.dead));
    DeliverKeeps(s, polled);
    OwnerSideFrame(Deliver(s, s.reports, polled), s'.driver, s'.done, s'.unregisters);
    if s'.unregisters > 0 { GracefulSent(s); }
  }

  lemma GracefulSent(s: Session)
    requires Inv(s) && s.command.Sent? && s.command.c.Graceful?
    ensures s.got && s.commands == [Graceful(s.command.c.grace)]
  {
  }

  lemma StepKeeps(s: Session, step: Step)
    requires Inv(s) && Next(s, step).Some?
    ensures Inv(Next(s, step).value)
  {
    hide AfterPoll;
    if step.DriverPoll? { PollKeeps(s); }
  }

  function Run(s: Session, steps: seq<Step>): Option<Session> { Runs.Run(Next, s, steps) }

  lemma RunKeeps(s: Session, steps: seq<Step>)
    requires Inv(s) && Run(s, steps).Some?
    ensures Inv(Run(s, steps).value)
  {
    hide Inv, Next;
    forall s, step | Inv(s) && Next(s, step).Some? ensures Inv(Next(s, step).value) { StepKeeps(s, step); }
    Runs.Keeps(Next, Inv, s, steps);
  }

  /** Unregister safety, in every interleaving of owner, driver and edge: a session sends `unregisterConnection`
      at most once, and only after its register succeeded, the owner got the details, and the owner asked for
      a graceful close. */
  lemma UnregisterSafety(now: nat, steps: seq<Step>)
    requires Run(Begin(now), steps).Some?
    ensures var s := Run(Begin(now), steps).value;
            && s.unregisters <= 1
            && (s.unregisters == 1 ==> s.call == Some(Details) && s.got && exists g: nat :: s.commands == [Graceful(g)])
            && |s.reports| <= 1 && |s.commands| <= 1
  {
    RunKeeps(Begin(now), steps);
  }

  /** The waits that are up. */
  predicate RegisterDue(s: Session) { s.owner.Waiting? && s.now >= s.owner.until }

  predicate CloseDue(s: Session) { s.owner.Closing? && s.now >= s.owner.since + s.owner.grace + SHUTDOWN_MARGIN }

  predicate AckDue(s: Session) { s.driver.Unregistering? && s.now >= s.driver.since + s.driver.grace }

  /** Waiting is bounded: in every run, a register waits at most 15 s, the owner of a session that is shut down at
      most the grace period and two seconds, the driver at most the grace period, whatever the edge does. */
  lemma WaitsAreBounded(now: nat, steps: seq<Step>)
    requires Run(Begin(now), steps).Some?
    ensures var s := Run(Begin(now), steps).value;
            && (s.owner.Closing? ==> s.now <= s.owner.since + s.owner.grace + 2)
            && (s.driver.Unregistering? ==> s.now <= s.driver.since + s.driver.grace)
            && (s.owner.Waiting? ==> s.now <= s.owner.until == now + 15)
  {
    RunKeeps(Begin(now), steps);
    DeadlineStays(now, steps);
  }

  lemma PollLeavesOwner(s: Session, l: Loop)
    ensures AfterPoll(s, l).owner == s.owner
  {
    hide Poll;
  }

  predicate Until(s: Session, deadline: nat) { s.owner.Waiting? ==> s.owner.until == deadline }

  lemma StepKeepsDeadline(s: Session, step: Step, deadline: nat)
    requires Until(s, deadline) && Next(s, step).Some?
    ensures Until(Next(s, step).value, deadline)
  {
    hide AfterPoll;
    if step.DriverPoll? { PollLeavesOwner(s, s.driver.l); }
  }

  lemma DeadlineStays(now: nat, steps: seq<Step>)
    requires Run(Begin(now), steps).Some?
    ensures Until(Run(Begin(now), steps).value, now + 15)
  {
    assert Until(Begin(now), now + 15);
    hide Next, Until;
    forall s, step | Until(s, now + 15) && Next(s, step).Some? ensures Until(Next(s, step).value, now + 15) {
      StepKeepsDeadline(s, step, now + 15);
    }
    Runs.Keeps(Next, s => Until(s, now + 15), Begin(now), steps);
  }

  /** The bounds hold because the waits end, not because time stops: in every reachable state a wait that is up can
      be ended at once, by its own timer, and is over then; and time stands still only until the timers that are up,
      two at most, have fired. */
  lemma TimersFire(now: nat, steps: seq<Step>) returns (fired: seq<Step>)
    requires Run(Begin(now), steps).Some?
    ensures var s := Run(Begin(now), steps).value;
            && (RegisterDue(s) ==> Next(s, OwnerTimeout).Some? && Next(s, OwnerTimeout).value.owner == Failed)
            && (CloseDue(s) ==> Next(s, OwnerDone).Some? && Next(s, OwnerDone).value.owner == Closed)
            && (AckDue(s) ==> Next(s, DriverAck).Some? && Next(s, DriverAck).value.driver == Finished)
            && (Next(s, Tick).None? <==> RegisterDue(s) || CloseDue(s) || AckDue(s))
    ensures var s := Run(Begin(now), steps).value;
            && |fired| <= 2 && (forall f | f in fired :: f.OwnerTimeout? || f.OwnerDone? || f.DriverAck?)
            && (Next(s, Tick).Some? ==> fired == [])
            && Run(s, fired).Some? && Next(Run(s, fired).value, Tick).Some?
  {
    var s := Run(Begin(now), steps).value;
    var owner := if RegisterDue(s) then [OwnerTimeout] else if CloseDue(s) then [OwnerDone] else [];
    var driver := if AckDue(s) then [DriverAck] else [];
    fired := owner + driver;
    OneTimer(s, owner);
    var s1 := Run(s, owner).value;
    OneTimer(s1, driver);
    Runs.Joined(Next, s, owner, driver);
  }

  lemma OneTimer(s: Session, step: seq<Step>)
    requires step == [] || step == [OwnerTimeout] || step == [OwnerDone] || step == [DriverAck]
    ensures Run(s, step) == if step == [] then Some(s) else Next(s, step[0])
  {
    hide Next;
    if step != [] {
      assert step[1..] == [];
      assert Next(s, step[0]).Some? ==> Run(Next(s, step[0]).value, step[1..]) == Next(s, step[0]);
    }
  }

  /** What a poll decides, in every reachable state, by the order of the arms: an answer that has come is reported
      first, whatever else is ready; then a command, or that its sender is gone, ends the loop; then the end of the
      RPC system does, and is reported if nothing has been. A poll that finds nothing ready changes nothing. */
  lemma PollDecides(now: nat, steps: seq<Step>)
    requires Run(Begin(now), steps).Some? && Run(Begin(now), steps).value.driver.Looping?
    ensures var s := Run(Begin(now), steps).value;
            && Next(s, DriverPoll).Some?
            && var s1 := Next(s, DriverPoll).value;
            if s.call.Some? && s.reports == [] then
              s1.reports == [s.call.value] && s1.driver.Looping? && (s.owner.Waiting? ==> s1.reply == s.call)
            else if s.command != Silent then
              !s1.driver.Looping? && s1.reports == s.reports
            else if s.dead then
              && s1.driver == Finished && s1.unregisters == 0
              && s1.reports == (if s.reports == [] then [Refused] else s.reports)
              && (s.reports == [] && s.owner.Waiting? ==> s1.reply == Some(Refused))
            else s1 == s
  {
    hide Run;
    RunKeeps(Begin(now), steps);
    hide OwnerOk;
  }

  /** An owner that still waits learns what has been reported: details make it hold the session, a refusal makes it
      give up. */
  lemma OwnerLearns(now: nat, steps: seq<Step>)
    requires Run(Begin(now), steps).Some?
    ensures var s := Run(Begin(now), steps).value;
            s.owner.Waiting? && s.reply.Some? ==>
              && Next(s, OwnerReceive).Some?
              && var s1 := Next(s, OwnerReceive).value;
              if s.reply.value == Details then s1.owner == Holding && s1.got && s.call == Some(Details)
              else s1.owner == Failed && s1.command == SenderGone && !s1.got
  {
    RunKeeps(Begin(now), steps);
    var s := Run(Begin(now), steps).value;
    assert s.reply.Some? ==> s.reply.value.Details? || s.reply.value.Refused?;
  }

  /** A graceful close that finds the driver in its loop is always served: at its next poll the driver sends
      `unregisterConnection` and waits for the ack as long as it was told, even if the RPC system has ended
      meanwhile. After any other close it ends within two polls, without sending it. */
  lemma ClosesAreServed(now: nat, steps: seq<Step>)
    requires Run(Begin(now), steps).Some? && Run(Begin(now), steps).value.driver.Looping?
    ensures var s := Run(Begin(now), steps).value; var s1 := Next(s, DriverPoll).value;
            match s.command
            case Sent(Graceful(grace)) => s1.driver == Unregistering(s.now, grace) && s1.unregisters == 1
            case Silent => true
            case _ => Ends(s1) || (s1.driver.Looping? && Ends(Next(s1, DriverPoll).value))
  {
    hide Run;
    RunKeeps(Begin(now), steps);
    var s := Run(Begin(now), steps).value;
    if s.command.Sent? && s.command.c.Graceful? { GracefulSent(s); }
  }

  predicate Ends(s: Session) { s.driver.Finished? && s.unregisters == 0 }
}
