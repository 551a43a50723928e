/** One of the shared byte counters (`bytes_in` or `bytes_out`), with every half of every stream of all legs that
    adds to it, as a state machine: a half writes a chunk, octet by octet as far as others can tell, and counts it
    once it is written. */
module Counters {
  import opened Options
  import opened Octets
  import opened Streams
  import opened HeadReader
  import opened Pumps
  import opened Sums
  import Runs

  /** Which half of which path: `run_pooled` up and down, with the drain apart, `run_bidi` and `proxy_tcp`. */
  datatype Path = PooledUp | PooledFramed | PooledDrain | BidiUp | BidiDown | TcpUp | TcpDown

  /** The paths that ignore how their pump went. */
  predicate Discards(p: Path) { p.PooledDrain? || p.BidiUp? || p.TcpUp? || p.TcpDown? }

  /** The paths that first flush what was read past a response head. */
  predicate Flushes(p: Path) { p.PooledFramed? || p.PooledDrain? || p.BidiDown? }

  /** `strict` says whether the stream fails if this write does. Of a write that failed `lost` octets were taken
      but are not counted. */
  datatype Stage =
    | Start
    | Ready
    | Writing(chunk: nat, sofar: nat, strict: bool)
    | Broken(lost: nat)
    | Failed(lost: nat)
    | Succeeded(lost: nat)

  /** The body octets that a half has written, those that it has counted, and what it is at. */
  datatype Writer = Writer(path: Path, written: nat, counted: nat, stage: Stage)

  datatype State = State(counter: U64, writers: seq<Writer>)

  function Init(): State { State(0, []) }

  datatype Action =
    | Flush(chunk: nat)
    | Read(chunk: nat)
    | Write(n: nat)
    | Count
    | WriteFails(taken: nat)
    | Fail
    | Succeed

  datatype Step = Open(path: Path) | Act(i: nat, action: Action)

  /** What an action makes of its writer. */
  function After(w: Writer, action: Action): Option<Writer> {
    match action
    case Flush(chunk) =>
      if w.stage.Start? && Flushes(w.path) && 0 < chunk < HEAD_CHUNK then Some(w.(stage := Writing(chunk, 0, true)))
      else None
    case Read(chunk) =>
      if (w.stage.Start? || w.stage.Ready?) && 0 < chunk <= PUMP_CHUNK
      then Some(w.(stage := Writing(chunk, 0, !Discards(w.path)))) else None
    case Write(n) =>
      if w.stage.Writing? && w.stage.sofar + n <= w.stage.chunk
      then Some(w.(written := w.written + n, stage := w.stage.(sofar := w.stage.sofar + n))) else None
    case Count =>
      if w.stage.Writing? && w.stage.sofar == w.stage.chunk
      then Some(w.(counted := w.counted + w.stage.chunk, stage := Ready)) else None
    case WriteFails(taken) =>
      if w.stage.Writing? && w.stage.sofar == taken
      then Some(w.(stage := if w.stage.strict then Failed(taken) else Broken(taken))) else None
    case Fail => if Final(w.stage) then None else Some(w.(stage := Failed(Behind(w.stage))))
    case Succeed =>
      if w.stage.Start? || w.stage.Ready? || w.stage.Broken?
      then Some(w.(stage := Succeeded(Behind(w.stage)))) else None
  }

  predicate Final(stage: Stage) { stage.Failed? || stage.Succeeded? }

  /** How far the counting is behind the writing. */
  function Behind(stage: Stage): nat {
    match stage
    case Start => 0
    case Ready => 0
    case Writing(_, sofar, _) => sofar
    case Broken(lost) => lost
    case Failed(lost) => lost
    case Succeeded(lost) => lost
  }

  function Next(s: State, step: Step): Option<State> {
    match step
    case Open(path) => Some(s.(writers := s.writers + [Writer(path, 0, 0, Start)]))
    case Act(i, action) =>
      if i >= |s.writers| || After(s.writers[i], action).None? then None
      else
        var w := After(s.writers[i], action).value;
        var counter := if action.Count? then Wrap(s.counter + s.writers[i].stage.chunk) else s.counter;
        Some(State(counter, s.writers[i := w]))
  }

  function Run(s: State, steps: seq<Step>): Option<State> { Runs.Run(Next, s, steps) }

  // ── What every step keeps ──

  ghost predicate WriterOk(w: Writer) {
    && w.written == w.counted + Behind(w.stage) && Behind(w.stage) <= PUMP_CHUNK
    && (w.stage.Writing? ==> w.stage.sofar <= w.stage.chunk <= PUMP_CHUNK && (w.stage.strict || Discards(w.path)))
    && (w.stage.Broken? ==> Discards(w.path))
    && (w.stage.Succeeded? && w.stage.lost > 0 ==> Discards(w.path))
  }

  function Written(ws: seq<Writer>): nat { Sum(seq(|ws|, i requires 0 <= i < |ws| => ws[i].written)) }

  function Counted(ws: seq<Writer>): nat { Sum(seq(|ws|, i requires 0 <= i < |ws| => ws[i].counted)) }

  /** The writers that may lag: all but those that ended in success without a failed write. */
  function Loose(ws: seq<Writer>): nat {
    Sum(seq(|ws|, i requires 0 <= i < |ws| => if ws[i].stage == Succeeded(0) then 0 else 1))
  }

  ghost predicate Inv(s: State) {
    s.counter == Wrap(Counted(s.writers)) && forall i | 0 <= i < |s.writers| :: WriterOk(s.writers[i])
  }

  lemma CountedUpdate(ws: seq<Writer>, i: nat, w: Writer)
    requires i < |ws|
    ensures Counted(ws[i := w]) == Counted(ws) - ws[i].counted + w.counted
  {
    var xs := seq(|ws|, j requires 0 <= j < |ws| => ws[j].counted);
    var ws' := ws[i := w];
    assert seq(|ws'|, j requires 0 <= j < |ws'| => ws'[j].counted) == xs[i := w.counted];
    SumUpdate(xs, i, w.counted);
  }

  lemma CountedSnoc(ws: seq<Writer>, w: Writer)
    ensures Counted(ws + [w]) == Counted(ws) + w.counted
  {
    var xs := seq(|ws|, j requires 0 <= j < |ws| => ws[j].counted);
    var ws' := ws + [w];
    assert seq(|ws'|, j requires 0 <= j < |ws'| => ws'[j].counted) == xs + [w.counted];
    SumSnoc(xs, w.counted);
  }

  lemma StepKeeps(s: State, step: Step)
    requires Inv(s) && Next(s, step).Some?
    ensures Inv(Next(s, step).value)
  {
    hide Counted, Wrap;
    if step.Open? {
      CountedSnoc(s.writers, Writer(step.path, 0, 0, Start));
    } else {
      CountedUpdate(s.writers, step.i, Next(s, step).value.writers[step.i]);
      if step.action.Count? { WrapAdd(Counted(s.writers), s.writers[step.i].stage.chunk); }
    }
  }

  lemma RunKeeps(s: State, steps: seq<Step>)
    requires Inv(s) && Run(s, steps).Some?
    ensures Inv(Run(s, steps).value)
  {
    hide Inv, Next;
    forall s, step | Inv(s) && Next(s, step).Some? ensures Inv(Next(s, step).value) { StepKeeps(s, step); }
    Runs.Keeps(Next, Inv, s, steps);
  }

  /** The sums of what is written and of what is counted are at most a chunk apart for each writer that may
      lag. */
  lemma {:induction false} SumsApart(ws: seq<Writer>)
    requires forall i | 0 <= i < |ws| :: WriterOk(ws[i])
    ensures Counted(ws) <= Written(ws) <= Counted(ws) + PUMP_CHUNK * Loose(ws)
    decreases |ws|
  {
    if ws != [] {
      var last, rest := ws[|ws| - 1], ws[..|ws| - 1];
      SumsApart(rest);
      assert WriterOk(last);
      SplitSums(rest, last);
      assert rest + [last] == ws;
    }
  }

  lemma SplitSums(ws: seq<Writer>, w: Writer)
    ensures Written(ws + [w]) == Written(ws) + w.written && Counted(ws + [w]) == Counted(ws) + w.counted
    ensures Loose(ws + [w]) == Loose(ws) + if w.stage == Succeeded(0) then 0 else 1
  {
    CountedSnoc(ws, w);
    var ws' := ws + [w];
    var xs := seq(|ws|, j requires 0 <= j < |ws| => ws[j].written);
    assert seq(|ws'|, j requires 0 <= j < |ws'| => ws'[j].written) == xs + [w.written];
    SumSnoc(xs, w.written);
    var ys := seq(|ws|, j requires 0 <= j < |ws| => if ws[j].stage == Succeeded(0) then 0 else 1);
    var y := if w.stage == Succeeded(0) then 0 else 1;
    assert seq(|ws'|, j requires 0 <= j < |ws'| => if ws'[j].stage == Succeeded(0) then 0 else 1) == ys + [y];
    SumSnoc(ys, y);
  }

  /** In every run, the counter is what has been written less some octets that are not counted yet, at most a
      chunk of 16384 for each writer, and none for one that ended in success without a failed write. Wrap-around
      aside it never runs ahead. */
  lemma CounterBound(steps: seq<Step>) returns (lag: nat)
    requires Run(Init(), steps).Some?
    ensures var s := Run(Init(), steps).value;
            && lag <= Written(s.writers) && s.counter == Wrap(Written(s.writers) - lag)
            && lag <= 16384 * Loose(s.writers)
    ensures var s := Run(Init(), steps).value;
            forall i | 0 <= i < |s.writers| ::
              s.writers[i].counted <= s.writers[i].written <= s.writers[i].counted + 16384
  {
    RunKeeps(Init(), steps);
    var s := Run(Init(), steps).value;
    SumsApart(s.writers);
    assert forall i | 0 <= i < |s.writers| :: WriterOk(s.writers[i]);
    lag := Written(s.writers) - Counted(s.writers);
  }

  // ── Which successes lag ──

  /** A write of the `i`th writer failed after it had taken some octets. */
  ghost predicate LostSome(steps: seq<Step>, i: nat) {
    exists j, taken: nat :: 0 <= j < |steps| && taken > 0 && steps[j] == Act(i, WriteFails(taken))
  }

  /** A write of the `i`th writer failed, and took some octets, if and only if its stage says so. */
  predicate Lossy(stage: Stage) { (stage.Broken? || stage.Succeeded?) && stage.lost > 0 }

  lemma StepLoses(w: Writer, action: Action)
    requires WriterOk(w) && After(w, action).Some? && !After(w, action).value.stage.Failed?
    ensures Lossy(After(w, action).value.stage) <==> Lossy(w.stage) || (action.WriteFails? && action.taken > 0)
    ensures !w.stage.Failed?
  {
  }

  lemma LostStep(steps: seq<Step>, i: nat)
    requires steps != []
    ensures LostSome(steps, i) <==>
              LostSome(steps[1..], i) ||
              (steps[0].Act? && steps[0].i == i && steps[0].action.WriteFails? && steps[0].action.taken > 0)
  {
    if j, taken: nat :| 0 <= j < |steps| && taken > 0 && steps[j] == Act(i, WriteFails(taken)) {
      if j > 0 { assert steps[1..][j - 1] == Act(i, WriteFails(taken)); }
    }
    if j, taken: nat :| 0 <= j < |steps[1..]| && taken > 0 && steps[1..][j] == Act(i, WriteFails(taken)) {
      assert steps[j + 1] == Act(i, WriteFails(taken));
    }
  }

  /** What a writer that has not failed has lost over a run. */
  lemma {:induction false} RunLoses(s: State, steps: seq<Step>, i: nat)
    requires Inv(s) && Run(s, steps).Some? && i < |Run(s, steps).value.writers|
    requires !Run(s, steps).value.writers[i].stage.Failed?
    ensures i < |s.writers| ==> !s.writers[i].stage.Failed?
    ensures Lossy(Run(s, steps).value.writers[i].stage) <==>
              (i < |s.writers| && Lossy(s.writers[i].stage)) || LostSome(steps, i)
    decreases |steps|
  {
    hide Inv, After, LostSome;
    if steps == [] {
      NothingLost(i);
    } else {
      StepKeeps(s, steps[0]);
      RunLoses(Next(s, steps[0]).value, steps[1..], i);
      LostStep(steps, i);
      FirstStepLoses(s, steps[0], i);
    }
  }

  lemma NothingLost(i: nat)
    ensures !LostSome([], i)
  {
  }

  lemma FirstStepLoses(s: State, step: Step, i: nat)
    requires Inv(s) && Next(s, step).Some?
    requires i < |Next(s, step).value.writers| ==> !Next(s, step).value.writers[i].stage.Failed?
    ensures i < |s.writers| ==> i < |Next(s, step).value.writers| && !s.writers[i].stage.Failed?
    ensures i < |Next(s, step).value.writers| ==>
              (Lossy(Next(s, step).value.writers[i].stage) <==>
                 (i < |s.writers| && Lossy(s.writers[i].stage)) ||
                 (step.Act? && step.i == i && step.action.WriteFails? && step.action.taken > 0))
    ensures step.Act? && step.i == i ==> i < |s.writers|
  {
    hide After, WriterOk, Counted, Wrap;
    if step.Act? && step.i == i { StepLoses(s.writers[i], step.action); }
  }

  /** The exact condition: in every run, a writer that ended in success has written more than it counted if and
      only if one of its writes failed after it had taken some octets; and then its path is one of those that
      discard the result of their pump. So a framed response never lags, nor does `run_bidi` in `bytes_out`. */
  lemma SuccessLags(steps: seq<Step>, i: nat)
    requires Run(Init(), steps).Some? && i < |Run(Init(), steps).value.writers|
    requires Run(Init(), steps).value.writers[i].stage.Succeeded?
    ensures var w := Run(Init(), steps).value.writers[i];
            && w.counted <= w.written
            && (w.counted < w.written <==> LostSome(steps, i))
            && (w.counted < w.written ==> w.path.PooledDrain? || w.path.BidiUp? || w.path.TcpUp? || w.path.TcpDown?)
  {
    hide Run, LostSome;
    RunKeeps(Init(), steps);
    RunLoses(Init(), steps, i);
    assert WriterOk(Run(Init(), steps).value.writers[i]);
  }

  /** Every such path does have a run that ends in success with any number of octets up to a chunk uncounted. */
  lemma DiscardedPumpLags(path: Path, n: nat) returns (steps: seq<Step>)
    requires path.PooledDrain? || path.BidiUp? || path.TcpUp? || path.TcpDown?
    requires n <= 16384
    ensures Run(Init(), steps) == Some(State(0, [Writer(path, n, 0, Succeeded(n))]))
  {
    hide Run, Wrap;
    RunNone();
    var s := Init();
    steps := [];
    steps, s := Go(steps, s, Open(path));
    assert s.writers == [Writer(path, 0, 0, Start)];
    steps, s := Go(steps, s, Act(0, Read(PUMP_CHUNK)));
    steps, s := Go(steps, s, Act(0, Write(n)));
    steps, s := Go(steps, s, Act(0, WriteFails(n)));
    steps, s := Go(steps, s, Act(0, Succeed));
    assert s.writers == [Writer(path, n, 0, Succeeded(n))];
  }

  lemma RunNone()
    ensures Run(Init(), []) == Some(Init())
  {
  }

  lemma Go(steps: seq<Step>, s: State, step: Step) returns (steps': seq<Step>, s': State)
    requires Run(Init(), steps) == Some(s) && Next(s, step).Some?
    ensures Run(Init(), steps') == Some(s') == Next(s, step)
  {
    hide Next;
    Runs.Longer(Next, Init(), steps, step);
    steps', s' := steps + [step], Next(s, step).value;
  }

  // ── The pumps are such writers ──

  function Acts(w: Writer, actions: seq<Action>): Option<Writer> { Runs.Run(After, w, actions) }

  lemma ThenActs(w: Writer, action: Action, rest: seq<Action>)
    requires After(w, action).Some?
    ensures Acts(w, [action] + rest) == Acts(After(w, action).value, rest)
  {
    hide After;
    assert ([action] + rest)[1..] == rest;
  }

  /** A chunk that is written, in part if `counted` is false, and then counted or failed. */
  lemma ChunkActs(w: Writer, chunk: nat, wrote: nat, counted: bool, rest: seq<Action>)
    requires (w.stage.Start? || w.stage.Ready?) && 0 < chunk <= PUMP_CHUNK && wrote <= chunk
    requires counted ==> wrote == chunk
    ensures var end := if counted then Count else WriteFails(wrote);
            (Acts(w, [Read(chunk)] + ([Write(wrote)] + ([end] + rest)))
             == Acts(AfterChunk(w, chunk, wrote, counted), rest))
  {
    hide Acts;
    var end := if counted then Count else WriteFails(wrote);
    ThenActs(w, Read(chunk), [Write(wrote)] + ([end] + rest));
    var w1 := After(w, Read(chunk)).value;
    ThenActs(w1, Write(wrote), [end] + rest);
    var w2 := After(w1, Write(wrote)).value;
    ThenActs(w2, end, rest);
  }

  function AfterChunk(w: Writer, chunk: nat, wrote: nat, counted: bool): Writer {
    var w' := w.(written := w.written + wrote);
    if counted then w'.(counted := w.counted + chunk, stage := Ready)
    else w'.(stage := if Discards(w.path) then Broken(wrote) else Failed(wrote))
  }

  /** Where a writer is when a pump has read `k` octets, written `wrote` and counted all but the last `late`. */
  ghost predicate Pumped(w: Writer, w': Writer, k: nat, late: nat, wrote: nat)
    requires late <= k
  {
    && w'.path == w.path && w'.written == w.written + wrote && w'.counted == w.counted + (k - late)
    && if late == 0 then w'.stage.Start? || w'.stage.Ready?
       else
         && k - late <= wrote
         && w'.stage == if Discards(w.path) then Broken(wrote - (k - late)) else Failed(wrote - (k - late))
  }

  lemma {:induction false} PumpActs(w: Writer, k: nat, late: nat, wrote: nat) returns (actions: seq<Action>, w': Writer)
    requires w.stage.Start? || w.stage.Ready?
    requires late <= k && late <= PUMP_CHUNK && k - late <= wrote <= k && (late == 0 ==> wrote == k)
    ensures Acts(w, actions) == Some(w') && Pumped(w, w', k, late, wrote)
    decreases k
  {
    hide After;
    if k == 0 {
      actions, w' := [], w;
    } else if k == late {
      actions, w' := [Read(late)] + ([Write(wrote)] + ([WriteFails(wrote)] + [])), AfterChunk(w, late, wrote, false);
      ChunkActs(w, late, wrote, false, []);
    } else {
      var chunk := Min(PUMP_CHUNK, k - late);
      var rest;
      rest, w' := PumpActs(AfterChunk(w, chunk, chunk, true), k - chunk, late, wrote - chunk);
      actions := [Read(chunk)] + ([Write(chunk)] + ([Count] + rest));
      ChunkActs(w, chunk, chunk, true, rest);
    }
  }

  /** What `Moved` says of `PumpOnce`, `PumpN` and `PumpAll` is a run of a writer's actions, with the same octets
      written and the same added to the counter. */
  lemma PumpIsActions(w: Writer, data: Bytes, from: nat, k: nat, late: nat, was: Bytes, now: Bytes,
                      counted: U64, counter: U64)
    returns (actions: seq<Action>, w': Writer)
    requires w.stage.Start? || w.stage.Ready?
    requires Moved(data, from, k, late, was, now, counted, counter)
    ensures Acts(w, actions) == Some(w') && |was| <= |now| && Pumped(w, w', k, late, |now| - |was|)
    ensures counter == Wrap(counted + (w'.counted - w.counted))
  {
    hide Acts, Wrap;
    assert |was + data[from..from + k]| == |was| + k && |was + data[from..from + k - late]| == |was| + (k - late);
    actions, w' := PumpActs(w, k, late, |now| - |was|);
  }
}
