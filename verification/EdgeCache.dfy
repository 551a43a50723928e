/** The discovery cache, and its concurrent callers (`EdgeRegistry::get_or_refresh`): look up under the read
    lock, discover without a lock, store under the write lock. */
module EdgeCache {
  import opened Options
  import opened Edge
  import Runs

  /** `DEFAULT_CACHE_TTL`, in seconds */
  const DEFAULT_CACHE_TTL: nat := 3600

  datatype Cached = Cached(edges: seq<EdgeAddr>, expiresAt: nat, filter: IpVersionFilter)

  predicate Serves(c: Option<Cached>, filter: IpVersionFilter, now: nat) {
    c.Some? && c.value.filter == filter && c.value.expiresAt > now
  }

  /** The registry, with a caller that finds it idle. */
  class EdgeRegistry {
    const ttl: nat
    var inner: Option<Cached>

    constructor ()
      ensures ttl == DEFAULT_CACHE_TTL && inner == None
    {
      ttl, inner := DEFAULT_CACHE_TTL, None;
    }

    /** The clock shows `now` at the lookup and `later` at the store. */
    method GetOrRefresh(filter: IpVersionFilter, now: nat, later: nat, primary: Answer, dot: Answer, hash: nat)
      returns (r: Option<seq<EdgeAddr>>)
      modifies this
      ensures var found := Discovery(primary, dot, filter);
              if Serves(old(inner), filter, now) then
                inner == old(inner) && r == Some(Rotated(inner.value.edges, Offset(inner.value.edges, hash)))
              else if found.Some? then
                && inner == Some(Cached(found.value, later + ttl, filter))
                && r == Some(Rotated(found.value, Offset(found.value, hash)))
              else
                inner == old(inner) && r == None
    {
      if inner.Some? && inner.value.filter == filter && inner.value.expiresAt > now {
        var hit := Shuffled(inner.value.edges, hash);
        return Some(hit);
      }
      var edges := Discover(primary, dot, filter);
      if edges.None? { return None; }
      inner := Some(Cached(edges.value, later + ttl, filter));
      var shuffled := Shuffled(edges.value, hash);
      r := Some(shuffled);
    }
  }

  // ── Many callers ──

  /** A discovery: the caller that made it, its filter, what the resolvers answered, what that came to, and when. */
  datatype Finding =
    Finding(finder: nat, filter: IpVersionFilter, primary: Answer, dot: Answer, edges: seq<EdgeAddr>, at: nat)

  datatype Origin = Hit(k: nat, at: nat) | Fresh(f: Finding) | Error

  datatype Caller =
    | Asking(filter: IpVersionFilter)
    | Discovering(filter: IpVersionFilter)
    | Storing(f: Finding)
    | Done(filter: IpVersionFilter, answer: Option<seq<EdgeAddr>>, origin: Origin)

  datatype Store = Store(f: Finding, at: nat)

  /** `stores` is the history of what was written to the cache. */
  datatype State = State(ttl: nat, now: nat, cache: Option<Cached>, callers: seq<Caller>, stores: seq<Store>)

  function Init(ttl: nat): State { State(ttl, 0, None, [], []) }

  datatype Action = Look(hash: nat) | Find(primary: Answer, dot: Answer) | Write(hash: nat)

  datatype Step = Call(filter: IpVersionFilter) | Tick | Act(i: nat, action: Action)

  /** The index of the last store. */
  function Last(stores: seq<Store>): nat { if stores == [] then 0 else |stores| - 1 }

  function Looked(s: State, i: nat, filter: IpVersionFilter, hash: nat): State
    requires i < |s.callers|
  {
    if Serves(s.cache, filter, s.now) then
      var edges := s.cache.value.edges;
      s.(callers := s.callers[i := Done(filter, Some(Rotated(edges, Offset(edges, hash))), Hit(Last(s.stores), s.now))])
    else s.(callers := s.callers[i := Discovering(filter)])
  }

  function Found(s: State, i: nat, filter: IpVersionFilter, primary: Answer, dot: Answer): State
    requires i < |s.callers|
  {
    match Discovery(primary, dot, filter)
    case None => s.(callers := s.callers[i := Done(filter, None, Error)])
    case Some(edges) => s.(callers := s.callers[i := Storing(Finding(i, filter, primary, dot, edges, s.now))])
  }

  function Written(s: State, i: nat, f: Finding, hash: nat): State
    requires i < |s.callers|
  {
    s.(cache := Some(Cached(f.edges, s.now + s.ttl, f.filter)), stores := s.stores + [Store(f, s.now)],
       callers := s.callers[i := Done(f.filter, Some(Rotated(f.edges, Offset(f.edges, hash))), Fresh(f))])
  }

  function Next(s: State, step: Step): Option<State> {
    match step
    case Call(filter) => Some(s.(callers := s.callers + [Asking(filter)]))
    case Tick => Some(s.(now := s.now + 1))
    case Act(i, action) =>
      if i >= |s.callers| then None
      else if action.Look? && s.callers[i].Asking? then Some(Looked(s, i, s.callers[i].filter, action.hash))
      else if action.Find? && s.callers[i].Discovering? then
        Some(Found(s, i, s.callers[i].filter, action.primary, action.dot))
      else if action.Write? && s.callers[i].Storing? then Some(Written(s, i, s.callers[i].f, action.hash))
      else None
  }

  function Run(s: State, steps: seq<Step>): Option<State> { Runs.Run(Next, s, steps) }

  // ── What every step keeps ──

  predicate Genuine(f: Finding) { Discovery(f.primary, f.dot, f.filter) == Some(f.edges) }

  /** The cache holds what was stored last. */
  ghost predicate CacheOk(cache: Option<Cached>, stores: seq<Store>, ttl: nat) {
    if stores == [] then cache == None
    else
      var last := stores[|stores| - 1];
      cache == Some(Cached(last.f.edges, last.at + ttl, last.f.filter))
  }

  ghost predicate StoresOk(stores: seq<Store>, now: nat) {
    forall k | 0 <= k < |stores| :: Genuine(stores[k].f) && stores[k].f.at <= stores[k].at <= now
  }

  /** An answer is a rotation of a discovery for the caller's own filter. */
  ghost predicate AnswerOf(answer: Option<seq<EdgeAddr>>, filter: IpVersionFilter, f: Finding) {
    answer.Some? && f.filter == filter && exists o: nat :: o <= |f.edges| && answer.value == Rotated(f.edges, o)
  }

  ghost predicate CallerOk(c: Caller, stores: seq<Store>, ttl: nat, now: nat) {
    match c
    case Asking(_) => true
    case Discovering(_) => true
    case Storing(f) => Genuine(f) && f.at <= now
    case Done(filter, answer, Hit(k, at)) =>
      k < |stores| && AnswerOf(answer, filter, stores[k].f) && stores[k].at <= at < stores[k].at + ttl && at <= now
    case Done(filter, answer, Fresh(f)) => Genuine(f) && AnswerOf(answer, filter, f)
    case Done(_, answer, Error) => answer == None
  }

  ghost predicate Inv(s: State) {
    && CacheOk(s.cache, s.stores, s.ttl) && StoresOk(s.stores, s.now)
    && forall i | 0 <= i < |s.callers| :: CallerOk(s.callers[i], s.stores, s.ttl, s.now)
  }

  /** A caller is none the worse for time that passes and stores that others make. */
  lemma CallerLater(c: Caller, stores: seq<Store>, stores': seq<Store>, ttl: nat, now: nat, now': nat)
    requires CallerOk(c, stores, ttl, now) && stores <= stores' && now <= now'
    ensures CallerOk(c, stores', ttl, now')
  {
    hide Genuine, AnswerOf;
  }

  lemma RotatedAnswer(edges: seq<EdgeAddr>, o: nat, filter: IpVersionFilter, f: Finding)
    requires f.edges == edges && f.filter == filter && o <= |edges|
    ensures AnswerOf(Some(Rotated(edges, o)), filter, f)
  {
  }

  lemma LookKeeps(s: State, i: nat, filter: IpVersionFilter, hash: nat)
    requires Inv(s) && i < |s.callers|
    ensures Inv(Looked(s, i, filter, hash))
  {
    hide Genuine, AnswerOf, Rotated, Offset;
    if Serves(s.cache, filter, s.now) {
      var edges := s.cache.value.edges;
      RotatedAnswer(edges, Offset(edges, hash), filter, s.stores[|s.stores| - 1].f);
    }
  }

  lemma FindKeeps(s: State, i: nat, filter: IpVersionFilter, primary: Answer, dot: Answer)
    requires Inv(s) && i < |s.callers|
    ensures Inv(Found(s, i, filter, primary, dot))
  {
    hide AnswerOf, Discovery;
  }

  lemma WriteKeeps(s: State, i: nat, f: Finding, hash: nat)
    requires Inv(s) && i < |s.callers| && s.callers[i] == Storing(f)
    ensures Inv(Written(s, i, f, hash))
  {
    hide Genuine, AnswerOf, Rotated, Offset;
    var s' := Written(s, i, f, hash);
    RotatedAnswer(f.edges, Offset(f.edges, hash), f.filter, f);
    forall j | 0 <= j < |s.callers| ensures CallerOk(s'.callers[j], s'.stores, s'.ttl, s'.now) {
      if j != i { CallerLater(s.callers[j], s.stores, s'.stores, s.ttl, s.now, s.now); }
    }
  }

  lemma StepKeeps(s: State, step: Step)
    requires Inv(s) && Next(s, step).Some?
    ensures Inv(Next(s, step).value) && Next(s, step).value.ttl == s.ttl
  {
    hide Genuine, AnswerOf, Rotated;
    match step
    case Call(_) =>
    case Tick =>
      forall j | 0 <= j < |s.callers| ensures CallerOk(s.callers[j], s.stores, s.ttl, s.now + 1) {
        CallerLater(s.callers[j], s.stores, s.stores, s.ttl, s.now, s.now + 1);
      }
    case Act(i, action) => ActKeeps(s, i, action);
  }

  lemma ActKeeps(s: State, i: nat, action: Action)
    requires Inv(s) && Next(s, Act(i, action)).Some?
    ensures Inv(Next(s, Act(i, action)).value) && Next(s, Act(i, action)).value.ttl == s.ttl
  {
    hide Inv;
    var c := s.callers[i];
    if action.Look? {
      LookKeeps(s, i, c.filter, action.hash);
    } else if action.Find? {
      FindKeeps(s, i, c.filter, action.primary, action.dot);
    } else {
      WriteKeeps(s, i, c.f, action.hash);
    }
  }

  lemma RunKeeps(s: State, steps: seq<Step>)
    requires Inv(s) && Run(s, steps).Some?
    ensures Inv(Run(s, steps).value) && Run(s, steps).value.ttl == s.ttl
  {
    hide Inv, Next;
    var ttl := s.ttl;
    forall s, step | Inv(s) && Next(s, step).Some?
      ensures Inv(Next(s, step).value) && Next(s, step).value.ttl == s.ttl
    {
      StepKeeps(s, step);
    }
    Runs.Keeps(Next, s => Inv(s) && s.ttl == ttl, s, steps);
  }

  // ── Where the findings come from ──

  function FilterOf(c: Caller): IpVersionFilter { if c.Storing? then c.f.filter else c.filter }

  /** What a caller has found itself, if anything. */
  function FindingOf(c: Caller): Option<Finding> {
    if c.Storing? then Some(c.f) else if c.Done? && c.origin.Fresh? then Some(c.origin.f) else None
  }

  /** The finding is that of a step in `past`, by a caller with that filter. */
  ghost predicate Made(f: Finding, callers: seq<Caller>, past: seq<Step>) {
    && f.finder < |callers| && FilterOf(callers[f.finder]) == f.filter
    && exists m :: 0 <= m < |past| && past[m] == Act(f.finder, Find(f.primary, f.dot))
  }

  /** All findings in the state were made in `past`, each caller's own by itself. */
  ghost predicate AllMade(s: State, past: seq<Step>) {
    && (forall k | 0 <= k < |s.stores| :: Made(s.stores[k].f, s.callers, past))
    && (forall i | 0 <= i < |s.callers| ::
          var f := FindingOf(s.callers[i]); f.Some? ==> f.value.finder == i && Made(f.value, s.callers, past))
  }

  lemma MadeLater(f: Finding, callers: seq<Caller>, callers': seq<Caller>, past: seq<Step>, step: Step)
    requires Made(f, callers, past) && |callers| <= |callers'|
    requires forall i | 0 <= i < |callers| :: FilterOf(callers'[i]) == FilterOf(callers[i])
    ensures Made(f, callers', past + [step])
  {
    var m :| 0 <= m < |past| && past[m] == Act(f.finder, Find(f.primary, f.dot));
    assert (past + [step])[m] == past[m];
  }

  /** No step changes a caller's filter. */
  lemma FiltersStay(s: State, step: Step)
    requires Next(s, step).Some?
    ensures var s' := Next(s, step).value;
            && |s.callers| <= |s'.callers|
            && forall i | 0 <= i < |s.callers| :: FilterOf(s'.callers[i]) == FilterOf(s.callers[i])
  {
    hide Discovery, Rotated, Offset, Serves;
  }

  /** A finding in the new state was there before, or is made by this very step. */
  lemma FindingsOfStep(s: State, step: Step, i: nat)
    requires Next(s, step).Some? && i < |Next(s, step).value.callers|
    ensures var f := FindingOf(Next(s, step).value.callers[i]);
            f.None? || (i < |s.callers| && f == FindingOf(s.callers[i])) ||
            (step == Act(i, Find(f.value.primary, f.value.dot)) && f.value.finder == i
             && f.value.filter == FilterOf(Next(s, step).value.callers[i]))
  {
    hide Discovery, Rotated, Offset, Serves;
  }

  lemma StoresOfStep(s: State, step: Step)
    requires Next(s, step).Some?
    ensures var s' := Next(s, step).value;
            || s'.stores == s.stores
            || (step.Act? && step.i < |s.callers| && s.callers[step.i].Storing?
                && s'.stores == s.stores + [Store(s.callers[step.i].f, s.now)])
  {
    hide Discovery, Rotated, Offset, Serves;
  }

  lemma StepMakes(s: State, step: Step, past: seq<Step>)
    requires Next(s, step).Some? && AllMade(s, past)
    ensures AllMade(Next(s, step).value, past + [step])
  {
    hide Next, Made;
    var s' := Next(s, step).value;
    FiltersStay(s, step);
    forall i | 0 <= i < |s'.callers|
      ensures var f := FindingOf(s'.callers[i]);
              f.Some? ==> f.value.finder == i && Made(f.value, s'.callers, past + [step])
    {
      FindingsOfStep(s, step, i);
      var f := FindingOf(s'.callers[i]);
      if f.Some? {
        if i < |s.callers| && f == FindingOf(s.callers[i]) {
          MadeLater(f.value, s.callers, s'.callers, past, step);
        } else {
          MadeNow(f.value, s'.callers, past, step);
        }
      }
    }
    StoresOfStep(s, step);
    forall k | 0 <= k < |s'.stores| ensures Made(s'.stores[k].f, s'.callers, past + [step]) {
      if k < |s.stores| {
        MadeLater(s.stores[k].f, s.callers, s'.callers, past, step);
      } else {
        assert FindingOf(s.callers[step.i]) == Some(s.callers[step.i].f);
        MadeLater(s.callers[step.i].f, s.callers, s'.callers, past, step);
      }
    }
  }

  lemma MadeNow(f: Finding, callers: seq<Caller>, past: seq<Step>, step: Step)
    requires step == Act(f.finder, Find(f.primary, f.dot))
    requires f.finder < |callers| && FilterOf(callers[f.finder]) == f.filter
    ensures Made(f, callers, past + [step])
  {
    assert (past + [step])[|past|] == step;
  }

  lemma {:induction false} RunMakes(s: State, past: seq<Step>, steps: seq<Step>)
    requires AllMade(s, past) && Run(s, steps).Some?
    ensures AllMade(Run(s, steps).value, past + steps)
    decreases |steps|
  {
    hide AllMade, Next;
    if steps == [] {
      assert past + steps == past;
    } else {
      StepMakes(s, steps[0], past);
      RunMakes(Next(s, steps[0]).value, past + [steps[0]], steps[1..]);
      assert past + [steps[0]] + steps[1..] == past + steps;
    }
  }

  /** The cache agrees with discovery, in every interleaving of callers with whatever filters: an answer is a
      rotation of what a discovery gave that some caller, with the same filter, made in a step of this run; it is
      not empty, and every address in it matches. For a hit it is the discovery of the store that was hit, else
      the caller's own. */
  lemma CacheAgrees(ttl: nat, steps: seq<Step>, i: nat, answer: seq<EdgeAddr>) returns (f: Finding, m: nat)
    requires Run(Init(ttl), steps).Some? && i < |Run(Init(ttl), steps).value.callers|
    requires Run(Init(ttl), steps).value.callers[i].Done?
    requires Run(Init(ttl), steps).value.callers[i].answer == Some(answer)
    ensures m < |steps| && steps[m] == Act(f.finder, Find(f.primary, f.dot))
    ensures var callers := Run(Init(ttl), steps).value.callers;
            f.finder < |callers| && FilterOf(callers[f.finder]) == f.filter == callers[i].filter
    ensures var s := Run(Init(ttl), steps).value;
            match s.callers[i].origin
            case Hit(k, _) => k < |s.stores| && f == s.stores[k].f
            case Fresh(own) => f == own && f.finder == i
            case Error => false
    ensures Discovery(f.primary, f.dot, f.filter) == Some(f.edges)
    ensures IsRotation(f.edges, answer) && answer != []
    ensures forall e <- answer :: Matches(e, f.filter)
  {
    hide Run, Rotated, IsRotation, Discovery, Matches;
    RunKeeps(Init(ttl), steps);
    RunMakes(Init(ttl), [], steps);
    assert [] + steps == steps;
    var s := Run(Init(ttl), steps).value;
    var c := s.callers[i];
    assert CallerOk(c, s.stores, s.ttl, s.now);
    f := if c.origin.Hit? then s.stores[c.origin.k].f else c.origin.f;
    assert c.origin.Fresh? ==> FindingOf(c) == Some(f);
    assert Made(f, s.callers, steps);
    m :| 0 <= m < |steps| && steps[m] == Act(f.finder, Find(f.primary, f.dot));
    AnswerSound(f, answer, c.filter);
  }

  lemma AnswerSound(f: Finding, answer: seq<EdgeAddr>, filter: IpVersionFilter)
    requires Genuine(f) && AnswerOf(Some(answer), filter, f)
    ensures IsRotation(f.edges, answer) && answer != []
    ensures forall e <- answer :: Matches(e, f.filter)
  {
    hide Rotated, IsRotation, Discovery, Matches;
    var o: nat :| o <= |f.edges| && answer == Rotated(f.edges, o);
    RotatedIsRotation(f.edges, o);
    DiscoverySound(f.primary, f.dot, f.filter);
    RotationKeeps(f.edges, answer, f.filter);
  }

  lemma RotationKeeps(edges: seq<EdgeAddr>, answer: seq<EdgeAddr>, filter: IpVersionFilter)
    requires IsRotation(edges, answer) && edges != [] && forall e <- edges :: Matches(e, filter)
    ensures answer != [] && forall e <- answer :: Matches(e, filter)
  {
    hide Matches;
    forall e | e in answer ensures Matches(e, filter) {
      assert e in multiset(answer);
      assert e in multiset(edges);
    }
  }

  /** A cache hit was written less than the time to live before, by whichever caller, for the same filter. */
  lemma HitsAreYoung(ttl: nat, steps: seq<Step>, i: nat)
    requires Run(Init(ttl), steps).Some? && i < |Run(Init(ttl), steps).value.callers|
    requires Run(Init(ttl), steps).value.callers[i].Done? && Run(Init(ttl), steps).value.callers[i].origin.Hit?
    ensures var s := Run(Init(ttl), steps).value; var c := s.callers[i]; var k := c.origin.k;
            && k < |s.stores| && s.stores[k].f.filter == c.filter
            && s.stores[k].at <= c.origin.at < s.stores[k].at + ttl
  {
    hide Run, AnswerOf;
    RunKeeps(Init(ttl), steps);
    var s := Run(Init(ttl), steps).value;
    assert CallerOk(s.callers[i], s.stores, s.ttl, s.now);
    HitFilter(s.callers[i], s.stores, s.ttl, s.now);
  }

  /** A caller that discovers fails if and only if neither resolver gives an address that it wants, and then leaves the
      cache alone; else it has found what the first that does gives. */
  lemma FindDecides(s: State, i: nat, filter: IpVersionFilter, primary: Answer, dot: Answer)
    requires i < |s.callers| && s.callers[i] == Discovering(filter)
    ensures var s' := Next(s, Act(i, Find(primary, dot))).value;
            var first := if exists e :: Wanted(primary, filter, e) then primary else dot;
            && s'.cache == s.cache && s'.stores == s.stores
            && match s'.callers[i]
               case Done(g, answer, origin) =>
                 g == filter && answer == None && origin == Error && !exists e :: Wanted(first, filter, e)
               case Storing(f) =>
                 && f == Finding(i, filter, primary, dot, f.edges, s.now)
                 && f.edges != [] && forall e :: e in f.edges <==> Wanted(first, filter, e)
               case _ => false
  {
    hide Discovery, Wanted;
    DiscoveryInTurn(primary, dot, filter);
    DiscoverySound(primary, dot, filter);
  }

  /** A caller is served from the cache exactly if the last store of all was for its filter, and less than the
      time to live ago: one slot serves all filters. */
  lemma LookHits(ttl: nat, steps: seq<Step>, i: nat, hash: nat)
    requires Run(Init(ttl), steps).Some? && i < |Run(Init(ttl), steps).value.callers|
    requires Run(Init(ttl), steps).value.callers[i].Asking?
    ensures var s := Run(Init(ttl), steps).value;
            var s' := Next(s, Act(i, Look(hash))).value;
            s'.callers[i].Done? <==>
              && s.stores != []
              && var last := s.stores[|s.stores| - 1];
              last.f.filter == s.callers[i].filter && s.now < last.at + ttl
  {
    hide Run, CallerOk;
    RunKeeps(Init(ttl), steps);
  }

  lemma HitFilter(c: Caller, stores: seq<Store>, ttl: nat, now: nat)
    requires CallerOk(c, stores, ttl, now) && c.Done? && c.origin.Hit?
    ensures c.origin.k < |stores| && stores[c.origin.k].f.filter == c.filter
  {
  }

  lemma Go(init: State, steps: seq<Step>, s: State, step: Step) returns (steps': seq<Step>, s': State)
    requires Run(init, steps) == Some(s) && Next(s, step).Some?
    ensures Run(init, steps') == Some(s') == Next(s, step)
  {
    Runs.Longer(Next, init, steps, step);
    steps', s' := steps + [step], Next(s, step).value;
  }

  /** Time passes. */
  lemma {:induction false} Ticks(init: State, steps: seq<Step>, s: State, d: nat) returns (steps': seq<Step>, s': State)
    requires Run(init, steps) == Some(s)
    ensures Run(init, steps') == Some(s') && s' == s.(now := s.now + d)
    decreases d
  {
    hide Run;
    steps', s' := steps, s;
    if d > 0 {
      steps', s' := Go(init, steps, s, Tick);
      steps', s' := Ticks(init, steps', s', d - 1);
    }
  }

  /** The age counts from the write, whatever the time to live: its finder may take any time to get the write lock,
      and for the time to live from then on what it discovered is served. */
  lemma AgeFromWrite(ttl: nat, delay: nat, age: nat, primary: Answer) returns (steps: seq<Step>, s: State)
    requires primary.Some? && Resolved(primary.value, Auto) != [] && age < ttl
    ensures Run(Init(ttl), steps) == Some(s) && |s.callers| == 2
    ensures s.callers[1].Done? && s.callers[1].origin.Hit?
    ensures var Hit(k, at) := s.callers[1].origin; k < |s.stores| && at == s.stores[k].f.at + delay + age
  {
    hide Run, Resolved, Rotated, Offset;
    steps, s := [], Init(ttl);
    RunNone(s);
    steps, s := Go(Init(ttl), steps, s, Call(Auto));
    steps, s := Go(Init(ttl), steps, s, Act(0, Look(0)));
    steps, s := Go(Init(ttl), steps, s, Act(0, Find(primary, None)));
    steps, s := Ticks(Init(ttl), steps, s, delay);
    steps, s := Go(Init(ttl), steps, s, Act(0, Write(0)));
    steps, s := Go(Init(ttl), steps, s, Call(Auto));
    steps, s := Ticks(Init(ttl), steps, s, age);
    steps, s := Go(Init(ttl), steps, s, Act(1, Look(0)));
  }

  lemma RunNone(s: State)
    ensures Run(s, []) == Some(s)
  {
  }
}
