/** Runs of a state machine: steps, one after the other, as long as they can be taken. */
module Runs {
  import opened Options

  function Run<S, E>(next: (S, E) -> Option<S>, s: S, steps: seq<E>): Option<S>
    decreases |steps|
  {
    if steps == [] then Some(s)
    else match next(s, steps[0])
      case None => None
      case Some(s') => Run(next, s', steps[1..])
  }

  /** What every step keeps holds after every run. */
  lemma {:induction false} Keeps<S(!new), E(!new)>(next: (S, E) -> Option<S>, inv: S -> bool, s: S, steps: seq<E>)
    requires inv(s) && Run(next, s, steps).Some?
    requires forall s, e :: inv(s) && next(s, e).Some? ==> inv(next(s, e).value)
    ensures inv(Run(next, s, steps).value)
    decreases |steps|
  {
    if steps != [] {
      Keeps(next, inv, next(s, steps[0]).value, steps[1..]);
    }
  }

  /** A run, one step longer. */
  lemma {:induction false} Longer<S, E>(next: (S, E) -> Option<S>, s: S, steps: seq<E>, e: E)
    requires Run(next, s, steps).Some?
    ensures Run(next, s, steps + [e]) == next(Run(next, s, steps).value, e)
    decreases |steps|
  {
    if steps == [] {
      assert steps + [e] == [e];
      assert next(s, e).Some? ==> Run(next, next(s, e).value, [e][1..]) == next(s, e);
    } else {
      assert (steps + [e])[1..] == steps[1..] + [e];
      Longer(next, next(s, steps[0]).value, steps[1..], e);
    }
  }

  /** One run after another. */
  lemma {:induction false} Joined<S, E>(next: (S, E) -> Option<S>, s: S, first: seq<E>, second: seq<E>)
    requires Run(next, s, first).Some?
    ensures Run(next, s, first + second) == Run(next, Run(next, s, first).value, second)
    decreases |first|
  {
    if first == [] {
      assert first + second == second;
    } else {
      assert (first + second)[1..] == first[1..] + second;
      Joined(next, next(s, first[0]).value, first[1..], second);
    }
  }
}
