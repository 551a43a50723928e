/** The retry loop of a leg that has lost its connection or never had one, and its waits. */
module Retry {
  import opened Options

  const MAX_RECONNECT_ATTEMPTS: nat := 10

  /** `backoff` is capped at this many seconds. */
  const BACKOFF_CAP: nat := 30

  function Pow2(n: nat): (r: nat)
    ensures r > 0
  {
    if n == 0 then 1 else 2 * Pow2(n - 1)
  }

  /** `1u64.checked_shl(shift)` */
  function CheckedShl(shift: nat): Option<nat> { if shift < 64 then Some(Pow2(shift)) else None }

  /** Seconds before an attempt. */
  function Backoff(attempt: nat): nat {
    var shift := if attempt == 0 then 0 else attempt - 1;
    var secs := if CheckedShl(shift).Some? then CheckedShl(shift).value else 30;
    if secs <= BACKOFF_CAP then secs else BACKOFF_CAP
  }

  lemma {:induction false} Pow2Monotone(i: nat, j: nat)
    requires i <= j
    ensures Pow2(i) <= Pow2(j)
    decreases j
  {
    if i < j { Pow2Monotone(i, j - 1); }
  }

  lemma Pow2Of5()
    ensures Pow2(5) == 32
  {
    assert Pow2(2) == 4 && Pow2(4) == 16;
  }

  /** For every attempt number, shifts of 64 and more included, the wait is the power of two, capped. */
  lemma BackoffIsCappedPower(k: nat)
    ensures var p := Pow2(if k == 0 then 0 else k - 1);
            Backoff(k) == if p <= 30 then p else 30
  {
    if k > 64 {
      Pow2Of5();
      Pow2Monotone(5, k - 1);
    }
  }

  lemma BackoffMonotone(j: nat, k: nat)
    requires j <= k
    ensures Backoff(j) <= Backoff(k)
  {
    BackoffIsCappedPower(j);
    BackoffIsCappedPower(k);
    Pow2Monotone(if j == 0 then 0 else j - 1, if k == 0 then 0 else k - 1);
  }

  /** The waits before attempt `k`, its own included. */
  function Slept(k: nat): nat {
    if k == 0 then 0 else Slept(k - 1) + Backoff(k)
  }

  lemma {:induction false} SleptInClosedForm(k: nat)
    ensures Slept(k) == if k <= 5 then Pow2(k) - 1 else 31 + 30 * (k - 5)
    decreases k
  {
    if k > 0 {
      SleptInClosedForm(k - 1);
      BackoffIsCappedPower(k);
      Pow2Of5();
      if k <= 5 { Pow2Monotone(k, 5); } else { Pow2Monotone(5, k - 1); }
    }
  }

  /** What becomes of one round: whether the shutdown signal fires while it sleeps, and whether it connects. */
  datatype Round = Round(signal: bool, connects: bool)

  datatype Exit = Reconnected | GaveUp | Stopped

  predicate Fails(r: Round) { !r.signal && !r.connects }

  /** The loop in `reactor_loop` and in `reactor_loop_after_failure`; `rounds(k)` is what becomes of attempt `k`. */
  method RetryLoop(rounds: nat -> Round) returns (exit: Exit, attempt: nat, slept: nat)
    ensures forall k | 1 <= k < attempt :: Fails(rounds(k))
    ensures exit == GaveUp <==> forall k | 1 <= k <= 10 :: !rounds(k).signal && !rounds(k).connects
    ensures exit == GaveUp ==> attempt == 11 && slept == 181
    ensures exit != GaveUp ==> 1 <= attempt <= 10
    ensures exit == Stopped ==> rounds(attempt).signal && slept == Slept(attempt - 1)
    ensures exit == Reconnected ==> !rounds(attempt).signal && rounds(attempt).connects && slept == Slept(attempt)
  {
    hide Backoff, Pow2;
    attempt, slept := 0, 0;
    while true
      invariant attempt <= MAX_RECONNECT_ATTEMPTS && slept == Slept(attempt)
      invariant forall k | 1 <= k <= attempt :: Fails(rounds(k))
      decreases MAX_RECONNECT_ATTEMPTS + 1 - attempt
    {
      attempt := attempt + 1;
      if attempt > MAX_RECONNECT_ATTEMPTS {
        SleptInClosedForm(MAX_RECONNECT_ATTEMPTS);
        return GaveUp, attempt, slept;
      }
      var delay := Backoff(attempt);
      if rounds(attempt).signal { return Stopped, attempt, slept; }
      slept := slept + delay;
      if rounds(attempt).connects { return Reconnected, attempt, slept; }
    }
  }
}
