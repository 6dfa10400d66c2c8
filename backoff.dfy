/**
 * The reconnect backoff policy of the script: the two module globals
 * `should_backoff` and `minimum_backoff_time`, the callbacks that write them,
 * and the wait-or-give-up step at the head of each iteration of `main`.
 *
 * The pure functions on `State` are the specification; the class `Backoff`
 * holds the two globals as fields and its methods are proved against those
 * functions.
 */
module BackoffPolicy {

  /** Starting value of `minimum_backoff_time`, in seconds (mqtt-client-gcp.py:21). */
  const INITIAL_BACKOFF_TIME: nat := 1
  /** `MAXIMUM_BACKOFF_TIME`, in seconds (mqtt-client-gcp.py:23). */
  const MAXIMUM_BACKOFF_TIME: nat := 32
  /** The largest value of `randint(0, 1000)`, read as milliseconds of jitter. */
  const MAX_JITTER_MS: nat := 1000

  /** One draw of `randint(0, 1000)`: both ends are included. */
  type JitterMs = j: nat | j <= MAX_JITTER_MS

  /** The two globals. */
  datatype State = State(shouldBackoff: bool, minimumBackoffTime: nat)

  /** The globals at import time (mqtt-client-gcp.py:21, 25). */
  const INITIAL: State := State(false, INITIAL_BACKOFF_TIME)

  /** What the backoff block at the head of an iteration did. */
  datatype Wait =
    | NoBackoff              // `should_backoff` was false
    | GaveUp                 // the delay exceeded the ceiling: the loop breaks
    | Waited(delayMs: nat)   // slept this many milliseconds, then doubled the delay

  predicate IsPowerOfTwo(n: nat)
    decreases n
  {
    n == 1 || (n >= 2 && n % 2 == 0 && IsPowerOfTwo(n / 2))
  }

  /**
   * The states the script can be in: the delay is a power of two and at
   * most twice the ceiling, the value on which it gives up; and a clear flag
   * comes with the initial delay, because only `on_connect` clears the flag
   * and it resets the delay at the same time, while the delay is doubled
   * only when the flag is set.
   */
  predicate Reachable(s: State) {
    && IsPowerOfTwo(s.minimumBackoffTime)
    && s.minimumBackoffTime <= 2 * MAXIMUM_BACKOFF_TIME
    && (!s.shouldBackoff ==> s.minimumBackoffTime == INITIAL_BACKOFF_TIME)
  }

  /** `on_connect` (mqtt-client-gcp.py:62-68). */
  function AfterConnect(s: State): State {
    State(false, INITIAL_BACKOFF_TIME)
  }

  /** `on_disconnect` (mqtt-client-gcp.py:71-75). */
  function AfterDisconnect(s: State): State {
    s.(shouldBackoff := true)
  }

  /**
   * The `if should_backoff:` block of `main` (mqtt-client-gcp.py:139-149):
   * give up when the delay is strictly above the ceiling, otherwise sleep
   * `minimum_backoff_time + randint(0, 1000) / 1000.0` seconds, here
   * `1000 * minimum_backoff_time + jitter` milliseconds, and double the delay.
   * This is the step the script intends; as written, line 146 raises instead
   * of sleeping (see `BackoffStepAsWritten`).
   */
  function BackoffStep(s: State, jitter: JitterMs): (r: (Wait, State))
    ensures r.1.shouldBackoff == s.shouldBackoff
    ensures !r.0.Waited? ==> r.1 == s
  {
    if !s.shouldBackoff then (NoBackoff, s)
    else if s.minimumBackoffTime > MAXIMUM_BACKOFF_TIME then (GaveUp, s)
    else (Waited(1000 * s.minimumBackoffTime + jitter), s.(minimumBackoffTime := 2 * s.minimumBackoffTime))
  }

  /** `minimum_backoff_time` after `n` doublings from `m`. */
  function Doubled(m: nat, n: nat): nat {
    if n == 0 then m else 2 * Doubled(m, n - 1)
  }

  lemma InitialReachable()
    ensures Reachable(INITIAL)
  {
  }

  /** With the flag clear, the script is in its connected state: flag clear, delay 1. */
  lemma ClearFlagIsConnected(s: State)
    requires Reachable(s)
    ensures !s.shouldBackoff <==> s == INITIAL
  {
  }

  /** `on_connect` resets both globals whatever they were before. */
  lemma ConnectResets(s: State)
    ensures AfterConnect(s) == INITIAL && Reachable(AfterConnect(s))
  {
  }

  /** `on_disconnect` raises the flag and keeps the delay. */
  lemma DisconnectKeepsDelay(s: State)
    ensures AfterDisconnect(s).shouldBackoff
    ensures AfterDisconnect(s).minimumBackoffTime == s.minimumBackoffTime
    ensures Reachable(s) ==> Reachable(AfterDisconnect(s))
  {
  }

  /**
   * A wait lasts between the delay and the delay plus one second, and is
   * followed by exactly doubling the delay; from a reachable state no wait is
   * shorter than one second or longer than 33 seconds. Giving up and not
   * backing off leave the state as it was. Every step keeps the state
   * reachable.
   */
  lemma StepBounds(s: State, jitter: JitterMs)
    requires Reachable(s)
    ensures var (w, t) := BackoffStep(s, jitter);
      && Reachable(t)
      && (w.Waited? ==>
            && 1000 * s.minimumBackoffTime <= w.delayMs <= 1000 * s.minimumBackoffTime + MAX_JITTER_MS
            && 1000 <= w.delayMs <= 1000 * MAXIMUM_BACKOFF_TIME + MAX_JITTER_MS
            && t == State(true, 2 * s.minimumBackoffTime))
      && (!w.Waited? ==> t == s)
  {
  }

  /** The step gives up exactly when the flag is set and the delay is above the ceiling. */
  lemma GiveUpIff(s: State, jitter: JitterMs)
    ensures BackoffStep(s, jitter).0.GaveUp? <==> s.shouldBackoff && s.minimumBackoffTime > MAXIMUM_BACKOFF_TIME
    ensures BackoffStep(s, jitter).0.NoBackoff? <==> !s.shouldBackoff
  {
  }

  /**
   * The test is strict: a delay of exactly the ceiling is still waited on,
   * and only the doubled delay, 64, makes the loop give up.
   */
  lemma GiveUpIsStrict(jitter1: JitterMs, jitter2: JitterMs)
    ensures BackoffStep(State(true, 32), jitter1) == (Waited(32000 + jitter1), State(true, 64))
    ensures BackoffStep(State(true, 64), jitter2) == (GaveUp, State(true, 64))
  {
  }

  lemma {:induction false} PowerOfTwoPositive(n: nat)
    requires IsPowerOfTwo(n)
    ensures n >= 1
  {
  }

  /** The only delays the script ever holds: 1, 2, 4, 8, 16, 32 and 64 seconds. */
  lemma {:induction false} ReachableDelays(s: State)
    requires Reachable(s)
    ensures s.minimumBackoffTime in {1, 2, 4, 8, 16, 32, 64}
  {
    PowerOfTwoAtMost64(s.minimumBackoffTime);
  }

  lemma {:induction false} PowerOfTwoAtMost64(n: nat)
    requires IsPowerOfTwo(n) && n <= 64
    ensures n in {1, 2, 4, 8, 16, 32, 64}
    decreases n
  {
    if n != 1 {
      PowerOfTwoAtMost64(n / 2);
    }
  }

  /** Doubling a positive delay `n` times gives at least `2^n`. */
  lemma {:induction false} DoubledAtLeast(m: nat, n: nat)
    requires m >= 1
    ensures Doubled(m, n) >= Doubled(1, n)
  {
    if n > 0 {
      DoubledAtLeast(m, n - 1);
    }
  }

  /** What the backoff block does as line 146 is written. */
  datatype AsWritten = Raises | Returns(wait: Wait, next: State)

  /**
   * Line 146 calls `random.randint`, but line 13 binds `random` to the
   * function `random.random`, which has no attribute `randint`: the
   * expression raises AttributeError before any sleep. The raise is outside
   * the `try` of line 151, so it ends `main`.
   */
  function BackoffStepAsWritten(s: State): AsWritten {
    if !s.shouldBackoff then Returns(NoBackoff, s)
    else if s.minimumBackoffTime > MAXIMUM_BACKOFF_TIME then Returns(GaveUp, s)
    else Raises
  }

  /**
   * The code as written raises exactly where the intended step would wait,
   * and agrees with it everywhere else.
   */
  lemma AsWrittenRaisesInsteadOfWaiting(s: State, jitter: JitterMs)
    ensures BackoffStepAsWritten(s).Raises? <==> BackoffStep(s, jitter).0.Waited?
    ensures BackoffStepAsWritten(s).Returns? ==>
      BackoffStep(s, jitter) == (BackoffStepAsWritten(s).wait, BackoffStepAsWritten(s).next)
  {
  }

  /** The first disconnect after a connect already makes the code as written raise. */
  lemma AsWrittenFirstBackoffRaises()
    ensures BackoffStepAsWritten(AfterDisconnect(INITIAL)) == Raises
    ensures BackoffStep(AfterDisconnect(INITIAL), 0) == (Waited(1000), State(true, 2))
  {
  }

  /** The two globals `should_backoff` and `minimum_backoff_time`. */
  class Backoff {
    var shouldBackoff: bool
    var minimumBackoffTime: nat

    function Value(): State
      reads this
    {
      State(shouldBackoff, minimumBackoffTime)
    }

    ghost predicate Valid()
      reads this
    {
      Reachable(Value())
    }

    /** The globals as the module is imported (mqtt-client-gcp.py:21, 25). */
    constructor ()
      ensures Valid()
      ensures !shouldBackoff && minimumBackoffTime == INITIAL_BACKOFF_TIME
    {
      shouldBackoff := false;
      minimumBackoffTime := INITIAL_BACKOFF_TIME;
    }

    /** `on_connect`: clear the flag and reset the delay, whatever it was. */
    method OnConnect()
      requires Valid()
      modifies this
      ensures Valid()
      ensures !shouldBackoff && minimumBackoffTime == INITIAL_BACKOFF_TIME
      ensures Value() == AfterConnect(old(Value()))
    {
      shouldBackoff := false;
      minimumBackoffTime := INITIAL_BACKOFF_TIME;
    }

    /** `on_disconnect`: raise the flag, leave the delay alone. */
    method OnDisconnect()
      requires Valid()
      modifies this
      ensures Valid()
      ensures shouldBackoff && minimumBackoffTime == old(minimumBackoffTime)
      ensures Value() == AfterDisconnect(old(Value()))
    {
      shouldBackoff := true;
    }

    /**
     * The backoff block of one iteration of `main`: returns what it did and
     * updates the delay in place.
     */
    method Step(jitter: JitterMs) returns (w: Wait)
      requires Valid()
      modifies this
      ensures Valid()
      ensures (w, Value()) == BackoffStep(old(Value()), jitter)
      ensures w.GaveUp? <==> old(shouldBackoff) && old(minimumBackoffTime) > MAXIMUM_BACKOFF_TIME
      ensures w.Waited? ==>
        && 1000 * old(minimumBackoffTime) <= w.delayMs <= 1000 * old(minimumBackoffTime) + MAX_JITTER_MS
        && w.delayMs <= 1000 * MAXIMUM_BACKOFF_TIME + MAX_JITTER_MS
        && minimumBackoffTime == 2 * old(minimumBackoffTime)
      ensures !w.Waited? ==> minimumBackoffTime == old(minimumBackoffTime)
      ensures shouldBackoff == old(shouldBackoff)
    {
      StepBounds(Value(), jitter);
      if shouldBackoff {
        if minimumBackoffTime > MAXIMUM_BACKOFF_TIME {
          return GaveUp;
        }
        // Line 146 draws the jitter with `random.randint`, which raises as
        // written; the jitter is taken as the intended `randint(0, 1000)`.
        w := Waited(1000 * minimumBackoffTime + jitter);
        minimumBackoffTime := minimumBackoffTime * 2;
      } else {
        w := NoBackoff;
      }
    }
  }
}
