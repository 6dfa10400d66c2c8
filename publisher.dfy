/**
 * The publish loop of `main` (mqtt-client-gcp.py:122-198).
 *
 * The MQTT client is outside the model. Each iteration is driven by a `Tick`
 * that says what the outside world did during it: which callbacks the
 * client's `loop()` call dispatched, which jitter `randint(0, 1000)` drew, and
 * whether the `try` block ran through `client.publish` or raised.
 *
 * `Run` is the specification: a fold of `Iterate` over the ticks, recording
 * the waits, the topics published to, the `client.disconnect()` calls of the
 * `except` branch, the iterations begun and whether the loop gave up.
 * `PublishLoop` is the loop itself, written against a `Backoff` object and
 * proved equal to `Run`.
 */
module Publisher {
  import opened BackoffPolicy
  import Naming

  /** `num_messages` (mqtt-client-gcp.py:132). */
  const NUM_MESSAGES: nat := 10

  /** A callback the client's `loop()` dispatches. */
  datatype Callback =
    | Connack          // `on_connect`
    | ConnectionLost   // `on_disconnect`

  /** How the `try` block of one iteration ended. */
  datatype Attempt =
    | Ok       // `client.publish` was called and the block finished
    | Raised   // the block raised before `client.publish` completed

  /** What one iteration meets. */
  datatype Tick = Tick(callbacks: seq<Callback>, jitter: JitterMs, attempt: Attempt)

  datatype Trace = Trace(
    state: State,              // the two globals
    waits: seq<nat>,           // backoff sleeps, in milliseconds
    published: seq<string>,    // topic of each `client.publish` call
    disconnects: nat,          // `client.disconnect()` calls of the `except` branch
    iterations: nat,           // iterations begun
    gaveUp: bool)              // the loop left by `break`

  /** One callback: `on_connect` clears the flag, `on_disconnect` sets it. */
  function Dispatch(s: State, cb: Callback): (r: State)
    ensures r.shouldBackoff <==> cb == ConnectionLost
  {
    match cb
    case Connack => AfterConnect(s)
    case ConnectionLost => AfterDisconnect(s)
  }

  /** The globals after `loop()` dispatched `cbs` in order. */
  function Deliver(s: State, cbs: seq<Callback>): (r: State)
    ensures cbs != [] ==> (r.shouldBackoff <==> cbs[|cbs| - 1] == ConnectionLost)
    ensures cbs == [] ==> r == s
    decreases |cbs|
  {
    if cbs == [] then s else Dispatch(Deliver(s, cbs[..|cbs| - 1]), cbs[|cbs| - 1])
  }

  /** One iteration of the `for` loop of `main` (mqtt-client-gcp.py:134-198). */
  function Iterate(t: Trace, topic: string, tick: Tick): (r: Trace)
    ensures t.gaveUp ==> r == t
    ensures !t.gaveUp ==> r.iterations == t.iterations + 1
    ensures t.waits <= r.waits && t.published <= r.published && t.disconnects <= r.disconnects
    ensures r.gaveUp ==> r.waits == t.waits && r.published == t.published && r.disconnects == t.disconnects
  {
    if t.gaveUp then t
    else
      var (w, s) := BackoffStep(Deliver(t.state, tick.callbacks), tick.jitter);
      if w.GaveUp? then t.(state := s, iterations := t.iterations + 1, gaveUp := true)
      else
        var waits := if w.Waited? then t.waits + [w.delayMs] else t.waits;
        match tick.attempt
        case Ok => Trace(s, waits, t.published + [topic], t.disconnects, t.iterations + 1, false)
        case Raised => Trace(s, waits, t.published, t.disconnects + 1, t.iterations + 1, false)
  }

  /** The loop over `ticks`, starting from the globals `s`, publishing to `topic`. */
  function Run(s: State, topic: string, ticks: seq<Tick>): (r: Trace)
    ensures r.iterations <= |ticks|
    ensures !r.gaveUp ==> r.iterations == |ticks|
    decreases |ticks|
  {
    if ticks == [] then Trace(s, [], [], 0, 0, false)
    else Iterate(Run(s, topic, ticks[..|ticks| - 1]), topic, ticks[|ticks| - 1])
  }

  predicate NoConnack(ticks: seq<Tick>) {
    forall i :: 0 <= i < |ticks| ==> Connack !in ticks[i].callbacks
  }

  predicate Quiet(ticks: seq<Tick>) {
    forall i :: 0 <= i < |ticks| ==> ConnectionLost !in ticks[i].callbacks && ticks[i].attempt == Ok
  }

  /**
   * Only the last callback and whether a connect happened at all matter: a
   * final connect leaves the initial globals; a final disconnect leaves the
   * flag set and the delay reset if some connect came before it.
   */
  lemma {:induction false} DeliverLast(s: State, cbs: seq<Callback>)
    ensures Deliver(s, cbs) ==
      if cbs == [] then s
      else if cbs[|cbs| - 1] == Connack then INITIAL
      else State(true, if Connack in cbs then INITIAL_BACKOFF_TIME else s.minimumBackoffTime)
  {
    if cbs != [] {
      var init := cbs[..|cbs| - 1];
      DeliverLast(s, init);
      assert cbs == init + [cbs[|cbs| - 1]];
      assert Connack in cbs <==> Connack in init || cbs[|cbs| - 1] == Connack;
    }
  }

  lemma DeliverReachable(s: State, cbs: seq<Callback>)
    requires Reachable(s)
    ensures Reachable(Deliver(s, cbs))
  {
  }

  /**
   * Each iteration begun either published once, or disconnected once, or
   * gave up; only the give-up ends the loop early; every publish goes to the
   * loop's topic; a give-up happens in no iteration that waited.
   */
  lemma {:induction false} RunAccounting(s: State, topic: string, ticks: seq<Tick>)
    ensures var r := Run(s, topic, ticks);
      && r.iterations <= |ticks|
      && |r.published| + r.disconnects + (if r.gaveUp then 1 else 0) == r.iterations
      && |r.waits| + (if r.gaveUp then 1 else 0) <= r.iterations
      && (!r.gaveUp ==> r.iterations == |ticks|)
      && (forall i :: 0 <= i < |r.published| ==> r.published[i] == topic)
    decreases |ticks|
  {
    if ticks != [] {
      RunAccounting(s, topic, ticks[..|ticks| - 1]);
    }
  }

  /**
   * The iteration that gives up neither waits, nor publishes, nor
   * disconnects: the `break` comes before the sleep and the `try` block. It
   * only dispatches the callbacks and counts as begun.
   */
  lemma GiveUpAddsNothing(s: State, topic: string, ticks: seq<Tick>)
    requires ticks != [] && !Run(s, topic, ticks[..|ticks| - 1]).gaveUp && Run(s, topic, ticks).gaveUp
    ensures var t, r := Run(s, topic, ticks[..|ticks| - 1]), Run(s, topic, ticks);
      && r.waits == t.waits && r.published == t.published && r.disconnects == t.disconnects
      && r.iterations == t.iterations + 1
      && r.state == Deliver(t.state, ticks[|ticks| - 1].callbacks)
  {
  }

  /** The loop keeps the globals reachable and every wait within 1 to 33 seconds. */
  lemma {:induction false} RunReachable(s: State, topic: string, ticks: seq<Tick>)
    requires Reachable(s)
    ensures var r := Run(s, topic, ticks);
      && Reachable(r.state)
      && (forall i :: 0 <= i < |r.waits| ==> 1000 <= r.waits[i] <= 1000 * MAXIMUM_BACKOFF_TIME + MAX_JITTER_MS)
    decreases |ticks|
  {
    if ticks != [] {
      var t := Run(s, topic, ticks[..|ticks| - 1]);
      RunReachable(s, topic, ticks[..|ticks| - 1]);
      var tick := ticks[|ticks| - 1];
      if !t.gaveUp {
        DeliverReachable(t.state, tick.callbacks);
        StepBounds(Deliver(t.state, tick.callbacks), tick.jitter);
      }
    }
  }

  /**
   * The outcome of the `try` block never reaches the backoff state: the
   * globals, the waits, the iterations and the give-up depend only on the
   * callbacks and the jitters.
   */
  lemma {:induction false} RunIgnoresAttempts(s: State, topic: string, ticks1: seq<Tick>, ticks2: seq<Tick>)
    requires |ticks1| == |ticks2|
    requires forall i :: 0 <= i < |ticks1| ==>
      ticks1[i].callbacks == ticks2[i].callbacks && ticks1[i].jitter == ticks2[i].jitter
    ensures var r1, r2 := Run(s, topic, ticks1), Run(s, topic, ticks2);
      r1.state == r2.state && r1.waits == r2.waits && r1.iterations == r2.iterations && r1.gaveUp == r2.gaveUp
    decreases |ticks1|
  {
    if ticks1 != [] {
      var n := |ticks1|;
      var init1, init2 := ticks1[..n - 1], ticks2[..n - 1];
      forall i | 0 <= i < n - 1
        ensures init1[i].callbacks == init2[i].callbacks && init1[i].jitter == init2[i].jitter
      {
        assert init1[i] == ticks1[i] && init2[i] == ticks2[i];
      }
      RunIgnoresAttempts(s, topic, init1, init2);
      SameStepSameBackoff(Run(s, topic, init1), Run(s, topic, init2), topic, ticks1[n - 1], ticks2[n - 1]);
    }
  }

  lemma SameStepSameBackoff(t1: Trace, t2: Trace, topic: string, tick1: Tick, tick2: Tick)
    requires t1.state == t2.state && t1.waits == t2.waits && t1.iterations == t2.iterations && t1.gaveUp == t2.gaveUp
    requires tick1.callbacks == tick2.callbacks && tick1.jitter == tick2.jitter
    ensures var r1, r2 := Iterate(t1, topic, tick1), Iterate(t2, topic, tick2);
      r1.state == r2.state && r1.waits == r2.waits && r1.iterations == r2.iterations && r1.gaveUp == r2.gaveUp
  {
  }

  /** Once the loop has given up, later ticks change nothing. */
  lemma {:induction false} GaveUpIsFinal(s: State, topic: string, ticks: seq<Tick>, n: nat)
    requires n <= |ticks| && Run(s, topic, ticks[..n]).gaveUp
    ensures Run(s, topic, ticks) == Run(s, topic, ticks[..n])
    decreases |ticks|
  {
    if |ticks| == n {
      assert ticks[..n] == ticks;
    } else {
      var init := ticks[..|ticks| - 1];
      assert init[..n] == ticks[..n];
      GaveUpIsFinal(s, topic, init, n);
    }
  }

  /**
   * Without a connect, a backing-off loop doubles the delay once per
   * iteration and waits `delay + jitter` each time, as long as the delay
   * before the iteration is at most the ceiling.
   */
  lemma {:induction false} BackoffWithoutConnect(s: State, topic: string, ticks: seq<Tick>)
    requires s.shouldBackoff && NoConnack(ticks)
    ensures var r := Run(s, topic, ticks);
      && (Doubled(s.minimumBackoffTime, |ticks|) <= 2 * MAXIMUM_BACKOFF_TIME ==> !r.gaveUp)
      && (!r.gaveUp ==>
            && r.state == State(true, Doubled(s.minimumBackoffTime, |ticks|))
            && |r.waits| == |ticks|
            && forall i :: 0 <= i < |ticks| ==>
                 r.waits[i] == 1000 * Doubled(s.minimumBackoffTime, i) + ticks[i].jitter)
    decreases |ticks|
  {
    if ticks != [] {
      var n := |ticks|;
      var init := ticks[..n - 1];
      var tick := ticks[n - 1];
      assert NoConnack(init) by {
        forall i | 0 <= i < n - 1 ensures Connack !in init[i].callbacks {
          assert init[i] == ticks[i];
        }
      }
      BackoffWithoutConnect(s, topic, init);
      var t := Run(s, topic, init);
      if !t.gaveUp {
        DeliverLast(t.state, tick.callbacks);
        assert Deliver(t.state, tick.callbacks) == t.state;
        var r := Run(s, topic, ticks);
        if !r.gaveUp {
          forall i | 0 <= i < n
            ensures r.waits[i] == 1000 * Doubled(s.minimumBackoffTime, i) + ticks[i].jitter
          {
            if i < n - 1 {
              assert init[i] == ticks[i];
            }
          }
        }
      }
    }
  }

  /**
   * From a reachable state with the flag set and no connect in between, the
   * loop gives up within seven iterations, having waited at most six times.
   */
  lemma GivesUpWithinSeven(s: State, topic: string, ticks: seq<Tick>)
    requires Reachable(s) && s.shouldBackoff && NoConnack(ticks) && |ticks| >= 7
    ensures var r := Run(s, topic, ticks);
      r.gaveUp && r.iterations <= 7 && |r.waits| <= 6
  {
    var p6, p7 := ticks[..6], ticks[..7];
    assert NoConnack(p6) by {
      forall i | 0 <= i < 6 ensures Connack !in p6[i].callbacks {
        assert p6[i] == ticks[i];
      }
    }
    BackoffWithoutConnect(s, topic, p6);
    var t := Run(s, topic, p6);
    assert p7[..6] == p6 && p7[6] == ticks[6];
    if !t.gaveUp {
      PowerOfTwoPositive(s.minimumBackoffTime);
      DoubledAtLeast(s.minimumBackoffTime, 6);
      assert Doubled(1, 6) == 64;
      DeliverLast(t.state, ticks[6].callbacks);
    }
    RunAccounting(s, topic, p7);
    GaveUpIsFinal(s, topic, ticks, 7);
  }

  /**
   * Starting from the first disconnect after a connect (flag set, delay 1),
   * with no connect in between: the loop waits with delays 1, 2, 4, 8, 16 and
   * 32 seconds, gives up in the seventh iteration with the delay at 64, and
   * every one of the six iterations before it published or disconnected.
   */
  lemma SixWaitsThenGiveUp(topic: string, ticks: seq<Tick>)
    requires NoConnack(ticks) && |ticks| >= 7
    ensures var r := Run(AfterDisconnect(INITIAL), topic, ticks);
      && r.gaveUp
      && r.iterations == 7
      && r.state == State(true, 64)
      && r.waits == [ 1000 + ticks[0].jitter,  2000 + ticks[1].jitter,  4000 + ticks[2].jitter,
                      8000 + ticks[3].jitter, 16000 + ticks[4].jitter, 32000 + ticks[5].jitter]
      && |r.published| + r.disconnects == 6
  {
    var s := AfterDisconnect(INITIAL);
    var p6, p7 := ticks[..6], ticks[..7];
    assert NoConnack(p6) by {
      forall i | 0 <= i < 6 ensures Connack !in p6[i].callbacks {
        assert p6[i] == ticks[i];
      }
    }
    assert Doubled(1, 6) == 64;
    BackoffWithoutConnect(s, topic, p6);
    var t := Run(s, topic, p6);
    assert Doubled(1, 0) == 1 && Doubled(1, 1) == 2 && Doubled(1, 2) == 4;
    assert Doubled(1, 3) == 8 && Doubled(1, 4) == 16 && Doubled(1, 5) == 32;
    assert t.waits == [ 1000 + ticks[0].jitter,  2000 + ticks[1].jitter,  4000 + ticks[2].jitter,
                        8000 + ticks[3].jitter, 16000 + ticks[4].jitter, 32000 + ticks[5].jitter];
    assert p7[..6] == p6 && p7[6] == ticks[6];
    DeliverLast(t.state, ticks[6].callbacks);
    RunAccounting(s, topic, p6);
    GaveUpIsFinal(s, topic, ticks, 7);
  }

  /**
   * With the flag clear, no disconnect callback and no failure, every
   * iteration publishes once to the loop's topic and nothing waits.
   */
  lemma {:induction false} QuietRun(s: State, topic: string, ticks: seq<Tick>)
    requires !s.shouldBackoff && Quiet(ticks)
    ensures var r := Run(s, topic, ticks);
      && !r.gaveUp && !r.state.shouldBackoff
      && r.waits == [] && r.disconnects == 0
      && r.iterations == |ticks| && |r.published| == |ticks|
      && (forall i :: 0 <= i < |r.published| ==> r.published[i] == topic)
    decreases |ticks|
  {
    if ticks != [] {
      var init := ticks[..|ticks| - 1];
      assert Quiet(init) by {
        forall i | 0 <= i < |init| ensures ConnectionLost !in init[i].callbacks && init[i].attempt == Ok {
          assert init[i] == ticks[i];
        }
      }
      QuietRun(s, topic, init);
      DeliverLast(Run(s, topic, init).state, ticks[|ticks| - 1].callbacks);
    }
  }

  /** A run of `main` without failures publishes exactly ten messages, all to the events topic. */
  lemma TenPublishes(ticks: seq<Tick>)
    requires |ticks| == NUM_MESSAGES && Quiet(ticks)
    ensures var r := Run(INITIAL, Naming.EventsTopic(Naming.DEVICE_ID), ticks);
      && |r.published| == 10
      && forall i :: 0 <= i < 10 ==> r.published[i] == "/devices/raspberrypi/events"
  {
    QuietRun(INITIAL, Naming.EventsTopic(Naming.DEVICE_ID), ticks);
    assert "/devices/" + Naming.DEVICE_ID + "/events" == "/devices/raspberrypi/events";
  }

  /** `client.loop()`: dispatch the callbacks it triggers, in order. */
  method DispatchCallbacks(b: Backoff, callbacks: seq<Callback>)
    requires b.Valid()
    modifies b
    ensures b.Valid()
    ensures b.Value() == Deliver(old(b.Value()), callbacks)
  {
    for j := 0 to |callbacks|
      invariant b.Valid()
      invariant b.Value() == Deliver(old(b.Value()), callbacks[..j])
    {
      match callbacks[j] {
        case Connack => b.OnConnect();
        case ConnectionLost => b.OnDisconnect();
      }
      assert callbacks[..j + 1][..j] == callbacks[..j];
    }
    assert callbacks[..|callbacks|] == callbacks;
  }

  /**
   * The `for i in range(0, num_messages)` loop of `main` for the device
   * `deviceId`, on the globals held by `b`.
   */
  method PublishLoop(b: Backoff, deviceId: string, numMessages: nat, ticks: seq<Tick>)
    returns (waits: seq<nat>, published: seq<string>, disconnects: nat, iterations: nat, gaveUp: bool)
    requires b.Valid() && numMessages <= |ticks|
    modifies b
    ensures b.Valid()
    ensures Trace(b.Value(), waits, published, disconnects, iterations, gaveUp)
         == Run(old(b.Value()), Naming.EventsTopic(deviceId), ticks[..numMessages])
    ensures |published| <= iterations <= numMessages
    ensures !gaveUp ==> iterations == numMessages && |published| + disconnects == numMessages
    ensures forall i :: 0 <= i < |published| ==> published[i] == "/devices/" + deviceId + "/events"
    ensures forall i :: 0 <= i < |waits| ==> 1000 <= waits[i] <= 1000 * MAXIMUM_BACKOFF_TIME + MAX_JITTER_MS
  {
    ghost var s0 := b.Value();
    var topic := Naming.EventsTopic(deviceId);
    waits, published, disconnects, iterations, gaveUp := [], [], 0, 0, false;
    for i := 0 to numMessages
      invariant b.Valid()
      invariant Trace(b.Value(), waits, published, disconnects, iterations, gaveUp) == Run(s0, topic, ticks[..i])
    {
      var tick := ticks[i];
      assert ticks[..i + 1][..i] == ticks[..i] && ticks[..i + 1][i] == tick;
      DispatchCallbacks(b, tick.callbacks);
      var w := b.Step(tick.jitter);
      if w.GaveUp? {
        iterations, gaveUp := iterations + 1, true;
        assert ticks[..numMessages][..i + 1] == ticks[..i + 1];
        GaveUpIsFinal(s0, topic, ticks[..numMessages], i + 1);
        break;
      }
      if w.Waited? {
        waits := waits + [w.delayMs];
      }
      match tick.attempt {
        case Ok => published := published + [topic];
        case Raised => disconnects := disconnects + 1;   // `client.disconnect()`
      }
      iterations := iterations + 1;
    }
    RunAccounting(s0, topic, ticks[..numMessages]);
    RunReachable(s0, topic, ticks[..numMessages]);
  }
}
