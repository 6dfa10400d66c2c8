# Reconnect backoff and publish loop of the Raspberry Pi MQTT client

This project models the logic of `mqtt-client-gcp.py`, a script that connects
one device to the Google Cloud IoT Core MQTT bridge and publishes synthetic
telemetry. The parts the script writes itself are modelled:

- **Backoff state** (`backoff.dfy`, module `BackoffPolicy`). The two module
  globals `should_backoff` and `minimum_backoff_time` become the fields of the
  class `Backoff`. Its methods `OnConnect`, `OnDisconnect` and `Step` are the
  callbacks `on_connect` and `on_disconnect` and the `if should_backoff:` block
  at the head of each loop iteration. Each method is proved against a pure
  function on the value type `State` (`AfterConnect`, `AfterDisconnect`,
  `BackoffStep`). The lemmas then prove facts about those functions: the
  reset, the wait bounds, the doubling, the strict give-up test, and the
  invariant that the delay is a power of two no larger than 64 and is 1
  whenever the flag is clear.
- **Publish loop** (`publisher.dfy`, module `Publisher`). `Run` specifies the
  `for i in range(0, num_messages)` loop of `main` as a fold over per-iteration
  inputs (`Tick`). `PublishLoop` is that loop written imperatively against a
  `Backoff` object, and it is proved equal to `Run`. Each `Tick` gives:
  - the callbacks that `client.loop()` dispatched;
  - the jitter drawn by `randint(0, 1000)`;
  - whether the `try` block reached `client.publish` or raised.

  The lemmas cover how publishes, disconnects and give-ups add up, the topic of
  every publish, the exact wait sequence when no connect comes in between, and
  the fact that a publish failure never touches the backoff state.

  `Run`, `PublishLoop` and `Backoff.Step` draw the jitter with the intended
  `randint(0, 1000)`. Line 146 as written calls `random.randint` and raises
  at the first backoff wait, which ends the script (see "## Findings"). So
  `BackoffWithoutConnect`, `GivesUpWithinSeven`, `SixWaitsThenGiveUp` and
  `RunReachable` describe the loop as intended, not as written.
- **Names** (`naming.dfy`, module `Naming`). The script builds its client id
  and its two topics with Python's `str.format`. `Format` models `str.format`
  for templates whose only fields are `{}`. `ClientId`, `ConfigTopic` and
  `EventsTopic` are proved equal to the strings they produce.

Delays are counted in whole milliseconds: a sleep of
`minimum_backoff_time + randint(0, 1000) / 1000.0` seconds is
`1000 * minimum_backoff_time + jitter` milliseconds, with `jitter` in `0..1000`,
both ends included.

The give-up test at line 141 is strict, so a connection that keeps failing
waits six times (1, 2, 4, 8, 16 and 32 seconds) and gives up in the seventh
iteration (`Publisher.SixWaitsThenGiveUp`). `randint(0, 1000) / 1000.0` can
be exactly 1.0, so the longest wait is 33 seconds.

## Model

| member | source | states |
|---|---|---|
| `Naming.Format` | mqtt-client-gcp.py:94-95 | for a template whose only braces are `{}` fields, `template.format(*args)` succeeds exactly when there are at least as many arguments as fields (too few is Python's IndexError) |
| `Naming.FormatTemplate` | mqtt-client-gcp.py:94-95 | a template of brace-free literal pieces joined by `{}` fields is well formed, and formatting it with one argument per field puts each argument in its field's place |
| `Naming.ClientId` | mqtt-client-gcp.py:94-95 | the client id is `'projects/' + p + '/locations/' + r + '/registries/raspi/devices/' + d`; the registry part is the literal `raspi` |
| `Naming.ClientIdIgnoresRegistry` | mqtt-client-gcp.py:91-95 | the `registry_id` argument of `get_client` has no effect on the client id |
| `Naming.MainClientId` | mqtt-client-gcp.py:125-126 | `main` passes the project id as the registry, yet the client id it gets names the configured registry `raspi` |
| `Naming.ConfigTopic` | mqtt-client-gcp.py:109-111 | the subscribed topic is `'/devices/' + d + '/config'` |
| `Naming.EventsTopic` | mqtt-client-gcp.py:130 | the publish topic is `'/devices/' + d + '/events'` |
| `Naming.EventsTopicInjective` | mqtt-client-gcp.py:130 | two devices with the same events topic are the same device |
| `Naming.TopicsDiffer` | mqtt-client-gcp.py:109-111 | no events topic equals any config topic, so the device never publishes onto a configuration topic |
| `BackoffPolicy.AfterConnect` | mqtt-client-gcp.py:62-68 | definition of `on_connect` on the globals; its property is `ConnectResets` |
| `BackoffPolicy.AfterDisconnect` | mqtt-client-gcp.py:71-75 | definition of `on_disconnect` on the globals; its property is `DisconnectKeepsDelay` |
| `BackoffPolicy.BackoffStep` | mqtt-client-gcp.py:139-149 | the backoff block never changes the flag, and a step that does not wait leaves both globals unchanged; its bounds are `StepBounds` and `GiveUpIff` |
| `BackoffPolicy.BackoffStepAsWritten` | mqtt-client-gcp.py:146 | the backoff block as written, with the AttributeError of line 146 as `Raises`; compared with the intended step in `AsWrittenRaisesInsteadOfWaiting` |
| `BackoffPolicy.InitialReachable` | mqtt-client-gcp.py:21-25 | the initial globals (flag clear, delay 1) satisfy the invariant: the delay is a power of two at most 64, and a clear flag comes with delay 1 |
| `BackoffPolicy.ClearFlagIsConnected` | mqtt-client-gcp.py:62-68 | in every reachable state the flag is clear exactly when the globals are the connected state (flag clear, delay 1), since only `on_connect` clears the flag and it also resets the delay |
| `BackoffPolicy.ConnectResets` | mqtt-client-gcp.py:62-68 | `on_connect` leaves the flag clear and the delay 1, whatever the state before |
| `BackoffPolicy.DisconnectKeepsDelay` | mqtt-client-gcp.py:71-75 | `on_disconnect` sets the flag, leaves the delay unchanged and keeps the invariant |
| `BackoffPolicy.StepBounds` | mqtt-client-gcp.py:139-149 | a wait lasts from `delay` to `delay + 1` seconds, never under 1 or over 33 seconds, and then exactly doubles the delay; giving up or not backing off changes nothing; the invariant is kept |
| `BackoffPolicy.GiveUpIff` | mqtt-client-gcp.py:139-143 | the step gives up exactly when the flag is set and the delay is strictly above 32; it does nothing exactly when the flag is clear |
| `BackoffPolicy.GiveUpIsStrict` | mqtt-client-gcp.py:141-149 | a delay of exactly 32 is waited on and doubled to 64; a delay of 64 gives up |
| `BackoffPolicy.ReachableDelays` | mqtt-client-gcp.py:141-149 | the delay the script holds is always one of 1, 2, 4, 8, 16, 32, 64 |
| `BackoffPolicy.AsWrittenRaisesInsteadOfWaiting` | mqtt-client-gcp.py:146 | as written, the backoff block raises exactly where the intended step would wait, and agrees with it otherwise |
| `BackoffPolicy.AsWrittenFirstBackoffRaises` | mqtt-client-gcp.py:146 | the first backoff after a disconnect already raises as written, where a one-second wait was intended |
| `BackoffPolicy.Backoff.constructor` | mqtt-client-gcp.py:21-25 | the globals start with the flag clear and the delay 1 |
| `BackoffPolicy.Backoff.OnConnect` | mqtt-client-gcp.py:62-68 | clears the flag and resets the delay to 1 in place |
| `BackoffPolicy.Backoff.OnDisconnect` | mqtt-client-gcp.py:71-75 | sets the flag in place and leaves the delay as it was |
| `BackoffPolicy.Backoff.Step` | mqtt-client-gcp.py:139-149 | does what `BackoffStep` specifies: gives up iff flag set and delay above 32; otherwise a wait of `1000 * delay + jitter` ms and the delay doubled in place; the flag is never changed |
| `Publisher.Dispatch` | mqtt-client-gcp.py:136 | one callback dispatched by `client.loop()`: the flag ends up set exactly when it was `on_disconnect` |
| `Publisher.Deliver` | mqtt-client-gcp.py:136 | the callbacks of one `client.loop()` call in order: the flag ends up set exactly when the last one was `on_disconnect`; an empty run of callbacks changes nothing; the full closed form is `DeliverLast` |
| `Publisher.Iterate` | mqtt-client-gcp.py:134-198 | one iteration: after the `break` it changes nothing; otherwise it counts one iteration begun; it only appends to the waits and the publishes and never lowers the disconnects; the give-up iteration appends nothing |
| `Publisher.Run` | mqtt-client-gcp.py:134-198 | the loop runs at most one iteration per input, and all of them unless it gives up |
| `Publisher.DeliverLast` | mqtt-client-gcp.py:62-75 | after a run of callbacks the globals are the initial ones if the last was a connect; otherwise the flag is set and the delay is 1 if any connect came earlier, else unchanged |
| `Publisher.DeliverReachable` | mqtt-client-gcp.py:62-75 | callbacks keep the invariant |
| `Publisher.RunAccounting` | mqtt-client-gcp.py:134-198 | at most `num_messages` iterations; each one begun publishes once, disconnects once, or gives up; only giving up ends the loop early; the waits plus the give-up never outnumber the iterations; every publish targets the loop's topic |
| `Publisher.GiveUpAddsNothing` | mqtt-client-gcp.py:139-143 | the iteration that gives up adds no wait, no publish and no disconnect, because the `break` comes before the sleep and the `try` block; it counts as begun and leaves the globals as its callbacks set them |
| `Publisher.RunReachable` | mqtt-client-gcp.py:134-149 | the loop keeps the delay a power of two not above 64, and every wait is between 1 and 33 seconds |
| `Publisher.RunIgnoresAttempts` | mqtt-client-gcp.py:151-198 | whether the `try` block raised has no effect on the globals, the waits, the iteration count or the give-up |
| `Publisher.GaveUpIsFinal` | mqtt-client-gcp.py:141-143 | after the `break`, further inputs change nothing |
| `Publisher.BackoffWithoutConnect` | mqtt-client-gcp.py:139-149 | with the flag set and no connect, the i-th iteration waits `delay * 2^i` seconds plus jitter and the delay doubles each time, while it stays within the ceiling |
| `Publisher.GivesUpWithinSeven` | mqtt-client-gcp.py:139-149 | from any reachable state with the flag set and no connect, the loop gives up within seven iterations after at most six waits |
| `Publisher.SixWaitsThenGiveUp` | mqtt-client-gcp.py:139-149 | from flag set and delay 1 with no connect: waits of 1, 2, 4, 8, 16, 32 seconds (plus jitter), gives up in iteration 7 with the delay at 64, after six publishes or disconnects |
| `Publisher.QuietRun` | mqtt-client-gcp.py:134-190 | with the flag clear, no disconnect callback and no failure, every iteration publishes once to the loop's topic and nothing waits |
| `Publisher.TenPublishes` | mqtt-client-gcp.py:130-134 | a failure-free run of `main` publishes exactly ten messages, all to `/devices/raspberrypi/events` |
| `Publisher.DispatchCallbacks` | mqtt-client-gcp.py:136 | `client.loop()` applies the dispatched `on_connect`/`on_disconnect` callbacks to the globals in order |
| `Publisher.PublishLoop` | mqtt-client-gcp.py:130-198 | the loop equals `Run`; it runs at most `num_messages` iterations; with no give-up, every iteration publishes or disconnects; every publish goes to `'/devices/' + device_id + '/events'`; every wait is 1 to 33 seconds |

## Findings

| source | as written | input that shows it | evidently intended | confidence | as-written member | corrected member |
|---|---|---|---|---|---|---|
| mqtt-client-gcp.py:146 | `random.randint(0, 1000)`, while line 13 binds `random` to the function `random.random`; the attribute lookup raises AttributeError outside the `try` of line 151, so `main` ends at the first backoff wait | any iteration with `should_backoff` true and `minimum_backoff_time <= 32`, e.g. the first one after a disconnect (flag set, delay 1) | sleep `minimum_backoff_time + randint(0, 1000) / 1000.0` seconds, then double the delay | high; not executed | `BackoffPolicy.BackoffStepAsWritten` with `BackoffPolicy.AsWrittenFirstBackoffRaises` | `BackoffPolicy.BackoffStep` with `BackoffPolicy.StepBounds` |

## Left out

- `create_jwt` (lines 39-52): it reads the key file and the wall clock and signs through the `jwt` library. The credential is outside the model.
- `get_client` beyond its names: building the paho client, `username_pw_set`, `tls_set`, registering callbacks, `connect` and `subscribe` are calls into the MQTT and TLS libraries. Only the client id and the subscribed topic are modelled. The second `client.connect` of line 128 is visible only through the callbacks that later `loop()` calls dispatch.
- `client.loop()`, `client.publish` and `client.disconnect()`: these are library calls. `loop()` is modelled as the callbacks it dispatches. `publish` is recorded by its topic. `disconnect()` from the `except` branch is only counted. Any `on_disconnect` that follows it arrives as a callback in a later iteration's input. The QoS and the payload bytes are not modelled.
- `time.sleep`: a backoff sleep is the returned delay in milliseconds. The fixed `time.sleep(3)` after each publish is not modelled.
- Float arithmetic of the delay: `minimum_backoff_time + randint(0, 1000) / 1000.0` is modelled exactly in milliseconds, without float rounding.
- `timestamp()`, `print`, `error_str`, `on_log`, `on_message`, `on_publish`: clock and presentational output only.
- The synthetic sample (lines 154-183) is left out: `uniform`, `round` and the fixed latitude and longitude are floating point, and `json.dumps` is a library call. The sample also takes `node` from `randint(1, 10)` and fixes `gateway` at 2.
- Publisher.Attempt tells only whether the `try` block raised before `client.publish` returned. A raise after the publish (in the print or `time.sleep(3)` that follow it) would mean one publish and one disconnect in the same iteration. The model does not represent that case.
- Naming.Format requires every brace of the template to belong to a `{}` field. Escaped braces (`{{`, `}}`), numbered or named fields, format specs, and the ValueError for a stray brace are not modelled. The script's three templates use none of them.
- cloud-function/pubsub-to-bigquery.js is not part of this model. It only forwards a Pub/Sub message to a BigQuery insert through cloud SDKs.
- No reconnect: after the `client.connect` of line 128, `main` never connects again; the comment at line 145 says "wait and connect again", but no call follows the sleep. The model lets an `on_connect` arrive in any iteration's callbacks, which in the script could only come from the library itself. So "a connection that keeps failing" is, in the script, a connection that no code of `main` re-establishes.
- The commented-out `While True` variant of the loop is not modelled: the loop runs `num_messages` iterations, as written.
