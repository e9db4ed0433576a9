# LED-Panel-ESP12F site monitor: scheduling, debounce and classification

This project models the logic of an ESP8266 site monitor. The monitor polls
a URL every 30 seconds, shows "UP" or "Error!!!" on a scrolling LED panel,
sounds a buzzer while the site is down, and lets a push button turn the
buzzer on and off. The logic lives in two places, and the model keeps them
apart:

- The unit-test programs hold standalone copies of the rules:
  - `Timing` covers wraparound-safe elapsed time over the 32-bit
    `millis()` counter, interval and timeout checks, and the interval
    constants.
  - `MonitorState` covers the monitor's state record and the site-check,
    reconnect and debounce decisions. It also covers the debounced mute
    toggle and the reset of the test globals.
  - `HttpCodes` covers the up/down verdict and the status label of an HTTP
    result. The labels follow the status-code classes of section 15 of
    RFC 9110.
- The firmware's own loop is in `Firmware`:
  - the verdict at the end of `checkSite`;
  - the switch interrupt;
  - one `loop` tick over the globals `toggleRequest`, `beepEnabled`,
    `lastCheck`, `lastUp` and `wifiMessageDone`.

  The firmware has no debounce and no reconnect logic, and the model gives
  it none.

The counter is an integer type `U32` in `[0, 2^32)`. Subtraction is reduced
modulo 2^32, which is what C's unsigned subtraction does. The wrapping
lemmas use real, unbounded time: a counter reading at real time `t` is
`Reading(t) = t % 2^32`. They show that every elapsed-time decision made on
wrapped readings equals the same decision made on real time, provided less
than one counter turn (about 49.7 days) has passed.

The firmware's globals are a class (`Firmware.Monitor`) whose `Tick` method
updates them step by step, like `loop`. Its contract ties the new state to
`Step`, a function built from the loop's three stages. The lemmas state the
loop's properties about `Step` and about `Run`, which is `Step` folded over
a sequence of ticks. The test program's globals are the class
`MonitorState.Globals`, and its `ToggleMute` method is specified by the
function `ToggleMuted`.

The firmware and the test copy disagree about HTTP code 0. The firmware's
`checkSite` treats `code <= 0` as down (src/main.cpp:41). The test's
`isSiteUp` treats only negative codes as down, so 0 is up, and a test asserts
this. Each is modelled as written. `Firmware.VerdictDiffersFromTestsOnlyAtZero`
proves that 0 is the only code on which they differ.

## Model

| member | source | states |
|---|---|---|
| `Timing.ElapsedTime` | test/test_timing/test_timing.cpp:27-33 | the unsigned difference is `current - start` when no wrap occurred and `2^32 - start + current` when it did; adding it to `start` (mod 2^32) gives back `current` |
| `Timing.IntervalPassed` | test/test_timing/test_timing.cpp:35-40 | passed exactly when `now - lastTime` (no wrap) or `2^32 - lastTime + now` (wrap) reaches the interval; on real time it is characterised by `IntervalPassedRealTime` |
| `Timing.HasTimedOut` | test/test_timing/test_timing.cpp:42-47 | the same `>=` threshold on the elapsed time since `startTime`, in the no-wrap and wrap cases; on real time it is characterised by `HasTimedOutRealTime` |
| `Timing.ElapsedTimeIsRealElapsed` | test/test_timing/test_timing.cpp:27-33 | for a start read at any real time and a true elapsed time `d < 2^32`, the elapsed time computed from the two wrapped readings is exactly `d` |
| `Timing.ElapsedTimeUnique` | test/test_timing/test_timing.cpp:31-33 | any `d < 2^32` that takes `start` to `current` modulo 2^32 equals the elapsed time |
| `Timing.IntervalPassedRealTime` | test/test_timing/test_timing.cpp:35-40 | on wrapped readings, the interval counts as passed exactly when the true elapsed time is at least the interval (false below it, true at it and above) |
| `Timing.HasTimedOutRealTime` | test/test_timing/test_timing.cpp:42-47 | on wrapped readings, the timeout has fired exactly when the true elapsed time is at least the timeout: not before it, and at it and at every later reading within the counter turn |
| `Timing.TimeoutAtOffsetStart` | test/test_timing/test_timing.cpp:42-47 | a timeout started at any `start` has fired at `start + timeout` (wrapping), and has not fired one millisecond earlier |
| `Timing.RescheduledInterval` | test/test_timing/test_timing.cpp:169-192 | once the last check is set to `now`, a reading `k` ms later passes the interval exactly when `k >= interval` (so it has not passed at half an interval and has passed at `now + interval`) |
| `Timing.TimingExamples` | test/test_timing/test_timing.cpp:49-214 | the constants' values (30000, 200, 60000, 15000, reconnect longer than check) and every tested case whose expectation agrees with unsigned subtraction (all but the two overflow tests), including the check across the wrap (`0xFFFFFFFF - 15000` to `15001`) and the exceeded timeout (`WIFI_TIMEOUT + 5000`) |
| `Timing.OverflowTestsAsWritten` | test/test_timing/test_timing.cpp:65-86 | the two overflow tests' inputs give 201 and 30001, not the 200 and 30000 they assert |
| `Timing.OverflowTestsCorrected` | test/test_timing/test_timing.cpp:65-86 | with the starts placed 100 and 10000 ms before the wrap, the elapsed times are 200 and 30000 |
| `MonitorState.ToggleMuted` | test/test_state/test_state.cpp:73-79 | a press flips `isMuted` exactly when it is debounced; an accepted press records `now` as the last press; a rejected press changes nothing; no other field ever changes |
| `MonitorState.DefaultState` | test/test_state/test_state.cpp:35-43 | the default record is unmuted, site up, WiFi disconnected, not scrolling, with all timestamps 0 |
| `MonitorState.ShouldCheckSite` | test/test_state/test_state.cpp:61-63 | never due while disconnected; while connected, due exactly when the check interval has passed since `lastCheckTime`; on real time it is characterised by `ShouldCheckSiteRealTime` |
| `MonitorState.ShouldAttemptReconnect` | test/test_state/test_state.cpp:65-67 | never due while connected; while disconnected, due exactly when the reconnect interval has passed since `lastReconnect`; on real time it is characterised by `ShouldAttemptReconnectRealTime` |
| `MonitorState.IsDebounced` | test/test_state/test_state.cpp:69-71 | a press is accepted exactly when the debounce delay has passed since the last accepted press, so a press at that same reading is rejected; on real time it is characterised by `DebounceWindow` |
| `MonitorState.Globals.ToggleMute` | test/test_state/test_state.cpp:73-79 | the in-place toggle leaves the global record equal to `ToggleMuted` of the old record, and the request flag untouched |
| `MonitorState.Globals.ResetState` | test/test_state/test_state.cpp:52-57 | the record becomes the default record and the pending mute request is cleared |
| `MonitorState.Globals.constructor` | test/test_state/test_state.cpp:35-47 | the globals start as the default record with no pending request |
| `MonitorState.ShouldCheckSiteRealTime` | test/test_state/test_state.cpp:61-63 | a site check is due exactly when WiFi is connected and the true time since the last check is at least 30000 ms, across counter wraps |
| `MonitorState.ShouldAttemptReconnectRealTime` | test/test_state/test_state.cpp:65-67 | a reconnect is due exactly when WiFi is disconnected and the true time since the last attempt is at least 60000 ms |
| `MonitorState.CheckAndReconnectExclusive` | test/test_state/test_state.cpp:61-67 | a site check and a reconnect attempt are never due at the same time |
| `MonitorState.DebounceWindow` | test/test_state/test_state.cpp:69-71 | a press `k` ms after the last accepted one is debounced exactly when `k >= 200`: rejected at 199, accepted at 200 and later |
| `MonitorState.TwoPresses` | test/test_state/test_state.cpp:182-192 | after an accepted press, a second press `d` ms later restores the original mute flag when `d >= 200`, and is dropped as a bounce when `d < 200` |
| `MonitorState.StateExamples` | test/test_state/test_state.cpp:93-209 | the tested site-check, reconnect and toggle cases at their timestamps, including the check across the wrap and the rejected toggle that leaves the record unchanged |
| `HttpCodes.IsSiteUp` | test/test_http_codes/test_http_codes.cpp:27-32 | negative codes are down, every code from 0 to 499 is up, and every code from 500 on is down |
| `HttpCodes.GetStatusDescription` | test/test_http_codes/test_http_codes.cpp:37-44 | each of the six labels is returned exactly on its range (<0, 0-199, 200-299, 300-399, 400-499, 500 and above), so the function is total and the first matching range wins |
| `HttpCodes.LabelFollowsStatusClass` | test/test_http_codes/test_http_codes.cpp:17-26 | for codes 100-599, the label is the name of the code's RFC 9110 class (its hundreds digit) |
| `HttpCodes.SiteUpIffNotErrorLabel` | test/test_http_codes/test_http_codes.cpp:27-44 | the site is up exactly when the label is neither "Connection Error" nor "Server Error" |
| `HttpCodes.HttpCodeExamples` | test/test_http_codes/test_http_codes.cpp:46-206 | the tested boundaries (-1 and -100 down; 0, 100, 299 and 499 up; 500 and 599 down) and the tested labels for -1, 200, 301, 404 and 500 |
| `Firmware.CheckSite` | src/main.cpp:35-44 | a failed `begin` is down; a `GET` result is up exactly when it is positive and below 500 |
| `Firmware.VerdictDiffersFromTestsOnlyAtZero` | src/main.cpp:41-44 | the firmware's verdict and the tests' `isSiteUp` differ on exactly one code, 0 |
| `Firmware.Interrupt` | src/main.cpp:54-57 | the interrupt raises the request flag and changes nothing else |
| `Firmware.Monitor.HandleSwitch` | src/main.cpp:54-57 | the in-place interrupt handler has the effect of `Interrupt` |
| `Firmware.ConsumeToggle` | src/main.cpp:97-104 | a pending request is cleared and flips `beepEnabled`; if the flip turns beeping off the tone stops; without a request nothing changes |
| `Firmware.FinishWifiMessage` | src/main.cpp:110-115 | `wifiMessageDone` is cleared when the display reports the animation complete; no other global changes |
| `Firmware.ScheduledCheck` | src/main.cpp:117-142 | with no check due nothing changes; when one is due, `lastCheck` becomes `now` and `lastUp` the verdict, an up verdict stops the tone, and a down verdict starts it if beeping is enabled |
| `Firmware.CheckDue` | src/main.cpp:117-118 | a check is due exactly when `now - lastCheck` (no wrap) or `2^32 - lastCheck + now` (wrap) reaches 30000, and never at the reading of the last check |
| `Firmware.Step` | src/main.cpp:95-143 | every tick clears the request flag and flips `beepEnabled` exactly when a request was pending, with no debounce; `wifiMessageDone` survives only if it held and the display did not report done, so the loop never sets it; a due check sets `lastCheck` to `now` and records the verdict in `lastUp`, otherwise both keep their values |
| `Firmware.Monitor.constructor` | src/main.cpp:21-26 | the globals' initial values (beeping on, no request, `lastCheck` 0, last verdict up), plus `wifiMessageDone` set as both branches of `setup` leave it, with the tone off |
| `Firmware.Monitor.Tick` | src/main.cpp:95-143 | one in-place `loop` pass leaves the globals equal to `Step` of the old globals, and makes the request exactly when a check is due |
| `Firmware.MutingSilencesAtOnce` | src/main.cpp:98-104 | a tick that turns beeping off ends with the tone off, whatever the same tick's check decides |
| `Firmware.AlarmFollowsVerdict` | src/main.cpp:126-141 | after a check, an up verdict silences the tone; after a down verdict the tone is on exactly when beeping is enabled, using the value the same tick's button handling produced |
| `Firmware.StepKeepsQuiet` | src/main.cpp:95-143 | if the tone sounds only while beeping is enabled before a tick, that still holds after it |
| `Firmware.IdleTickChangesNothing` | src/main.cpp:95-143 | a tick with no pending request, no boot message finishing and no check due leaves every global unchanged |
| `Firmware.NextCheckAfterInterval` | src/main.cpp:117-120 | after a tick that checked at `now`, a tick `k` ms later checks again exactly when `k >= 30000`, so a repeated tick at the same reading does not check |
| `Firmware.RunFlipsOncePerPress` | src/main.cpp:98-101 | over any sequence of ticks with no request pending at the start, `beepEnabled` flips once per tick that follows an interrupt, and no request is left pending |
| `Firmware.RunNeverRestoresWifiMessage` | src/main.cpp:110-115 | once `wifiMessageDone` is cleared, no sequence of ticks and interrupts sets it again |
| `Firmware.RunKeepsQuiet` | src/main.cpp:95-143 | over any sequence of ticks and interrupts, the tone never sounds while beeping is disabled |

## Findings

| source | as written | input that shows it | evidently intended | confidence | as-written member | corrected member |
|---|---|---|---|---|---|---|
| test/test_timing/test_timing.cpp:65-86 | the overflow tests start at `0xFFFFFFFF - 100` and `0xFFFFFFFF - 10000` but expect 200 and 30000 | `elapsedTime(0xFFFFFFFF - 100, 100)` is 201 and `elapsedTime(0xFFFFFFFF - 10000, 20000)` is 30001, because `0xFFFFFFFF - 100` is 101 ms before the wrap | starts 100 and 10000 ms before the wrap (`0x1_0000_0000 - 100`, `0x1_0000_0000 - 10000`), as the comments say, giving 200 and 30000 | high for the arithmetic; not executed | `Timing.OverflowTestsAsWritten` | `Timing.OverflowTestsCorrected` |

`elapsedTime` itself is correct; the test data is off by one. The model's
`ElapsedTime` is the source's function, and `Timing.ElapsedTimeIsRealElapsed`
proves the property the tests meant to check.

## Left out

- The HTTP request (`HTTPClient`, `WiFiClientSecure`, its TLS setting and its 5000 ms timeout). The model takes only the outcome as input: either `begin` failed or `GET` returned a code.
- The LED panel (`displayText`, `displayReset`, `displayClear`, `showMessage`, the "PING", "UP" and "Error!!!" messages). `loop` calls `displayAnimate` twice. The first call (src/main.cpp:107-108) only resets the display, so it is left out. The second result is the `animationDone` input of `Tick`.
- `tone`, `noTone`, `pinMode` and the pins. The buzzer is the field `buzzing` (tone on or off), and the 3-second boot error tone nets out to off.
- The `volatile` qualifier and the interrupt's timing relative to a tick. The model lets the interrupt run only between ticks (`HandleSwitch`, `TickInput.pressed`). Several edges between two ticks collapse into one raised flag.
- `setup`'s blocking WiFi connect loop, its delays and the "Wifi..." / "Wifi ok" / "Wifi error" messages. Only its effect on the globals is modelled: `wifiMessageDone` is set and the tone is off, in `Firmware.Monitor.constructor`. The 15 s connect bound is the `HasTimedOut` rule in `Timing`.
- `Firmware.Monitor.Tick`: `loop` reads `millis()` twice (src/main.cpp:118 and 120), and the model uses one reading `now` for both. A counter tick between the two reads would move `lastCheck` by a millisecond in the source.
- The test programs' mock clock, the Unity runner (`setUp`, `RUN_TEST`), the `msgBuffer` size checks (test/test_state/test_state.cpp:224-231), and the parts of `resetState` that reset the mock clock and clear `msgBuffer`. These are test scaffolding and C memory layout.
- WiFi reconnection and loss detection. Neither program attempts a reconnect, and no logic function of either program changes `wifiConnected`. The only reconnect logic is the `shouldAttemptReconnect` predicate in the state test, modelled as `MonitorState.ShouldAttemptReconnect`. The firmware only connects once, in `setup`.
- `messageScrolling`, `siteIsUp`, `wifiConnected`, `lastCheckTime` and `lastReconnect` are fields of the test program's record that no logic function of the test program updates. The tests set them directly as fixtures (for example test/test_state/test_state.cpp:96-97, 135 and 218), which the lemmas cover by quantifying over every `State`.
- HTTP codes are unbounded integers. The source's `int` is 32-bit, which changes none of the range splits.
