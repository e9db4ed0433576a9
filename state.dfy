/** The monitor's state record and the scheduling and debounce decisions
    taken over it: whether to check the site, whether to try reconnecting,
    whether a button press is outside the debounce window, and the debounced
    mute toggle. */
module MonitorState {
  import opened Timing

  datatype State = State(
    isMuted: bool,
    siteIsUp: bool,
    wifiConnected: bool,
    messageScrolling: bool,
    lastCheckTime: U32,
    lastReconnect: U32,
    lastButtonPress: U32)

  /** The record as default-initialised. */
  function DefaultState(): (s: State)
    ensures !s.isMuted && s.siteIsUp
    ensures !s.wifiConnected && !s.messageScrolling
    ensures s.lastCheckTime == 0 && s.lastReconnect == 0 && s.lastButtonPress == 0
  {
    State(false, true, false, false, 0, 0, 0)
  }

  /** A site check is due: connected, and a check interval has passed since
      the last one (wrapping subtraction). */
  function ShouldCheckSite(s: State, now: U32): (due: bool)
    ensures !s.wifiConnected ==> !due
    ensures s.wifiConnected ==> (due <==> IntervalPassed(s.lastCheckTime, CheckInterval, now))
  {
    s.wifiConnected && ElapsedTime(s.lastCheckTime, now) >= CheckInterval
  }

  /** A reconnect attempt is due: disconnected, and a reconnect interval has
      passed since the last attempt (wrapping subtraction). */
  function ShouldAttemptReconnect(s: State, now: U32): (due: bool)
    ensures s.wifiConnected ==> !due
    ensures !s.wifiConnected ==> (due <==> IntervalPassed(s.lastReconnect, ReconnectInterval, now))
  {
    !s.wifiConnected && ElapsedTime(s.lastReconnect, now) >= ReconnectInterval
  }

  /** A press at `now` is outside the debounce window of the last accepted one. */
  function IsDebounced(s: State, now: U32): (accepted: bool)
    ensures accepted <==> IntervalPassed(s.lastButtonPress, DebounceDelay, now)
    ensures now == s.lastButtonPress ==> !accepted
  {
    ElapsedTime(s.lastButtonPress, now) >= DebounceDelay
  }

  /** The state after a button press at `now`: inside the debounce window the
      press is dropped and nothing changes; otherwise the mute flag flips and
      the press time is recorded. */
  function ToggleMuted(s: State, now: U32): (r: State)
    ensures r.isMuted != s.isMuted <==> IsDebounced(s, now)
    ensures r.lastButtonPress == (if IsDebounced(s, now) then now else s.lastButtonPress)
    // no other field changes
    ensures r.(isMuted := s.isMuted, lastButtonPress := s.lastButtonPress) == s
  {
    if !IsDebounced(s, now) then s
    else s.(lastButtonPress := now, isMuted := !s.isMuted)
  }

  /** The test program's globals: the state record and the pending mute
      request flag. */
  class Globals {
    var state: State
    var muteToggleRequest: bool

    constructor ()
      ensures state == DefaultState() && !muteToggleRequest
    {
      state := DefaultState();
      muteToggleRequest := false;
    }

    /** Restores the default record and clears the pending request. */
    method ResetState()
      modifies this
      ensures state == DefaultState() && !muteToggleRequest
    {
      state := DefaultState();
      muteToggleRequest := false;
    }

    /** Applies a button press at `now` to the global record in place. */
    method ToggleMute(now: U32)
      modifies this
      ensures state == ToggleMuted(old(state), now)
      ensures muteToggleRequest == old(muteToggleRequest)
    {
      if !IsDebounced(state, now) {
        return;
      }
      state := state.(lastButtonPress := now);
      state := state.(isMuted := !state.isMuted);
    }
  }

  /** With the last check read at real time `t0`, a check is due `d` ms later
      (less than one counter turn) exactly when connected and `d` reaches the
      check interval, however the counter wrapped. */
  lemma ShouldCheckSiteRealTime(s: State, t0: nat, d: nat)
    requires s.lastCheckTime == Reading(t0) && d < Modulus
    ensures ShouldCheckSite(s, Reading(t0 + d)) <==> s.wifiConnected && d >= CheckInterval
  {
    ElapsedTimeIsRealElapsed(t0, d);
  }

  /** With the last attempt read at real time `t0`, a reconnect is due `d` ms
      later exactly when disconnected and `d` reaches the reconnect interval. */
  lemma ShouldAttemptReconnectRealTime(s: State, t0: nat, d: nat)
    requires s.lastReconnect == Reading(t0) && d < Modulus
    ensures ShouldAttemptReconnect(s, Reading(t0 + d)) <==> !s.wifiConnected && d >= ReconnectInterval
  {
    ElapsedTimeIsRealElapsed(t0, d);
  }

  /** Site checks and reconnect attempts are never due together. */
  lemma CheckAndReconnectExclusive(s: State, now: U32)
    ensures !(ShouldCheckSite(s, now) && ShouldAttemptReconnect(s, now))
    ensures ShouldCheckSite(s, now) ==> s.wifiConnected
    ensures ShouldAttemptReconnect(s, now) ==> !s.wifiConnected
  {
  }

  /** A press `k` ms after the last accepted one (less than one counter turn)
      is debounced exactly when `k` reaches the debounce delay: rejected at
      `DebounceDelay - 1`, accepted from `DebounceDelay` on. */
  lemma DebounceWindow(s: State, k: nat)
    requires k < Modulus
    ensures IsDebounced(s, Reading(s.lastButtonPress + k)) <==> k >= DebounceDelay
  {
    ElapsedTimeIsRealElapsed(s.lastButtonPress, k);
  }

  /** Two presses, the first accepted at real time `t1` and the second `d` ms
      later: a gap of at least the debounce delay gives two flips and restores
      the mute flag; a shorter gap is a bounce and leaves one flip. */
  lemma TwoPresses(s: State, t1: nat, d: nat)
    requires IsDebounced(s, Reading(t1)) && d < Modulus
    ensures ToggleMuted(ToggleMuted(s, Reading(t1)), Reading(t1 + d)).isMuted
            == (if d >= DebounceDelay then s.isMuted else !s.isMuted)
  {
    var first := ToggleMuted(s, Reading(t1));
    assert first.lastButtonPress == Reading(t1);
    ElapsedTimeIsRealElapsed(t1, d);
    assert IsDebounced(first, Reading(t1 + d)) <==> d >= DebounceDelay;
  }

  /** The cases the state tests pin down, at the test's timestamps. */
  lemma StateExamples(s: State)
    ensures s.wifiConnected && s.lastCheckTime == 0 ==>
              !ShouldCheckSite(s, CheckInterval - 1) && ShouldCheckSite(s, CheckInterval)
    ensures s.wifiConnected && s.lastCheckTime == 0xFFFFFFFF - 10000 ==> ShouldCheckSite(s, 20000)
    ensures !s.wifiConnected && s.lastReconnect == 0 ==>
              !ShouldAttemptReconnect(s, ReconnectInterval - 1) && ShouldAttemptReconnect(s, ReconnectInterval)
    ensures s.lastButtonPress == 100 ==> ToggleMuted(s, 100 + DebounceDelay - 1) == s
    ensures s.lastButtonPress == 0 ==> ToggleMuted(s, 5000).lastButtonPress == 5000
  {
  }
}
