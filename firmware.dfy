/** The firmware's main loop: the site-check verdict and one tick over the
    firmware's globals. The display, the buzzer and the HTTP request are
    abstracted: the animation-complete signal and the request's outcome are
    inputs, and the buzzer is a field that records whether the tone is on. */
module Firmware {
  import opened Timing
  import HttpCodes

  /** What the HTTP client produced: either the request could not be set up,
      or `GET` returned `code` (a status code, or zero or a negative value on
      failure). */
  datatype HttpOutcome = BeginFailed | Response(code: int)

  /** The site is up only when the request was set up and `GET` returned a
      positive code below 500. */
  function CheckSite(outcome: HttpOutcome): (up: bool)
    ensures outcome.BeginFailed? ==> !up
    ensures outcome.Response? ==> (up <==> 0 < outcome.code < 500)
  {
    match outcome
    case BeginFailed => false
    case Response(code) => if code <= 0 then false else code < 500
  }

  /** A snapshot of the firmware's globals, `buzzing` standing for the tone
      on the buzzer pin. */
  datatype LoopGlobals = LoopGlobals(
    beepEnabled: bool,
    toggleRequest: bool,
    lastCheck: U32,
    lastUp: bool,
    wifiMessageDone: bool,
    buzzing: bool)

  /** The tone only sounds while beeping is enabled. */
  predicate Quiet(g: LoopGlobals)
  {
    g.buzzing ==> g.beepEnabled
  }

  /** A site check is due every 30000 ms (the loop writes the literal), by
      wrapping subtraction. */
  function CheckDue(lastCheck: U32, now: U32): (due: bool)
    ensures lastCheck <= now ==> (due <==> now - lastCheck >= 30000)
    ensures now < lastCheck ==> (due <==> Modulus - lastCheck + now >= 30000)
    ensures now == lastCheck ==> !due
  {
    IntervalPassed(lastCheck, CheckInterval, now)
  }

  /** The switch interrupt: it only raises the request flag. */
  function Interrupt(g: LoopGlobals): (r: LoopGlobals)
    ensures r.toggleRequest && r.(toggleRequest := g.toggleRequest) == g
  {
    g.(toggleRequest := true)
  }

  /** Stage 1 of a tick: a pending request is consumed and flips
      `beepEnabled`; turning beeping off stops the tone. */
  function ConsumeToggle(g: LoopGlobals): (r: LoopGlobals)
    ensures !r.toggleRequest
    ensures r.beepEnabled == (g.beepEnabled != g.toggleRequest)
    ensures g.toggleRequest ==> r.buzzing == (g.buzzing && r.beepEnabled)
    ensures !g.toggleRequest ==> r == g
    ensures r.(beepEnabled := g.beepEnabled, toggleRequest := g.toggleRequest, buzzing := g.buzzing) == g
  {
    if !g.toggleRequest then g
    else
      var flipped := g.(toggleRequest := false, beepEnabled := !g.beepEnabled);
      if !flipped.beepEnabled then flipped.(buzzing := false) else flipped
  }

  /** Stage 2: once the boot message has finished scrolling the panel is
      cleared, and the flag is dropped for good. */
  function FinishWifiMessage(g: LoopGlobals, animationDone: bool): (r: LoopGlobals)
    ensures r.wifiMessageDone == (g.wifiMessageDone && !animationDone)
    ensures r.(wifiMessageDone := g.wifiMessageDone) == g
  {
    if g.wifiMessageDone && animationDone then g.(wifiMessageDone := false) else g
  }

  /** Stage 3: when a check is due it is rescheduled to `now`, its verdict
      is recorded, and the tone is stopped on up and started on down if
      beeping is enabled. */
  function ScheduledCheck(g: LoopGlobals, now: U32, outcome: HttpOutcome): (r: LoopGlobals)
    ensures !CheckDue(g.lastCheck, now) ==> r == g
    ensures CheckDue(g.lastCheck, now) ==>
              r.lastCheck == now && r.lastUp == CheckSite(outcome) &&
              r.buzzing == (if CheckSite(outcome) then false else g.beepEnabled || g.buzzing) &&
              r.(lastCheck := g.lastCheck, lastUp := g.lastUp, buzzing := g.buzzing) == g
  {
    if !CheckDue(g.lastCheck, now) then g
    else
      var checked := g.(lastCheck := now);
      if CheckSite(outcome) then checked.(lastUp := true, buzzing := false)
      else checked.(lastUp := false, buzzing := if g.beepEnabled then true else g.buzzing)
  }

  /** One pass of the main loop, in the loop's order: button, display,
      scheduled check. */
  function Step(g: LoopGlobals, now: U32, animationDone: bool, outcome: HttpOutcome): (r: LoopGlobals)
    // a pending toggle is consumed and flips `beepEnabled` exactly once, with no debounce
    ensures !r.toggleRequest
    ensures r.beepEnabled == (g.beepEnabled != g.toggleRequest)
    // the loop only ever clears `wifiMessageDone`, when the display reports done
    ensures r.wifiMessageDone == (g.wifiMessageDone && !animationDone)
    // a due check reschedules to `now` and records its verdict; otherwise neither moves
    ensures CheckDue(g.lastCheck, now) ==> r.lastCheck == now && r.lastUp == CheckSite(outcome)
    ensures !CheckDue(g.lastCheck, now) ==> r.lastCheck == g.lastCheck && r.lastUp == g.lastUp
  {
    ScheduledCheck(FinishWifiMessage(ConsumeToggle(g), animationDone), now, outcome)
  }

  /** The firmware's globals, updated in place by the interrupt and the loop. */
  class Monitor {
    var beepEnabled: bool
    var toggleRequest: bool
    var lastCheck: U32
    var lastUp: bool
    var wifiMessageDone: bool
    var buzzing: bool

    function Snapshot(): LoopGlobals
      reads this
    {
      LoopGlobals(beepEnabled, toggleRequest, lastCheck, lastUp, wifiMessageDone, buzzing)
    }

    /** The globals' initial values, followed by the end of `setup`, which
        on either connect outcome leaves the boot message scrolling with the
        tone off. */
    constructor ()
      ensures Snapshot() == LoopGlobals(true, false, 0, true, true, false)
      ensures Quiet(Snapshot())
    {
      beepEnabled := true;
      toggleRequest := false;
      lastCheck := 0;
      lastUp := true;
      wifiMessageDone := true;
      buzzing := false;
    }

    /** The switch's falling-edge interrupt. */
    method HandleSwitch()
      modifies this
      ensures Snapshot() == Interrupt(old(Snapshot()))
    {
      toggleRequest := true;
    }

    /** One call of `loop` at counter reading `now`. `animationDone` is what
        the display reports when asked whether the boot message has finished
        and `outcome` what the HTTP request would return; `checked` tells
        whether the request was made. */
    method Tick(now: U32, animationDone: bool, outcome: HttpOutcome) returns (checked: bool)
      modifies this
      ensures Snapshot() == Step(old(Snapshot()), now, animationDone, outcome)
      ensures checked <==> CheckDue(old(lastCheck), now)
    {
      if toggleRequest {
        toggleRequest := false;
        beepEnabled := !beepEnabled;
        if !beepEnabled {
          buzzing := false;
        }
      }

      if wifiMessageDone && animationDone {
        wifiMessageDone := false;
      }

      checked := ElapsedTime(lastCheck, now) >= CheckInterval;
      if checked {
        lastCheck := now;
        var up := CheckSite(outcome);
        if up {
          lastUp := true;
          buzzing := false;
        } else {
          lastUp := false;
          if beepEnabled {
            buzzing := true;
          }
        }
      }
    }
  }

  /** Turning beeping off silences the tone in the same tick, whatever the
      scheduled check in that tick decides. */
  lemma MutingSilencesAtOnce(g: LoopGlobals, now: U32, animationDone: bool, outcome: HttpOutcome)
    requires g.toggleRequest && g.beepEnabled
    ensures !Step(g, now, animationDone, outcome).buzzing
  {
  }

  /** The alarm after a check: an up verdict stops the tone; a down verdict
      leaves the tone on exactly when beeping is enabled, judged with the
      value the button stage of the same tick has just produced. */
  lemma AlarmFollowsVerdict(g: LoopGlobals, now: U32, animationDone: bool, outcome: HttpOutcome)
    requires Quiet(g) && CheckDue(g.lastCheck, now)
    ensures CheckSite(outcome) ==> !Step(g, now, animationDone, outcome).buzzing
    ensures !CheckSite(outcome) ==>
              (Step(g, now, animationDone, outcome).buzzing <==> (g.beepEnabled != g.toggleRequest))
  {
  }

  /** No tick makes the tone sound while beeping is disabled. */
  lemma StepKeepsQuiet(g: LoopGlobals, now: U32, animationDone: bool, outcome: HttpOutcome)
    requires Quiet(g)
    ensures Quiet(Step(g, now, animationDone, outcome))
  {
  }

  /** With no pending toggle, no boot message to finish and no check due, a
      tick changes nothing. */
  lemma IdleTickChangesNothing(g: LoopGlobals, now: U32, animationDone: bool, outcome: HttpOutcome)
    requires !g.toggleRequest && !(g.wifiMessageDone && animationDone)
    requires !CheckDue(g.lastCheck, now)
    ensures Step(g, now, animationDone, outcome) == g
  {
  }

  /** After a tick at `now`, the next check is due exactly `CheckInterval`
      ms later: a tick `k` ms on (less than one counter turn) runs a check
      iff `k >= CheckInterval`. In particular a second tick at the same
      reading never checks again. */
  lemma NextCheckAfterInterval(g: LoopGlobals, now: U32, animationDone: bool, outcome: HttpOutcome, k: nat)
    requires CheckDue(g.lastCheck, now) && k < Modulus
    ensures CheckDue(Step(g, now, animationDone, outcome).lastCheck, Reading(now + k)) <==> k >= CheckInterval
  {
    RescheduledInterval(now, CheckInterval, k);
  }

  /** The firmware's verdict and the classification in the tests differ only
      at code 0, which the firmware counts as down and the tests as up. */
  lemma VerdictDiffersFromTestsOnlyAtZero(code: int)
    ensures CheckSite(Response(code)) != HttpCodes.IsSiteUp(code) <==> code == 0
  {
  }

  /** What happens between two calls of `loop`: whether the switch
      interrupt fired (any number of edges coalesce into one raised flag),
      then the tick's inputs. */
  datatype TickInput = TickInput(pressed: bool, now: U32, animationDone: bool, outcome: HttpOutcome)

  /** The globals after running the loop over `inputs`. */
  function Run(g: LoopGlobals, inputs: seq<TickInput>): LoopGlobals
    decreases |inputs|
  {
    if inputs == [] then g
    else
      var i := inputs[0];
      Run(Step(if i.pressed then Interrupt(g) else g, i.now, i.animationDone, i.outcome), inputs[1..])
  }

  /** The number of inputs in which the interrupt fired. */
  function Presses(inputs: seq<TickInput>): nat
  {
    if inputs == [] then 0
    else (if inputs[0].pressed then 1 else 0) + Presses(inputs[1..])
  }

  /** Starting with no request pending, `beepEnabled` ends flipped exactly
      as many times as there were ticks with a press: no press is lost and
      none is filtered out. */
  lemma {:induction false} RunFlipsOncePerPress(g: LoopGlobals, inputs: seq<TickInput>)
    requires !g.toggleRequest
    ensures Run(g, inputs).beepEnabled == (g.beepEnabled != (Presses(inputs) % 2 == 1))
    ensures !Run(g, inputs).toggleRequest
    decreases |inputs|
  {
    if inputs != [] {
      var i := inputs[0];
      var next := Step(if i.pressed then Interrupt(g) else g, i.now, i.animationDone, i.outcome);
      assert next.beepEnabled == (g.beepEnabled != i.pressed);
      RunFlipsOncePerPress(next, inputs[1..]);
    }
  }

  /** Once `wifiMessageDone` has been cleared, no sequence of ticks and
      interrupts sets it again. */
  lemma {:induction false} RunNeverRestoresWifiMessage(g: LoopGlobals, inputs: seq<TickInput>)
    requires !g.wifiMessageDone
    ensures !Run(g, inputs).wifiMessageDone
    decreases |inputs|
  {
    if inputs != [] {
      var i := inputs[0];
      RunNeverRestoresWifiMessage(Step(if i.pressed then Interrupt(g) else g, i.now, i.animationDone, i.outcome), inputs[1..]);
    }
  }

  /** Over any run, the tone never sounds while beeping is disabled. */
  lemma {:induction false} RunKeepsQuiet(g: LoopGlobals, inputs: seq<TickInput>)
    requires Quiet(g)
    ensures Quiet(Run(g, inputs))
    decreases |inputs|
  {
    if inputs != [] {
      var i := inputs[0];
      var g1 := if i.pressed then Interrupt(g) else g;
      StepKeepsQuiet(g1, i.now, i.animationDone, i.outcome);
      RunKeepsQuiet(Step(g1, i.now, i.animationDone, i.outcome), inputs[1..]);
    }
  }
}
