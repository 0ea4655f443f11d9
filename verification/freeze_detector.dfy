/**
 The animation-frame freeze detector: a loop that measures the delay
 between frames and reports a delay strictly between 250 ms and 650 ms,
 until its teardown stops it.
 */
module FreezeDetector {
  import opened Js

  const MinFreeze: real := 250.0

  const MaxFreeze: real := 650.0

  const Label: string := "ai_screenshot_detected"

  /** The closure state: the previous frame time, the `active` flag,
      whether a frame callback is still queued, and the callback the
      detector was created with. */
  datatype Detector = Detector(last: real, active: bool, scheduled: bool, callback: Value)

  datatype Event = Frame(now: real) | Teardown

  /** A callback invocation: the report, or the TypeError of calling a
      value that is not a function. */
  datatype Call = Report(name: string) | NotCallable

  /** The detector after an event, whether `check` called the callback,
      and that call. */
  datatype Reaction = Reaction(detector: Detector, fired: bool, calls: seq<Call>)

  predicate InWindow(delta: real) {
    MinFreeze < delta < MaxFreeze
  }

  /** `createAIScreenshotDetector(callback)` at time `now`: armed, one frame
      queued. */
  function Create(now: real, callback: Value): (d: Detector)
    ensures d.active && d.scheduled && d.last == now && d.callback == callback
  {
    Detector(now, true, true, callback)
  }

  /** `detectAIScreenshot(onDetect)`: without `window` or
      `requestAnimationFrame` no detector exists and the teardown is a
      no-op. */
  function Start(hasAnimationFrames: bool, now: real, onDetect: Value): (d: Option<Detector>)
    ensures d.Some? <==> hasAnimationFrames
    ensures d.Some? ==> d.value == Create(now, onDetect)
  {
    if hasAnimationFrames then Some(Create(now, onDetect)) else None
  }

  /** One event: a frame runs `check` only while a callback is queued. The
      callback is called without a guard, so a non-function throws before
      `last` is updated and before the next frame is requested. */
  function Step(d: Detector, e: Event): (r: Reaction)
    ensures r.fired <==> e.Frame? && d.scheduled && d.active && InWindow(e.now - d.last)
    ensures r.calls == (if !r.fired then [] else if d.callback.Fn? then [Report(Label)] else [NotCallable])
    ensures r.detector.callback == d.callback
    ensures e.Frame? && d.scheduled && d.active && !(r.fired && !d.callback.Fn?) ==>
              r.detector.last == e.now && r.detector.scheduled && r.detector.active
    ensures r.fired && !d.callback.Fn? ==> !r.detector.scheduled && r.detector.last == d.last
    ensures e.Frame? && !d.scheduled ==> r.detector == d
    ensures !d.active ==> !r.detector.active
    ensures !d.active && e.Frame? ==> !r.detector.scheduled
    ensures e.Teardown? ==> r.detector == d.(active := false)
  {
    match e
    case Teardown => Reaction(d.(active := false), false, [])
    case Frame(now) =>
      if !d.scheduled then Reaction(d, false, [])
      else if !d.active then Reaction(d.(scheduled := false), false, [])
      else if !InWindow(now - d.last) then Reaction(d.(last := now), false, [])
      else if d.callback.Fn? then Reaction(d.(last := now), true, [Report(Label)])
      else Reaction(d.(scheduled := false), true, [NotCallable])
  }

  function Run(d: Detector, events: seq<Event>): Detector
    decreases |events|
  {
    if events == [] then d else Run(Step(d, events[0]).detector, events[1..])
  }

  /** The number of reports over a sequence of events. */
  function Reports(d: Detector, events: seq<Event>): nat
    decreases |events|
  {
    if events == [] then 0
    else (if Step(d, events[0]).fired then 1 else 0) + Reports(Step(d, events[0]).detector, events[1..])
  }

  /** Every callback invocation over a sequence of events, in order. */
  function Calls(d: Detector, events: seq<Event>): seq<Call>
    decreases |events|
  {
    if events == [] then []
    else Step(d, events[0]).calls + Calls(Step(d, events[0]).detector, events[1..])
  }

  /** The number of reports through the wrapper. */
  function WrapperReports(hasAnimationFrames: bool, now: real, onDetect: Value, events: seq<Event>): nat {
    match Start(hasAnimationFrames, now, onDetect)
    case None => 0
    case Some(d) => Reports(d, events)
  }

  /** Both bounds are strict. */
  lemma WindowIsOpen(d: Detector)
    requires d.active && d.scheduled
    ensures !Step(d, Frame(d.last + 250.0)).fired
    ensures !Step(d, Frame(d.last + 650.0)).fired
    ensures Step(d, Frame(d.last + 250.5)).fired
    ensures Step(d, Frame(d.last + 649.5)).fired
  {
  }

  /** After teardown nothing is reported, whatever frames still arrive. */
  lemma {:induction false} InactiveIsSilent(d: Detector, events: seq<Event>)
    requires !d.active
    ensures Reports(d, events) == 0
    ensures !Run(d, events).active
    decreases |events|
  {
    if events != [] {
      InactiveIsSilent(Step(d, events[0]).detector, events[1..]);
    }
  }

  /** After teardown the next frame ends the loop: no callback is queued
      any more, so no later frame runs `check`. */
  lemma {:induction false} TeardownStopsLoop(d: Detector, events: seq<Event>)
    requires !d.active
    requires exists i :: 0 <= i < |events| && events[i].Frame?
    ensures !Run(d, events).scheduled
    decreases |events|
  {
    var d' := Step(d, events[0]).detector;
    if events[0].Frame? {
      UnscheduledStays(d', events[1..]);
    } else {
      var i :| 0 <= i < |events| && events[i].Frame?;
      assert events[1..][i - 1].Frame?;
      TeardownStopsLoop(d', events[1..]);
    }
  }

  lemma {:induction false} UnscheduledStays(d: Detector, events: seq<Event>)
    requires !d.scheduled
    ensures !Run(d, events).scheduled
    ensures Reports(d, events) == 0
    decreases |events|
  {
    if events != [] {
      UnscheduledStays(Step(d, events[0]).detector, events[1..]);
    }
  }

  /** Without animation frames the wrapper never reports. */
  lemma NoFramesNoReports(now: real, onDetect: Value, events: seq<Event>)
    ensures WrapperReports(false, now, onDetect, events) == 0
  {
  }

  /** Reports never outnumber frames. */
  lemma {:induction false} ReportsBounded(d: Detector, events: seq<Event>)
    ensures Reports(d, events) <= |events|
    decreases |events|
  {
    if events != [] {
      ReportsBounded(Step(d, events[0]).detector, events[1..]);
    }
  }

  /** With a function callback, every report reaches it labelled
      `ai_screenshot_detected`, one call per report. */
  lemma {:induction false} CallsAreLabelled(d: Detector, events: seq<Event>)
    requires d.callback.Fn?
    ensures |Calls(d, events)| == Reports(d, events)
    ensures forall k :: 0 <= k < |Calls(d, events)| ==> Calls(d, events)[k] == Report(Label)
    decreases |events|
  {
    if events != [] {
      CallsAreLabelled(Step(d, events[0]).detector, events[1..]);
    }
  }

  /** Without a function callback the first freeze throws and ends the
      loop: at most one report, and no frame is queued after it. */
  lemma {:induction false} MissingCallbackStopsLoop(d: Detector, events: seq<Event>)
    requires !d.callback.Fn?
    ensures Reports(d, events) <= 1
    ensures Reports(d, events) == 1 ==> !Run(d, events).scheduled
    decreases |events|
  {
    if events != [] {
      var r := Step(d, events[0]);
      if r.fired {
        UnscheduledStays(r.detector, events[1..]);
      } else {
        MissingCallbackStopsLoop(r.detector, events[1..]);
      }
    }
  }
}
