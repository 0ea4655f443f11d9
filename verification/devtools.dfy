/**
 The window-size devtools probe and the hook that samples it: an
 edge-triggered watcher that reports only a closed-to-open transition.
 */
module Devtools {
  import opened Js

  /** The four window dimensions the probe reads, in CSS pixels. */
  datatype Window = Window(outerWidth: nat, innerWidth: nat, outerHeight: nat, innerHeight: nat)

  const Threshold: int := 160

  const DefaultPollInterval: nat := 1000

  /** `isDevtoolsOpen()`; `None` is a host without `window`. */
  function IsDevtoolsOpen(w: Option<Window>): (open: bool)
    ensures w.None? ==> !open
    ensures w.Some? ==> (open <==> w.value.outerWidth > w.value.innerWidth + 160
                                   || w.value.outerHeight > w.value.innerHeight + 160)
  {
    match w
    case None => false
    case Some(win) =>
      var widthDiff := win.outerWidth - win.innerWidth;
      var heightDiff := win.outerHeight - win.innerHeight;
      widthDiff > Threshold || heightDiff > Threshold
  }

  /** Growing either difference never turns an open reading into a closed
      one. */
  lemma ProbeMonotone(a: Window, b: Window)
    requires a.outerWidth - a.innerWidth <= b.outerWidth - b.innerWidth
    requires a.outerHeight - a.innerHeight <= b.outerHeight - b.innerHeight
    ensures IsDevtoolsOpen(Some(a)) ==> IsDevtoolsOpen(Some(b))
  {
  }

  /** The comparison is strict: a difference of exactly 160 reads closed,
      161 reads open. */
  lemma ProbeThresholdIsStrict(inner: nat)
    ensures !IsDevtoolsOpen(Some(Window(inner + 160, inner, inner + 160, inner)))
    ensures IsDevtoolsOpen(Some(Window(inner + 161, inner, inner, inner)))
    ensures IsDevtoolsOpen(Some(Window(inner, inner, inner + 161, inner)))
  {
  }

  /** The hook's options after destructuring defaults. */
  datatype Options = Options(onDetect: Value, pollInterval: Value, enabled: Value)

  function ResolvePollInterval(o: Options): (interval: Value)
    ensures o.pollInterval.Undefined? ==> interval == Num(DefaultPollInterval)
    ensures !o.pollInterval.Undefined? ==> interval == o.pollInterval
  {
    WithDefault(o.pollInterval, Num(DefaultPollInterval))
  }

  /** Whether the effect registers anything: `enabled` (default `true`)
      must be truthy and a `window` must exist. */
  function Registers(o: Options, hasWindow: bool): (on: bool)
    ensures o.enabled.Undefined? ==> (on <==> hasWindow)
    ensures !o.enabled.Undefined? ==> (on <==> hasWindow && Truthy(o.enabled))
  {
    Truthy(WithDefault(o.enabled, Bool(true))) && hasWindow
  }

  /** The reading before sample `i`: the mount-time reading for the first
      one, the previous sample otherwise. */
  function Before(mount: bool, samples: seq<bool>, i: nat): bool
    requires i < |samples|
  {
    if i == 0 then mount else samples[i - 1]
  }

  predicate RisingAt(mount: bool, samples: seq<bool>, i: nat)
    requires i < |samples|
  {
    samples[i] && !Before(mount, samples, i)
  }

  /** The number of closed-to-open transitions in `samples`, counting from
      the mount-time reading. */
  function RisingEdges(mount: bool, samples: seq<bool>): nat
    decreases |samples|
  {
    if samples == [] then 0
    else
      var init := samples[..|samples| - 1];
      RisingEdges(mount, init) + if RisingAt(mount, samples, |samples| - 1) then 1 else 0
  }

  /** The value the hook returns after the samples: `false` before the
      effect registers, then always the latest reading. */
  function Latest(mount: bool, samples: seq<bool>): bool {
    if samples == [] then mount else samples[|samples| - 1]
  }

  /** Runs the hook over one mount: `mount` is the reading taken when the
      effect registers and `samples` the readings of later `check` calls
      (interval ticks and resizes alike). Returns how many times `onDetect`
      fired and the final `devtoolsOpen`. */
  method Watch(o: Options, hasWindow: bool, mount: bool, samples: seq<bool>)
    returns (detections: nat, devtoolsOpen: bool)
    ensures !Registers(o, hasWindow) ==> detections == 0 && !devtoolsOpen
    ensures Registers(o, hasWindow) ==> devtoolsOpen == Latest(mount, samples)
    ensures Registers(o, hasWindow) && o.onDetect.Fn? ==> detections == RisingEdges(mount, samples)
    ensures !o.onDetect.Fn? ==> detections == 0
  {
    detections := 0;
    devtoolsOpen := false;
    if !Registers(o, hasWindow) {
      return;
    }
    var prev := mount;
    devtoolsOpen := prev;
    var i := 0;
    while i < |samples|
      invariant 0 <= i <= |samples|
      invariant prev == Latest(mount, samples[..i])
      invariant devtoolsOpen == prev
      invariant o.onDetect.Fn? ==> detections == RisingEdges(mount, samples[..i])
      invariant !o.onDetect.Fn? ==> detections == 0
    {
      var current := samples[i];
      assert samples[..i + 1][..i] == samples[..i];
      if current && !prev && o.onDetect.Fn? {
        detections := detections + 1;
      }
      prev := current;
      devtoolsOpen := current;
      i := i + 1;
    }
    assert samples[..|samples|] == samples;
  }

  /** Devtools already open at mount never fires while it stays open: only
      closing and reopening does. */
  lemma {:induction false} OpenAtMountStaysQuiet(n: nat)
    ensures RisingEdges(true, seq(n, _ => true)) == 0
    ensures RisingEdges(true, seq(n, _ => true) + [false, true]) == 1
  {
    OpenRunHasNoEdges(n);
    var s := seq(n, _ => true);
    assert (s + [false, true])[..n + 1] == s + [false];
    assert (s + [false])[..n] == s;
  }

  lemma {:induction false} OpenRunHasNoEdges(n: nat)
    ensures RisingEdges(true, seq(n, _ => true)) == 0
    decreases n
  {
    if n > 0 {
      var s := seq(n, _ => true);
      assert s[..n - 1] == seq(n - 1, _ => true);
      OpenRunHasNoEdges(n - 1);
    }
  }

  /** There are never more detections than samples, and a rising edge needs
      a closed reading before it. */
  lemma {:induction false} EdgesBounded(mount: bool, samples: seq<bool>)
    ensures RisingEdges(mount, samples) <= |samples|
    ensures (forall i :: 0 <= i < |samples| ==> samples[i]) && mount ==> RisingEdges(mount, samples) == 0
    decreases |samples|
  {
    if samples != [] {
      var init := samples[..|samples| - 1];
      EdgesBounded(mount, init);
    }
  }
}
