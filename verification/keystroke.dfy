/**
 The keystroke-timing tamper hook: a reducer over keydown timestamps that
 counts intervals shorter than 20 ms and reports automation once fifteen
 of them have been seen.
 */
module Keystroke {

  const RapidInterval: real := 20.0

  const BurstThreshold: nat := 15

  const Label: string := "keystroke-automation"

  /** The closure's two variables: the previous timestamp and the number
      of rapid intervals seen so far. */
  datatype Tamper = Tamper(last: real, rapidCount: nat)

  datatype Reaction = Reaction(state: Tamper, fired: bool)

  /** The state the effect starts from: `last` is the mount time. */
  function Mount(now: real): Tamper {
    Tamper(now, 0)
  }

  /** `onType` at time `now`. */
  function OnType(t: Tamper, now: real): (r: Reaction)
    ensures r.state.last == now
    ensures r.state.rapidCount >= t.rapidCount
    ensures r.state.rapidCount == t.rapidCount + 1 <==> now - t.last < RapidInterval
    ensures now - t.last >= RapidInterval ==> r.state.rapidCount == t.rapidCount
    ensures r.fired <==> r.state.rapidCount >= BurstThreshold
  {
    var rapidCount := if now - t.last < RapidInterval then t.rapidCount + 1 else t.rapidCount;
    Reaction(Tamper(now, rapidCount), rapidCount >= BurstThreshold)
  }

  /** The hook's state after the keydowns at `times`. */
  function Run(mount: real, times: seq<real>): Tamper
    decreases |times|
  {
    if times == [] then Mount(mount)
    else OnType(Run(mount, times[..|times| - 1]), times[|times| - 1]).state
  }

  /** The timestamp before keydown `i`. */
  function Before(mount: real, times: seq<real>, i: nat): real
    requires i < |times|
  {
    if i == 0 then mount else times[i - 1]
  }

  predicate RapidAt(mount: real, times: seq<real>, i: nat)
    requires i < |times|
  {
    times[i] - Before(mount, times, i) < RapidInterval
  }

  /** Reference count: the number of keydowns that came less than 20 ms
      after the previous keydown (or the mount). */
  function RapidIntervals(mount: real, times: seq<real>): nat
    decreases |times|
  {
    if times == [] then 0
    else RapidIntervals(mount, times[..|times| - 1]) + if RapidAt(mount, times, |times| - 1) then 1 else 0
  }

  /** Keydown `i` reports automation. */
  predicate FiresAt(mount: real, times: seq<real>, i: nat)
    requires i < |times|
  {
    RapidIntervals(mount, times[..i + 1]) >= BurstThreshold
  }

  /** Reference count: the number of keydowns that report automation. */
  function Firings(mount: real, times: seq<real>): nat
    decreases |times|
  {
    if times == [] then 0
    else Firings(mount, times[..|times| - 1]) + if FiresAt(mount, times, |times| - 1) then 1 else 0
  }

  /** The reducer counts cumulative rapid intervals, whether or not they
      are consecutive, and remembers the latest timestamp. */
  lemma {:induction false} RunCountsRapidIntervals(mount: real, times: seq<real>)
    ensures Run(mount, times).rapidCount == RapidIntervals(mount, times)
    ensures Run(mount, times).last == if times == [] then mount else times[|times| - 1]
    decreases |times|
  {
    if times != [] {
      var init := times[..|times| - 1];
      RunCountsRapidIntervals(mount, init);
    }
  }

  /** The count never decreases as keydowns arrive. */
  lemma {:induction false} RapidIntervalsMonotone(mount: real, times: seq<real>, n: nat)
    requires n <= |times|
    ensures RapidIntervals(mount, times[..n]) <= RapidIntervals(mount, times)
    decreases |times|
  {
    if n < |times| {
      var init := times[..|times| - 1];
      assert init[..n] == times[..n];
      RapidIntervalsMonotone(mount, init, n);
    } else {
      assert times[..n] == times;
    }
  }

  /** Once a keydown reports automation, every later keydown does too. */
  lemma OnceFiringAlwaysFiring(mount: real, times: seq<real>, i: nat, j: nat)
    requires i <= j < |times|
    requires FiresAt(mount, times, i)
    ensures FiresAt(mount, times, j)
  {
    var upto := times[..j + 1];
    assert upto[..i + 1] == times[..i + 1];
    RapidIntervalsMonotone(mount, upto, i + 1);
  }

  /** An interval of exactly 20 ms is not rapid; 19.5 ms is. */
  lemma BoundaryInterval(t: Tamper)
    ensures OnType(t, t.last + 20.0).state.rapidCount == t.rapidCount
    ensures OnType(t, t.last + 19.5).state.rapidCount == t.rapidCount + 1
  {
  }

  /** Replays the keydowns at `times` through the hook and collects the
      labels it reports. */
  method Observe(mount: real, times: seq<real>) returns (t: Tamper, reports: seq<string>)
    ensures t.rapidCount == RapidIntervals(mount, times)
    ensures |reports| == Firings(mount, times)
    ensures forall k :: 0 <= k < |reports| ==> reports[k] == Label
  {
    t := Mount(mount);
    reports := [];
    var i := 0;
    while i < |times|
      invariant 0 <= i <= |times|
      invariant t.rapidCount == RapidIntervals(mount, times[..i])
      invariant t.last == if i == 0 then mount else times[i - 1]
      invariant |reports| == Firings(mount, times[..i])
      invariant forall k :: 0 <= k < |reports| ==> reports[k] == Label
    {
      assert times[..i + 1][..i] == times[..i];
      assert times[..i + 1][..i + 1] == times[..i + 1];
      var r := OnType(t, times[i]);
      t := r.state;
      if r.fired {
        reports := reports + [Label];
      }
      i := i + 1;
    }
    assert times[..|times|] == times;
  }
}
