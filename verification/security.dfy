/**
 The provider's security state machine: the `(suspicious, locked, lastEvent)`
 record, its two transitions `markSuspicious` and `unlock`, the ordered
 callbacks `markSuspicious` fires, and the provider's own lock overlay.
 */
module Security {
  import opened Js
  import Policy

  datatype State = State(suspicious: bool, locked: bool, lastEvent: Option<string>)

  /** The state at mount: `(false, false, null)`. */
  const Initial: State := State(false, false, None)

  /** A callback the policy fires. A truthy `onDetect` or `onLogout` that is
      not a function throws a TypeError at the call, which ends the
      handler: nothing after it runs. */
  datatype Effect = Detect(event: string) | Logout(event: string) | NotCallable(callee: string)

  datatype Outcome = Outcome(state: State, effects: seq<Effect>)

  /** The two public transitions. */
  datatype Op = Mark(event: string) | Release

  /** The states a session can reach: locked only while suspicious, and
      suspicious exactly when some event has been recorded. */
  predicate Consistent(s: State) {
    && (s.locked ==> s.suspicious)
    && (s.suspicious <==> s.lastEvent.Some?)
  }

  /** `if (cb) cb(event)` */
  function Call(cb: Value, e: Effect, callee: string): seq<Effect> {
    if !Truthy(cb) then [] else if cb.Fn? then [e] else [NotCallable(callee)]
  }

  /** The callbacks `markSuspicious(event)` fires after updating the state,
      in order: `onDetect` when present, then `onLogout` when both
      `autoLogout` and `onLogout` are present. */
  function Notify(policy: Object, event: string): (effects: seq<Effect>)
    ensures |effects| <= 2
    ensures Detect(event) in effects <==> Get(policy, "onDetect").Fn?
    ensures Logout(event) in effects <==>
              && Truthy(Get(policy, "autoLogout"))
              && Get(policy, "onLogout").Fn?
              && (Get(policy, "onDetect").Fn? || !Truthy(Get(policy, "onDetect")))
    ensures forall i :: 0 <= i < |effects| && !effects[i].NotCallable? ==> effects[i].event == event
    ensures |effects| == 2 ==> effects[0] == Detect(event) && (effects[1].Logout? || effects[1].NotCallable?)
    ensures forall i :: 0 <= i < |effects| - 1 ==> !effects[i].NotCallable?
    ensures NotCallable("onDetect") in effects <==> Truthy(Get(policy, "onDetect")) && !Get(policy, "onDetect").Fn?
    ensures Truthy(Get(policy, "onDetect")) && !Get(policy, "onDetect").Fn? ==> effects == [NotCallable("onDetect")]
    ensures NotCallable("onLogout") in effects <==>
              && Truthy(Get(policy, "autoLogout"))
              && Truthy(Get(policy, "onLogout")) && !Get(policy, "onLogout").Fn?
              && (Get(policy, "onDetect").Fn? || !Truthy(Get(policy, "onDetect")))
    ensures forall e :: e in effects ==> e in [Detect(event), Logout(event), NotCallable("onDetect"), NotCallable("onLogout")]
  {
    var onDetect := Get(policy, "onDetect");
    var first := Call(onDetect, Detect(event), "onDetect");
    if first != [] && first[0].NotCallable? then first
    else if Truthy(Get(policy, "autoLogout")) then first + Call(Get(policy, "onLogout"), Logout(event), "onLogout")
    else first
  }

  /** `markSuspicious(event)` under `policy`. */
  function MarkSuspicious(policy: Object, s: State, event: string): (r: Outcome)
    ensures r.state.suspicious && r.state.lastEvent == Some(event)
    ensures r.state.locked <==> s.locked || Truthy(Get(policy, "lockOnSuspicious"))
    ensures r.effects == Notify(policy, event)
  {
    var locked := if Truthy(Get(policy, "lockOnSuspicious")) then true else s.locked;
    Outcome(State(true, locked, Some(event)), Notify(policy, event))
  }

  /** `unlock()`: clears the lock only; the audit fields stay. */
  function Unlock(s: State): (r: State)
    ensures !r.locked
    ensures r.suspicious == s.suspicious && r.lastEvent == s.lastEvent
  {
    s.(locked := false)
  }

  function Step(policy: Object, s: State, op: Op): State {
    match op
    case Mark(event) => MarkSuspicious(policy, s, event).state
    case Release => Unlock(s)
  }

  /** The state after a sequence of transitions, in order. */
  function Run(policy: Object, s: State, ops: seq<Op>): State
    decreases |ops|
  {
    if ops == [] then s else Run(policy, Step(policy, s, ops[0]), ops[1..])
  }

  /** Every callback `markSuspicious` fires during a run, in order. */
  function RunEffects(policy: Object, ops: seq<Op>): seq<Effect>
    decreases |ops|
  {
    if ops == [] then []
    else
      var here := if ops[0].Mark? then Notify(policy, ops[0].event) else [];
      here + RunEffects(policy, ops[1..])
  }

  /** The number of `markSuspicious` calls in a sequence of operations. */
  function Marks(ops: seq<Op>): nat
    decreases |ops|
  {
    if ops == [] then 0 else (if ops[0].Mark? then 1 else 0) + Marks(ops[1..])
  }

  /** The number of `onLogout` calls in a sequence of callbacks. */
  function Logouts(effects: seq<Effect>): nat
    decreases |effects|
  {
    if effects == [] then 0 else (if effects[0].Logout? then 1 else 0) + Logouts(effects[1..])
  }

  predicate HasMark(ops: seq<Op>) {
    exists i :: 0 <= i < |ops| && ops[i].Mark?
  }

  /** The provider renders its overlay when `locked && showLockOverlay`,
      reading the merged policy with no default of its own. */
  function ProviderLockOverlay(policy: Object, s: State): (shown: bool)
    ensures shown ==> s.locked
    ensures s.locked ==> (shown <==> Truthy(Get(policy, "showLockOverlay")))
  {
    s.locked && Truthy(Get(policy, "showLockOverlay"))
  }

  // ---------------------------------------------------------------------
  // Single transitions
  // ---------------------------------------------------------------------

  /** `unlock` is idempotent. */
  lemma UnlockIdempotent(s: State)
    ensures Unlock(Unlock(s)) == Unlock(s)
  {
  }

  /** Each transition keeps the consistency invariant. */
  lemma StepConsistent(policy: Object, s: State, op: Op)
    requires Consistent(s)
    ensures Consistent(Step(policy, s, op))
  {
  }

  // ---------------------------------------------------------------------
  // Runs
  // ---------------------------------------------------------------------

  lemma {:induction false} RunAppend(policy: Object, s: State, a: seq<Op>, b: seq<Op>)
    ensures Run(policy, s, a + b) == Run(policy, Run(policy, s, a), b)
    decreases |a|
  {
    if a == [] {
      assert a + b == b;
    } else {
      assert (a + b)[1..] == a[1..] + b;
      RunAppend(policy, Step(policy, s, a[0]), a[1..], b);
    }
  }

  /** From a consistent state every run stays consistent; in particular,
      from mount, `locked` never holds without `suspicious`. */
  lemma {:induction false} RunConsistent(policy: Object, s: State, ops: seq<Op>)
    requires Consistent(s)
    ensures Consistent(Run(policy, s, ops))
    decreases |ops|
  {
    if ops != [] {
      StepConsistent(policy, s, ops[0]);
      RunConsistent(policy, Step(policy, s, ops[0]), ops[1..]);
    }
  }

  /** Suspicion is sticky: once raised, no run clears it, and the
      recorded event is never cleared either. */
  lemma {:induction false} SuspicionSticky(policy: Object, s: State, ops: seq<Op>)
    requires s.suspicious && s.lastEvent.Some?
    ensures Run(policy, s, ops).suspicious
    ensures Run(policy, s, ops).lastEvent.Some?
    decreases |ops|
  {
    if ops != [] {
      SuspicionSticky(policy, Step(policy, s, ops[0]), ops[1..]);
    }
  }

  /** From mount, the session is suspicious exactly when some
      `markSuspicious` happened. */
  lemma {:induction false} SuspiciousIffMarked(policy: Object, ops: seq<Op>)
    ensures Run(policy, Initial, ops).suspicious <==> HasMark(ops)
    decreases |ops|
  {
    if ops == [] {
    } else if ops[0].Mark? {
      SuspicionSticky(policy, Step(policy, Initial, ops[0]), ops[1..]);
    } else {
      assert Step(policy, Initial, ops[0]) == Initial;
      SuspiciousIffMarked(policy, ops[1..]);
      assert HasMark(ops) <==> HasMark(ops[1..]) by {
        if HasMark(ops[1..]) {
          var i :| 0 <= i < |ops[1..]| && ops[1..][i].Mark?;
          assert ops[i + 1].Mark?;
        }
        if HasMark(ops) {
          var i :| 0 <= i < |ops| && ops[i].Mark?;
          assert i != 0;
          assert ops[1..][i - 1].Mark?;
        }
      }
    }
  }

  /** A policy that does not lock on suspicion never locks, whatever the
      run. */
  lemma {:induction false} NeverLocksWithoutPolicy(policy: Object, s: State, ops: seq<Op>)
    requires !Truthy(Get(policy, "lockOnSuspicious"))
    requires !s.locked
    ensures !Run(policy, s, ops).locked
    decreases |ops|
  {
    if ops != [] {
      NeverLocksWithoutPolicy(policy, Step(policy, s, ops[0]), ops[1..]);
    }
  }

  /** The last `markSuspicious` wins: `lastEvent` is its event however many
      unlocks follow. */
  lemma {:induction false} LastWriterWins(policy: Object, s: State, ops: seq<Op>, event: string, n: nat)
    ensures Run(policy, s, ops + [Mark(event)] + seq(n, _ => Release)).lastEvent == Some(event)
    decreases n
  {
    var tail := seq(n, _ => Release);
    RunAppend(policy, s, ops + [Mark(event)], tail);
    RunAppend(policy, s, ops, [Mark(event)]);
    var t := Run(policy, s, ops + [Mark(event)]);
    assert t.lastEvent == Some(event);
    ReleasesKeepEvent(policy, t, n);
  }

  lemma {:induction false} ReleasesKeepEvent(policy: Object, s: State, n: nat)
    ensures Run(policy, s, seq(n, _ => Release)).lastEvent == s.lastEvent
    ensures Run(policy, s, seq(n, _ => Release)).suspicious == s.suspicious
    decreases n
  {
    if n > 0 {
      var ops := seq(n, _ => Release);
      assert ops[0] == Release;
      assert ops[1..] == seq(n - 1, _ => Release);
      ReleasesKeepEvent(policy, Unlock(s), n - 1);
    }
  }

  lemma {:induction false} LogoutsAppend(a: seq<Effect>, b: seq<Effect>)
    ensures Logouts(a + b) == Logouts(a) + Logouts(b)
    decreases |a|
  {
    if a == [] {
      assert a + b == b;
    } else {
      assert (a + b)[0] == a[0];
      assert (a + b)[1..] == a[1..] + b;
      LogoutsAppend(a[1..], b);
    }
  }

  /** Every `onLogout` fired during a run answers a `markSuspicious` of the
      same run: there are never more logouts than marks, at most two
      callbacks per mark, and no logout at all without `autoLogout`. */
  lemma {:induction false} LogoutsBoundedByMarks(policy: Object, ops: seq<Op>)
    ensures Logouts(RunEffects(policy, ops)) <= Marks(ops)
    ensures |RunEffects(policy, ops)| <= 2 * Marks(ops)
    ensures !Truthy(Get(policy, "autoLogout")) ==> Logouts(RunEffects(policy, ops)) == 0
    decreases |ops|
  {
    if ops != [] {
      LogoutsBoundedByMarks(policy, ops[1..]);
      var here := if ops[0].Mark? then Notify(policy, ops[0].event) else [];
      LogoutsAppend(here, RunEffects(policy, ops[1..]));
      if ops[0].Mark? {
        var n := Notify(policy, ops[0].event);
        if |n| == 2 {
          assert n[1..][1..] == [];
        } else if |n| == 1 {
          assert n[1..] == [];
          assert n[0].Logout? ==> Truthy(Get(policy, "autoLogout"));
        }
      }
    }
  }

  // ---------------------------------------------------------------------
  // Scenarios
  // ---------------------------------------------------------------------

  /** `high` with an `onLogout`: one `devtools` event locks the session and
      logs out exactly once with that event. */
  lemma HighLevelDevtools()
    ensures MarkSuspicious(Policy.Merge("high", map["onLogout" := Fn(1)]), Initial, "devtools")
         == Outcome(State(true, true, Some("devtools")), [Logout("devtools")])
  {
    var p := Policy.Merge("high", map["onLogout" := Fn(1)]);
    assert Get(p, "onDetect") == Undefined;
    assert Get(p, "autoLogout") == Bool(true);
    assert Get(p, "lockOnSuspicious") == Bool(true);
  }

  /** `low`: a clipboard event flags the session without locking it and
      fires nothing. */
  lemma LowLevelClipboard()
    ensures MarkSuspicious(Policy.Merge("low", map[]), Initial, "clipboard")
         == Outcome(State(true, false, Some("clipboard")), [])
  {
    var p := Policy.Merge("low", map[]);
    assert Get(p, "onDetect") == Undefined;
    assert Get(p, "autoLogout") == Bool(false);
    assert Get(p, "lockOnSuspicious") == Bool(false);
  }

  /** An `onDetect` that is not a function aborts the handler after the
      state is updated, so even `high` never reaches `onLogout`. */
  lemma NonFunctionOnDetectSkipsLogout()
    ensures MarkSuspicious(Policy.Merge("high", map["onDetect" := Bool(true), "onLogout" := Fn(2)]), Initial, "devtools")
         == Outcome(State(true, true, Some("devtools")), [NotCallable("onDetect")])
  {
    var p := Policy.Merge("high", map["onDetect" := Bool(true), "onLogout" := Fn(2)]);
    assert Get(p, "onDetect") == Bool(true);
    assert Get(p, "lockOnSuspicious") == Bool(true);
  }
}
