/**
 The `BlockInspect` component: the inspect-key classifier, the
 context-menu rule, the zoom-ratio rule, the long-press timer and the
 `markEvent` guard that forwards labels to the provider.
 */
module BlockInspect {
  import opened Js

  /** The component's props as passed; each defaults to `true`. */
  datatype Props = Props(detectMobile: Value, detectContextMenu: Value, detectZoom: Value)

  function On(flag: Value): bool {
    Truthy(WithDefault(flag, Bool(true)))
  }

  /** The security context as `markEvent` sees it: absent (`null` or
      `undefined`), or present with some `markSuspicious` value. */
  datatype Ctx = NoContext | Context(markSuspicious: Value)

  /** `markEvent(label)`: forwards only to a function `markSuspicious`. */
  function MarkEvent(ctx: Ctx, event: string): (marked: seq<string>)
    ensures ctx.Context? && ctx.markSuspicious.Fn? ==> marked == [event]
    ensures !(ctx.Context? && ctx.markSuspicious.Fn?) ==> marked == []
  {
    if ctx.Context? && ctx.markSuspicious.Fn? then [event] else []
  }

  // ---------------------------------------------------------------------
  // Keyboard
  // ---------------------------------------------------------------------

  datatype KeyEvent = KeyEvent(key: string, ctrl: bool, shift: bool)

  /** The labels one keydown raises: the three tests run one after the
      other, each on its own. */
  function KeyLabels(e: KeyEvent): (labels: seq<string>)
    ensures |labels| <= 1
    ensures labels == ["inspect_key"] <==> e.key == "F12"
    ensures labels == ["inspect_key_combo"] <==> e.ctrl && e.shift && (e.key == "I" || e.key == "J")
    ensures labels == ["view_source_attempt"] <==> e.ctrl && e.key == "U"
    ensures labels == [] <==> !(e.key == "F12" || (e.ctrl && e.shift && (e.key == "I" || e.key == "J")) || (e.ctrl && e.key == "U"))
  {
    assert "F12" != "I" && "F12" != "J" && "F12" != "U" && "U" != "I" && "U" != "J";
    assert ["inspect_key"] != ["inspect_key_combo"] && ["inspect_key"] != ["view_source_attempt"];
    assert ["inspect_key_combo"] != ["view_source_attempt"];
    (if e.key == "F12" then ["inspect_key"] else [])
    + (if e.ctrl && e.shift && e.key in ["I", "J"] then ["inspect_key_combo"] else [])
    + (if e.ctrl && e.key == "U" then ["view_source_attempt"] else [])
  }

  datatype Handling = Handling(preventDefault: bool, marked: seq<string>)

  /** `keyHandler`: the default is prevented exactly when a label is
      raised, whether or not a context can receive it. */
  function HandleKey(ctx: Ctx, e: KeyEvent): (h: Handling)
    ensures h.preventDefault <==> KeyLabels(e) != []
    ensures |h.marked| <= 1
    ensures ctx.Context? && ctx.markSuspicious.Fn? ==> h.marked == KeyLabels(e)
    ensures !(ctx.Context? && ctx.markSuspicious.Fn?) ==> h.marked == []
  {
    var labels := KeyLabels(e);
    Handling(labels != [], if labels == [] then [] else MarkEvent(ctx, labels[0]))
  }

  // ---------------------------------------------------------------------
  // The `markEvent` guard over a whole session
  // ---------------------------------------------------------------------

  /** A window event the component listens to (touches aside). */
  datatype Input = Key(e: KeyEvent) | Menu | Resize(outer: nat, inner: nat)

  /** What the component forwards to `markSuspicious` for one event. */
  function Handle(p: Props, ctx: Ctx, i: Input): seq<string> {
    match i
    case Key(e) => HandleKey(ctx, e).marked
    case Menu => HandleContextMenu(p, ctx).marked
    case Resize(outer, inner) => HandleResize(p, ctx, outer, inner)
  }

  /** Reference: the label a rule raises for one event, whoever hears it. */
  function Raised(p: Props, i: Input): seq<string> {
    match i
    case Key(e) => KeyLabels(e)
    case Menu => if On(p.detectContextMenu) then ["context_menu_blocked"] else []
    case Resize(outer, inner) =>
      if On(p.detectZoom) && ZoomExceeds(outer, inner) then ["zoom_devtools_detected"] else []
  }

  function Session(p: Props, ctx: Ctx, inputs: seq<Input>): seq<string>
    decreases |inputs|
  {
    if inputs == [] then []
    else Session(p, ctx, inputs[..|inputs| - 1]) + Handle(p, ctx, inputs[|inputs| - 1])
  }

  function RaisedAll(p: Props, inputs: seq<Input>): seq<string>
    decreases |inputs|
  {
    if inputs == [] then []
    else RaisedAll(p, inputs[..|inputs| - 1]) + Raised(p, inputs[|inputs| - 1])
  }

  /** The guard is transparent or silent: with a function `markSuspicious`
      every raised label reaches it in order, and otherwise none does. */
  lemma {:induction false} SessionMarksRaisedLabels(p: Props, ctx: Ctx, inputs: seq<Input>)
    ensures ctx.Context? && ctx.markSuspicious.Fn? ==> Session(p, ctx, inputs) == RaisedAll(p, inputs)
    ensures !(ctx.Context? && ctx.markSuspicious.Fn?) ==> Session(p, ctx, inputs) == []
    decreases |inputs|
  {
    if inputs != [] {
      SessionMarksRaisedLabels(p, ctx, inputs[..|inputs| - 1]);
    }
  }

  /** The tests are case-sensitive: lower-case letters raise nothing. */
  lemma KeyTestsAreCaseSensitive(ctrl: bool, shift: bool)
    ensures KeyLabels(KeyEvent("i", ctrl, shift)) == []
    ensures KeyLabels(KeyEvent("j", ctrl, shift)) == []
    ensures KeyLabels(KeyEvent("u", ctrl, shift)) == []
  {
  }

  /** Ctrl+Shift+U is a view-source attempt too: the shift state is not
      consulted. */
  lemma CtrlUIgnoresShift(shift: bool)
    ensures KeyLabels(KeyEvent("U", true, shift)) == ["view_source_attempt"]
    ensures KeyLabels(KeyEvent("U", false, shift)) == []
  {
  }

  // ---------------------------------------------------------------------
  // Context menu and zoom
  // ---------------------------------------------------------------------

  /** `contextHandler` */
  function HandleContextMenu(p: Props, ctx: Ctx): (h: Handling)
    ensures h.preventDefault <==> On(p.detectContextMenu)
    ensures h.marked != [] <==> On(p.detectContextMenu) && ctx.Context? && ctx.markSuspicious.Fn?
    ensures h.marked != [] ==> h.marked == ["context_menu_blocked"]
  {
    if On(p.detectContextMenu) then Handling(true, MarkEvent(ctx, "context_menu_blocked")) else Handling(false, [])
  }

  /** `window.outerWidth / window.innerWidth > 1.05` on non-negative
      dimensions: a positive width over zero is `Infinity`, zero over zero
      is `NaN`. Exact rationals stand for the double division. */
  function ZoomExceeds(outer: nat, inner: nat): (r: bool)
    ensures inner > 0 ==> (r <==> 100 * outer > 105 * inner)
    ensures inner == 0 ==> (r <==> outer > 0)
  {
    if inner == 0 then outer > 0
    else
      RatioCompare(outer as real, inner as real);
      (outer as real) / (inner as real) > 1.05
  }

  lemma RatioCompare(x: real, y: real)
    requires y > 0.0
    ensures x / y > 1.05 <==> 100.0 * x > 105.0 * y
  {
  }

  /** `zoomHandler` */
  function HandleResize(p: Props, ctx: Ctx, outer: nat, inner: nat): (marked: seq<string>)
    ensures marked != [] <==> On(p.detectZoom) && ZoomExceeds(outer, inner) && ctx.Context? && ctx.markSuspicious.Fn?
    ensures marked != [] ==> marked == ["zoom_devtools_detected"]
  {
    if !On(p.detectZoom) then []
    else if ZoomExceeds(outer, inner) then MarkEvent(ctx, "zoom_devtools_detected")
    else []
  }

  /** A ratio of exactly 1.05 is not a zoom; anything wider is. */
  lemma ZoomBoundary(k: nat)
    requires k > 0
    ensures !ZoomExceeds(105 * k, 100 * k)
    ensures ZoomExceeds(105 * k + 1, 100 * k)
    ensures !ZoomExceeds(0, 0)
  {
  }

  // ---------------------------------------------------------------------
  // Long press
  // ---------------------------------------------------------------------

  const LongPressDelay: real := 500.0

  datatype Touch = TouchStart(at: real) | TouchEnd(at: real)

  /** The pending long-press timers, named by the index of the
      `touchstart` that armed them (a timer that already fired stays in
      `armed`), and the timer `longPressTimer.current` holds. */
  datatype Presses = Presses(armed: set<nat>, current: Option<nat>)

  const NoPresses: Presses := Presses({}, None)

  /** `clearTimeout(longPressTimer.current)` at time `t`: a timer whose
      500 ms have not yet passed is cancelled; one that already fired, or
      `null`, is left as is. */
  function ClearCurrent(events: seq<Touch>, p: Presses, t: real): (r: Presses)
    ensures r.current == p.current && r.armed <= p.armed
    ensures forall i :: i in p.armed && i !in r.armed ==> p.current == Some(i)
    ensures forall i :: p.current == Some(i) && i in p.armed && i < |events| ==>
              (i in r.armed <==> t >= events[i].at + LongPressDelay)
  {
    if p.current.Some? && p.current.value < |events| && t < events[p.current.value].at + LongPressDelay
    then p.(armed := p.armed - {p.current.value})
    else p
  }

  /** The handlers for event `n`. As written, `touchStart` overwrites the
      ref without cancelling the timer it held; `fixed` cancels it first. */
  function Step(events: seq<Touch>, n: nat, p: Presses, detectMobile: bool, fixed: bool): (r: Presses)
    requires n < |events|
    ensures events[n].TouchEnd? ==> r.current == p.current && r.armed <= p.armed
    ensures events[n].TouchStart? && !detectMobile ==> r == p
    ensures events[n].TouchStart? && detectMobile ==> r.current == Some(n) && n in r.armed
    ensures events[n].TouchStart? && !fixed ==> p.armed <= r.armed
    ensures forall i :: i in p.armed && i !in r.armed ==> p.current == Some(i)
  {
    match events[n]
    case TouchEnd(t) => ClearCurrent(events, p, t)
    case TouchStart(t) =>
      if !detectMobile then p
      else
        var q := if fixed then ClearCurrent(events, p, t) else p;
        Presses(q.armed + {n}, Some(n))
  }

  /** The timers after the first `n` touch events. */
  function Run(events: seq<Touch>, n: nat, detectMobile: bool, fixed: bool): Presses
    requires n <= |events|
    decreases n
  {
    if n == 0 then NoPresses
    else Step(events, n - 1, Run(events, n - 1, detectMobile, fixed), detectMobile, fixed)
  }

  /** Touch events arrive in time order. */
  predicate Chronological(events: seq<Touch>) {
    forall i, j :: 0 <= i < j < |events| ==> events[i].at <= events[j].at
  }

  /** Reference: the touch at `i` is a long press among the first `n`
      events when it is a `touchstart` and no touch event follows it within
      500 ms. */
  predicate LongPressWithin(events: seq<Touch>, n: nat, i: nat)
    requires n <= |events|
  {
    && i < n
    && events[i].TouchStart?
    && forall j :: i < j < n ==> events[j].at >= events[i].at + LongPressDelay
  }

  /** Reference for the code as written: the `touchstart` at `i` keeps its
      timer among the first `n` events when every `touchend` that comes
      before the next `touchstart`, while the ref still holds `i`, arrives
      500 ms or more after it. */
  predicate SurvivesAsWritten(events: seq<Touch>, n: nat, i: nat)
    requires n <= |events|
  {
    && i < n
    && events[i].TouchStart?
    && forall j :: i < j < n && (forall k :: i < k < j ==> events[k].TouchEnd?) ==>
         events[j].TouchStart? || events[j].at >= events[i].at + LongPressDelay
  }

  /** The most recent `touchstart` among the first `n` events. */
  function LastStart(events: seq<Touch>, n: nat): (c: Option<nat>)
    requires n <= |events|
    ensures c.Some? ==> c.value < n && events[c.value].TouchStart?
    ensures c.Some? ==> forall k :: c.value < k < n ==> events[k].TouchEnd?
    ensures c.None? ==> forall k :: 0 <= k < n ==> events[k].TouchEnd?
    decreases n
  {
    if n == 0 then None
    else if events[n - 1].TouchStart? then Some(n - 1)
    else LastStart(events, n - 1)
  }

  /** With the long-press rule switched off no timer is ever armed. */
  lemma {:induction false} DisabledNeverArms(events: seq<Touch>, n: nat, fixed: bool)
    requires n <= |events|
    ensures Run(events, n, false, fixed) == NoPresses
    decreases n
  {
    if n > 0 {
      DisabledNeverArms(events, n - 1, fixed);
    }
  }

  /** With the ref cleared before every new timer, the timers that fire are
      exactly the long presses: a `touchstart` fires unless some touch
      event follows it within 500 ms. */
  lemma {:induction false} FixedArmsExactlyLongPresses(events: seq<Touch>, n: nat)
    requires n <= |events|
    requires Chronological(events)
    ensures Run(events, n, true, true).current == LastStart(events, n)
    ensures forall i :: i in Run(events, n, true, true).armed <==> LongPressWithin(events, n, i)
    decreases n, 1
  {
    if n > 0 {
      FixedArmsExactlyLongPresses(events, n - 1);
      forall i: nat
        ensures i in Run(events, n, true, true).armed <==> LongPressWithin(events, n, i)
      {
        FixedStepKeepsLongPresses(events, n, i);
      }
    }
  }

  /** One step of `FixedArmsExactlyLongPresses`: event `n - 1` cancels an
      earlier timer exactly when it comes within that timer's 500 ms. */
  lemma {:induction false} FixedStepKeepsLongPresses(events: seq<Touch>, n: nat, i: nat)
    requires 0 < n <= |events|
    requires Chronological(events)
    ensures i in Run(events, n, true, true).armed <==> LongPressWithin(events, n, i)
    decreases n, 0
  {
    FixedArmsExactlyLongPresses(events, n - 1);
    var p := Run(events, n - 1, true, true);
    var t := events[n - 1].at;
    var q := ClearCurrent(events, p, t);
    assert Run(events, n, true, true).armed == if events[n - 1].TouchStart? then q.armed + {n - 1} else q.armed;
    if i < n - 1 {
      LongPressExtends(events, n, i);
      if i in p.armed && p.current != Some(i) {
        var c := p.current.value;
        assert LongPressWithin(events, n - 1, i);
        assert i < c < n - 1;
        assert events[c].at >= events[i].at + LongPressDelay;
        assert events[c].at <= t;
        assert i in q.armed;
      }
    }
  }

  /** One more event keeps a long press iff it comes 500 ms or more after
      the press. */
  lemma LongPressExtends(events: seq<Touch>, n: nat, i: nat)
    requires 0 < n <= |events| && i < n - 1
    ensures LongPressWithin(events, n, i) <==>
              LongPressWithin(events, n - 1, i) && events[n - 1].at >= events[i].at + LongPressDelay
  {
  }

  /** As written, a long press is never missed: a timer is cancelled only
      by a touch event within its 500 ms, and only touchstarts arm one. */
  lemma {:induction false} AsWrittenKeepsLongPresses(events: seq<Touch>, n: nat, detectMobile: bool)
    requires n <= |events|
    ensures detectMobile ==> forall i :: LongPressWithin(events, n, i) ==> i in Run(events, n, detectMobile, false).armed
    ensures forall i :: i in Run(events, n, detectMobile, false).armed ==> i < n && events[i].TouchStart?
    decreases n
  {
    if n > 0 {
      AsWrittenKeepsLongPresses(events, n - 1, detectMobile);
      var p := Run(events, n - 1, detectMobile, false);
      if detectMobile {
        forall i: nat | LongPressWithin(events, n, i)
          ensures i in Run(events, n, detectMobile, false).armed
        {
          if i < n - 1 {
            assert LongPressWithin(events, n - 1, i);
            assert events[n - 1].at >= events[i].at + LongPressDelay;
          }
        }
      }
    }
  }

  /** As written, with the rule on, the ref holds the last `touchstart`
      and the armed timers are exactly those no `touchend` cancelled while
      the ref held them, whatever the order of the time stamps. */
  lemma {:induction false} AsWrittenArmsExactly(events: seq<Touch>, n: nat)
    requires n <= |events|
    ensures Run(events, n, true, false).current == LastStart(events, n)
    ensures forall i :: i in Run(events, n, true, false).armed <==> SurvivesAsWritten(events, n, i)
    decreases n
  {
    if n > 0 {
      AsWrittenArmsExactly(events, n - 1);
      var p := Run(events, n - 1, true, false);
      var c := LastStart(events, n - 1);
      forall i: nat
        ensures i in Run(events, n, true, false).armed <==> SurvivesAsWritten(events, n, i)
      {
        if i < n - 1 {
          if events[n - 1].TouchStart? {
            assert SurvivesAsWritten(events, n, i) <==> SurvivesAsWritten(events, n - 1, i);
          } else if c == Some(i) {
            assert SurvivesAsWritten(events, n, i) <==>
              SurvivesAsWritten(events, n - 1, i) && events[n - 1].at >= events[i].at + LongPressDelay;
          } else if c.Some? && i < c.value {
            assert SurvivesAsWritten(events, n, i) <==> SurvivesAsWritten(events, n - 1, i) by {
              assert events[c.value].TouchStart?;
            }
          } else {
            assert !events[i].TouchStart?;
          }
        }
      }
    }
  }

  /** The timers that fire among all touch events: exactly the long
      presses when the events are in time order, none with the rule off. */
  function Fired(events: seq<Touch>, detectMobile: bool): (fired: set<nat>)
    ensures !detectMobile ==> fired == {}
    ensures detectMobile && Chronological(events) ==>
              forall i :: i in fired <==> LongPressWithin(events, |events|, i)
  {
    if !detectMobile then
      DisabledNeverArms(events, |events|, true);
      Run(events, |events|, detectMobile, true).armed
    else if Chronological(events) then
      FixedArmsExactlyLongPresses(events, |events|);
      Run(events, |events|, detectMobile, true).armed
    else
      Run(events, |events|, detectMobile, true).armed
  }

  /** The timers that fire among all touch events, as written: every long
      press, and only touchstarts, but possibly more (see
      `OrphanedTimerFires`). */
  function FiredAsWritten(events: seq<Touch>, detectMobile: bool): (fired: set<nat>)
    ensures !detectMobile ==> fired == {}
    ensures detectMobile ==> forall i :: LongPressWithin(events, |events|, i) ==> i in fired
    ensures forall i :: i in fired ==> i < |events| && events[i].TouchStart?
    ensures detectMobile ==> forall i :: i in fired <==> SurvivesAsWritten(events, |events|, i)
  {
    DisabledNeverArms(events, |events|, false);
    AsWrittenKeepsLongPresses(events, |events|, detectMobile);
    if detectMobile then
      AsWrittenArmsExactly(events, |events|);
      Run(events, |events|, detectMobile, false).armed
    else
      Run(events, |events|, detectMobile, false).armed
  }

  /** With the ref cleared first, a long press is marked exactly when no
      touch event follows its `touchstart` within 500 ms; with the rule
      off, never. */
  lemma LongPressRule(events: seq<Touch>, detectMobile: bool, i: nat)
    requires Chronological(events)
    ensures i in Fired(events, detectMobile) <==> detectMobile && LongPressWithin(events, |events|, i)
  {
    if detectMobile {
      FixedArmsExactlyLongPresses(events, |events|);
    } else {
      DisabledNeverArms(events, |events|, true);
    }
  }

  /** The long-press rule as the component applies it: the `detectMobile`
      prop defaults to `true` and is tested for truthiness. */
  function LongPresses(p: Props, events: seq<Touch>): (fired: set<nat>)
    ensures !On(p.detectMobile) ==> fired == {}
    ensures On(p.detectMobile) && Chronological(events) ==>
              forall i :: i in fired <==> LongPressWithin(events, |events|, i)
  {
    Fired(events, On(p.detectMobile))
  }

  /** The same entry point over the handlers as written. */
  function LongPressesAsWritten(p: Props, events: seq<Touch>): (fired: set<nat>)
    ensures !On(p.detectMobile) ==> fired == {}
    ensures On(p.detectMobile) ==> forall i :: i in fired <==> SurvivesAsWritten(events, |events|, i)
  {
    FiredAsWritten(events, On(p.detectMobile))
  }

  /** A component rendered without `detectMobile` watches long presses; an
      explicit `null`, `false` or `0` switches them off. */
  lemma LongPressPropDefault(events: seq<Touch>, other: Value, zoom: Value)
    requires Chronological(events)
    ensures forall i :: i in LongPresses(Props(Undefined, other, zoom), events) <==> LongPressWithin(events, |events|, i)
    ensures LongPresses(Props(Null, other, zoom), events) == {}
    ensures LongPresses(Props(Bool(false), other, zoom), events) == {}
    ensures LongPresses(Props(Num(0), other, zoom), events) == {}
  {
  }

  /** As written, two quick overlapping touches leave the first timer
      orphaned: both touches end within 30 ms, yet the long press fires. */
  lemma OrphanedTimerFires()
    ensures 0 in FiredAsWritten([TouchStart(0.0), TouchStart(10.0), TouchEnd(20.0), TouchEnd(30.0)], true)
    ensures 0 !in Fired([TouchStart(0.0), TouchStart(10.0), TouchEnd(20.0), TouchEnd(30.0)], true)
    ensures !LongPressWithin([TouchStart(0.0), TouchStart(10.0), TouchEnd(20.0), TouchEnd(30.0)], 4, 0)
  {
    var events := [TouchStart(0.0), TouchStart(10.0), TouchEnd(20.0), TouchEnd(30.0)];
    assert Run(events, 1, true, false) == Presses({0}, Some(0));
    assert Run(events, 2, true, false) == Presses({0, 1}, Some(1));
    assert Run(events, 3, true, false) == Presses({0}, Some(1));
    assert Run(events, 4, true, false) == Presses({0}, Some(1));
    assert Run(events, 1, true, true) == Presses({0}, Some(0));
    assert Run(events, 2, true, true) == Presses({1}, Some(1));
    assert Run(events, 3, true, true) == Presses({}, Some(1));
    assert Run(events, 4, true, true) == Presses({}, Some(1));
  }

  /** A single touch: released within 500 ms it is not a long press, held
      longer it is, in the code as written too. */
  lemma SingleTouch(release: real)
    requires release >= 0.0
    ensures release < 500.0 ==> FiredAsWritten([TouchStart(0.0), TouchEnd(release)], true) == {}
    ensures release >= 500.0 ==> FiredAsWritten([TouchStart(0.0), TouchEnd(release)], true) == {0}
  {
    var events := [TouchStart(0.0), TouchEnd(release)];
    assert Run(events, 1, true, false) == Presses({0}, Some(0));
  }
}
