/**
 The keyboard-ghosting hook: a reducer over keydown/keyup events that
 tracks the set of held keys and reports when four or more are held.
 */
module Ghosting {

  const HeldThreshold: nat := 4

  const Label: string := "keyboard-ghosting"

  datatype KeyEvent = KeyDown(key: string) | KeyUp(key: string)

  /** The held set after an event, whether the callback was called, and
      the labels it was called with. */
  datatype Reaction = Reaction(held: set<string>, fired: bool, calls: seq<string>)

  /** `down`: adds the key (a no-op for an auto-repeat) and reports when
      at least four distinct keys are held afterwards. */
  function Down(held: set<string>, key: string): (r: Reaction)
    ensures r.held == held + {key}
    ensures key in held ==> r.held == held
    ensures r.fired <==> |r.held| >= HeldThreshold
    ensures r.calls == (if r.fired then [Label] else [])
  {
    var next := held + {key};
    var fired := |next| >= HeldThreshold;
    Reaction(next, fired, if fired then [Label] else [])
  }

  /** `up`: removes the key, never reports. */
  function Up(held: set<string>, key: string): (r: Reaction)
    ensures r.held == held - {key}
    ensures key !in held ==> r.held == held
    ensures !r.fired && r.calls == []
  {
    Reaction(held - {key}, false, [])
  }

  function Step(held: set<string>, e: KeyEvent): Reaction {
    match e
    case KeyDown(k) => Down(held, k)
    case KeyUp(k) => Up(held, k)
  }

  /** The held set after a sequence of events, starting from the empty set
      the effect creates. */
  function Held(events: seq<KeyEvent>): set<string>
    decreases |events|
  {
    if events == [] then {}
    else Step(Held(events[..|events| - 1]), events[|events| - 1]).held
  }

  /** The number of events that report ghosting. */
  function Reports(events: seq<KeyEvent>): nat
    decreases |events|
  {
    if events == [] then 0
    else
      var init := events[..|events| - 1];
      Reports(init) + if Step(Held(init), events[|events| - 1]).fired then 1 else 0
  }

  /** Every callback invocation over a sequence of events, in order. */
  function Calls(events: seq<KeyEvent>): seq<string>
    decreases |events|
  {
    if events == [] then []
    else
      var init := events[..|events| - 1];
      Calls(init) + Step(Held(init), events[|events| - 1]).calls
  }

  /** Over any sequence of events the callback is called once per
      reporting event, and always with `keyboard-ghosting`. */
  lemma {:induction false} CallsAreLabelled(events: seq<KeyEvent>)
    ensures |Calls(events)| == Reports(events)
    ensures forall k :: 0 <= k < |Calls(events)| ==> Calls(events)[k] == Label
    decreases |events|
  {
    if events != [] {
      CallsAreLabelled(events[..|events| - 1]);
    }
  }

  /** Reference definition: a key is held when its most recent event in
      the sequence is a keydown. */
  predicate LastIsDown(events: seq<KeyEvent>, key: string)
    decreases |events|
  {
    if events == [] then false
    else if events[|events| - 1].key == key then events[|events| - 1].KeyDown?
    else LastIsDown(events[..|events| - 1], key)
  }

  /** The reducer holds exactly the keys whose last event was a keydown. */
  lemma {:induction false} HeldIsLastDown(events: seq<KeyEvent>, key: string)
    ensures key in Held(events) <==> LastIsDown(events, key)
    decreases |events|
  {
    if events != [] {
      HeldIsLastDown(events[..|events| - 1], key);
    }
  }

  /** Every held key was pressed at some point of the sequence. */
  lemma {:induction false} HeldWerePressed(events: seq<KeyEvent>, key: string)
    requires key in Held(events)
    ensures KeyDown(key) in events
    decreases |events|
  {
    var init := events[..|events| - 1];
    if events[|events| - 1] != KeyDown(key) {
      HeldWerePressed(init, key);
      assert KeyDown(key) in init;
    }
  }

  /** A keyup never reports, even with many keys held. */
  lemma KeyupNeverReports(events: seq<KeyEvent>, key: string)
    ensures Reports(events + [KeyUp(key)]) == Reports(events)
  {
  }

  /** Holding four distinct keys reports on the fourth keydown, and an
      auto-repeat of any of them keeps reporting. */
  lemma FourKeysReport()
    ensures Down({"a", "b", "c"}, "d").fired
    ensures Down({"a", "b", "c", "d"}, "d").fired
    ensures !Down({"a", "b"}, "c").fired
    ensures !Down({"a", "b", "c"}, "c").fired
  {
  }
}
