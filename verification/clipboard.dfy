/**
 The clipboard lock hook: which `document` events get a blocking handler,
 what a handler does, and the symmetric teardown.
 */
module Clipboard {
  import opened Js

  /** The hook's options as passed; each flag defaults to `true`. */
  datatype Options = Options(blockCopy: Value, blockCut: Value, blockPaste: Value, blockContextMenu: Value, onBlock: Value)

  const AllEvents: set<string> := {"copy", "cut", "paste", "contextmenu"}

  function On(flag: Value): bool {
    Truthy(WithDefault(flag, Bool(true)))
  }

  /** The flag that governs `event`. */
  function FlagFor(o: Options, event: string): Value {
    if event == "copy" then o.blockCopy
    else if event == "cut" then o.blockCut
    else if event == "paste" then o.blockPaste
    else if event == "contextmenu" then o.blockContextMenu
    else Bool(false)
  }

  /** The events that get a handler; `hasDom` is the presence of both
      `window` and `document`. */
  function Registered(o: Options, hasDom: bool): (events: set<string>)
    ensures events <= AllEvents
    ensures forall e :: e in events <==> hasDom && e in AllEvents && On(FlagFor(o, e))
  {
    if !hasDom then {}
    else
      (if On(o.blockCopy) then {"copy"} else {})
      + (if On(o.blockCut) then {"cut"} else {})
      + (if On(o.blockPaste) then {"paste"} else {})
      + (if On(o.blockContextMenu) then {"contextmenu"} else {})
  }

  /** The order in which the cleanup tests its four handlers. */
  const CleanupOrder: seq<string> := ["copy", "cut", "paste", "contextmenu"]

  /** The cleanup's `if (xHandler) removeEventListener(...)` lines, one
      event of `order` at a time: a handler exists when its flag made the
      effect create one. */
  function RemovedFrom(o: Options, order: seq<string>): (events: set<string>)
    ensures forall e :: e in events <==> e in order && On(FlagFor(o, e))
  {
    if order == [] then {}
    else (if On(FlagFor(o, order[0])) then {order[0]} else {}) + RemovedFrom(o, order[1..])
  }

  /** The events the cleanup detaches a handler from. Without a DOM the
      effect returns early and there is no cleanup at all. */
  function Removed(o: Options, hasDom: bool): (events: set<string>)
    ensures forall e :: e in events <==> hasDom && e in AllEvents && On(FlagFor(o, e))
  {
    assert forall e :: e in CleanupOrder <==> e in AllEvents;
    if !hasDom then {} else RemovedFrom(o, CleanupOrder)
  }

  /** A listener on `document`: its event and the hook instance that owns
      the handler closure. */
  datatype Listener = Listener(event: string, owner: nat)

  function Handlers(events: set<string>, owner: nat): multiset<Listener> {
    multiset(set e | e in events :: Listener(e, owner))
  }

  /** One handler per event, all owned by `owner`. */
  lemma HandlersCount(events: set<string>, owner: nat)
    ensures forall e :: Handlers(events, owner)[Listener(e, owner)] == if e in events then 1 else 0
    ensures forall l: Listener :: l.owner != owner ==> Handlers(events, owner)[l] == 0
  {
    forall e
      ensures Handlers(events, owner)[Listener(e, owner)] == if e in events then 1 else 0
    {
      assert Listener(e, owner) in (set x | x in events :: Listener(x, owner)) <==> e in events;
    }
  }

  /** The effect adds this instance's handlers and touches nothing else. */
  function Mount(doc: multiset<Listener>, o: Options, hasDom: bool, owner: nat): (after: multiset<Listener>)
    ensures doc <= after
    ensures forall l: Listener :: l.owner != owner ==> after[l] == doc[l]
    ensures forall e :: Listener(e, owner) in after - doc <==> e in Registered(o, hasDom)
    ensures forall e :: after[Listener(e, owner)] == doc[Listener(e, owner)] + (if e in Registered(o, hasDom) then 1 else 0)
  {
    HandlersCount(Registered(o, hasDom), owner);
    doc + Handlers(Registered(o, hasDom), owner)
  }

  /** The cleanup detaches this instance's handlers and leaves the
      listeners of every other instance alone. */
  function Unmount(doc: multiset<Listener>, o: Options, hasDom: bool, owner: nat): (after: multiset<Listener>)
    ensures after <= doc
    ensures forall l: Listener :: l.owner != owner ==> after[l] == doc[l]
    ensures forall e :: e !in Removed(o, hasDom) ==> after[Listener(e, owner)] == doc[Listener(e, owner)]
    ensures forall e :: after[Listener(e, owner)] ==
              if e in Removed(o, hasDom) && doc[Listener(e, owner)] > 0 then doc[Listener(e, owner)] - 1 else doc[Listener(e, owner)]
  {
    HandlersCount(Removed(o, hasDom), owner);
    doc - Handlers(Removed(o, hasDom), owner)
  }

  /** A blocked event: `onBlock(eventType)` when it is a function, and the
      default is always prevented. */
  datatype Interception = Interception(calls: seq<string>, preventDefault: bool)

  function Intercept(o: Options, eventType: string): (r: Interception)
    ensures r.preventDefault
    ensures o.onBlock.Fn? ==> r.calls == [eventType]
    ensures !o.onBlock.Fn? ==> r.calls == []
  {
    Interception(if o.onBlock.Fn? then [eventType] else [], true)
  }

  /** The cleanup detaches exactly the handlers the effect attached, so
      mounting and unmounting leaves the listeners of `document` as they
      were. */
  lemma TeardownSymmetric(doc: multiset<Listener>, o: Options, hasDom: bool, owner: nat)
    ensures Removed(o, hasDom) == Registered(o, hasDom)
    ensures Unmount(Mount(doc, o, hasDom, owner), o, hasDom, owner) == doc
  {
  }

  /** With every option left out, all four events are blocked. */
  lemma DefaultsBlockEverything(onBlock: Value)
    ensures Registered(Options(Undefined, Undefined, Undefined, Undefined, onBlock), true) == AllEvents
  {
  }

  /** Without a DOM nothing is registered, whatever the options. */
  lemma NoDomNoHandlers(o: Options)
    ensures Registered(o, false) == {}
  {
  }

  /** An explicit `null` disables a flag, unlike a missing one. */
  lemma NullDisables(onBlock: Value)
    ensures "copy" !in Registered(Options(Null, Undefined, Undefined, Undefined, onBlock), true)
    ensures "copy" in Registered(Options(Undefined, Null, Null, Null, onBlock), true)
  {
  }
}
