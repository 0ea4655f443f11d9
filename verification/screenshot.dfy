/**
 The screenshot-blocking hook: the keydown classifier (PrintScreen and
 Ctrl+P) and the image context-menu classifier.
 */
module Screenshot {
  import opened Js

  /** The hook's options as passed; both flags default to `true`. */
  datatype Options = Options(blockPrintScreen: Value, blockImageSave: Value, onScreenshotAttempt: Value)

  datatype KeyEvent = KeyEvent(key: string, ctrl: bool)

  /** A callback invocation, or the TypeError of calling a truthy value
      that is not a function. */
  datatype Call = Attempt(kind: string) | NotCallable

  datatype Handling = Handling(preventDefault: bool, calls: seq<Call>)

  function On(flag: Value): bool {
    Truthy(WithDefault(flag, Bool(true)))
  }

  /** `if (onScreenshotAttempt) onScreenshotAttempt(kind)` */
  function Notify(o: Options, kind: string): seq<Call> {
    if !Truthy(o.onScreenshotAttempt) then []
    else if o.onScreenshotAttempt.Fn? then [Attempt(kind)]
    else [NotCallable]
  }

  /** `handleKeydown` */
  function HandleKeydown(o: Options, e: KeyEvent): (h: Handling)
    ensures h.preventDefault <==> On(o.blockPrintScreen) && (e.key == "PrintScreen" || (e.ctrl && e.key == "p"))
    ensures Attempt("printscreen") in h.calls <==>
              On(o.blockPrintScreen) && e.key == "PrintScreen" && o.onScreenshotAttempt.Fn?
    ensures forall c :: c in h.calls ==> c == Attempt("printscreen") || c == NotCallable
    ensures |h.calls| <= 1
    ensures e.key != "PrintScreen" ==> h.calls == []
    ensures !Truthy(o.onScreenshotAttempt) ==> h.calls == []
    ensures NotCallable in h.calls <==>
              On(o.blockPrintScreen) && e.key == "PrintScreen" && Truthy(o.onScreenshotAttempt) && !o.onScreenshotAttempt.Fn?
  {
    var printScreen := On(o.blockPrintScreen) && e.key == "PrintScreen";
    var printShortcut := On(o.blockPrintScreen) && e.ctrl && e.key == "p";
    Handling(printScreen || printShortcut, if printScreen then Notify(o, "printscreen") else [])
  }

  /** `handleContextMenu` on a target with the given `tagName`. */
  function HandleContextMenu(o: Options, tagName: string): (h: Handling)
    ensures !On(o.blockImageSave) ==> h == Handling(false, [])
    ensures h.preventDefault <==> On(o.blockImageSave) && (tagName == "IMG" || tagName == "CANVAS")
    ensures Attempt("contextmenu-image") in h.calls <==> h.preventDefault && o.onScreenshotAttempt.Fn?
    ensures forall c :: c in h.calls ==> c == Attempt("contextmenu-image") || c == NotCallable
    ensures |h.calls| <= 1
    ensures !h.preventDefault ==> h.calls == []
    ensures !Truthy(o.onScreenshotAttempt) ==> h.calls == []
    ensures NotCallable in h.calls <==> h.preventDefault && Truthy(o.onScreenshotAttempt) && !o.onScreenshotAttempt.Fn?
  {
    if !On(o.blockImageSave) then Handling(false, [])
    else if tagName == "IMG" || tagName == "CANVAS" then Handling(true, Notify(o, "contextmenu-image"))
    else Handling(false, [])
  }

  // ---------------------------------------------------------------------
  // Sequences of events
  // ---------------------------------------------------------------------

  /** Every callback invocation over a sequence of keydowns, in order. */
  function KeydownCalls(o: Options, keys: seq<KeyEvent>): seq<Call>
    decreases |keys|
  {
    if keys == [] then []
    else KeydownCalls(o, keys[..|keys| - 1]) + HandleKeydown(o, keys[|keys| - 1]).calls
  }

  /** Reference count: the PrintScreen keydowns of a sequence. */
  function PrintScreens(keys: seq<KeyEvent>): nat
    decreases |keys|
  {
    if keys == [] then 0
    else PrintScreens(keys[..|keys| - 1]) + if keys[|keys| - 1].key == "PrintScreen" then 1 else 0
  }

  /** With blocking on and a function callback, the callback hears
      `printscreen` once per PrintScreen key and nothing else; with
      blocking off or no callback it hears nothing. */
  lemma {:induction false} KeydownReportsArePrintScreens(o: Options, keys: seq<KeyEvent>)
    ensures On(o.blockPrintScreen) && o.onScreenshotAttempt.Fn? ==>
              |KeydownCalls(o, keys)| == PrintScreens(keys)
              && forall k :: 0 <= k < |KeydownCalls(o, keys)| ==> KeydownCalls(o, keys)[k] == Attempt("printscreen")
    ensures !On(o.blockPrintScreen) || !Truthy(o.onScreenshotAttempt) ==> KeydownCalls(o, keys) == []
    decreases |keys|
  {
    if keys != [] {
      KeydownReportsArePrintScreens(o, keys[..|keys| - 1]);
    }
  }

  /** Every callback invocation over a sequence of right-clicks, given by
      the tag names of their targets. */
  function ContextMenuCalls(o: Options, tags: seq<string>): seq<Call>
    decreases |tags|
  {
    if tags == [] then []
    else ContextMenuCalls(o, tags[..|tags| - 1]) + HandleContextMenu(o, tags[|tags| - 1]).calls
  }

  /** Reference count: the right-clicks on an image or a canvas. */
  function ImageTargets(tags: seq<string>): nat
    decreases |tags|
  {
    if tags == [] then 0
    else ImageTargets(tags[..|tags| - 1]) + if tags[|tags| - 1] in {"IMG", "CANVAS"} then 1 else 0
  }

  /** With image blocking on and a function callback, the callback hears
      `contextmenu-image` once per image or canvas right-click and nothing
      else; with blocking off or no callback it hears nothing. */
  lemma {:induction false} ContextMenuReportsAreImages(o: Options, tags: seq<string>)
    ensures On(o.blockImageSave) && o.onScreenshotAttempt.Fn? ==>
              |ContextMenuCalls(o, tags)| == ImageTargets(tags)
              && forall k :: 0 <= k < |ContextMenuCalls(o, tags)| ==> ContextMenuCalls(o, tags)[k] == Attempt("contextmenu-image")
    ensures !On(o.blockImageSave) || !Truthy(o.onScreenshotAttempt) ==> ContextMenuCalls(o, tags) == []
    decreases |tags|
  {
    if tags != [] {
      ContextMenuReportsAreImages(o, tags[..|tags| - 1]);
    }
  }

  /** Ctrl+P is blocked but never reported. */
  lemma CtrlPIsSilent(o: Options)
    ensures HandleKeydown(o, KeyEvent("p", true)).calls == []
    ensures HandleKeydown(o, KeyEvent("p", true)).preventDefault <==> On(o.blockPrintScreen)
    ensures !HandleKeydown(o, KeyEvent("P", true)).preventDefault
  {
  }

  /** With the options left out, PrintScreen is reported with the
      `printscreen` kind and an image right-click with `contextmenu-image`. */
  lemma DefaultsBlockBoth(cb: nat)
    ensures HandleKeydown(Options(Undefined, Undefined, Fn(cb)), KeyEvent("PrintScreen", false))
         == Handling(true, [Attempt("printscreen")])
    ensures HandleContextMenu(Options(Undefined, Undefined, Fn(cb)), "CANVAS")
         == Handling(true, [Attempt("contextmenu-image")])
    ensures HandleContextMenu(Options(Undefined, Undefined, Fn(cb)), "img") == Handling(false, [])
  {
  }
}
