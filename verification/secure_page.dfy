/**
 What `SecurePage` derives from the security context: blur, pointer
 blocking, noise, watermark and lock overlay, the watermark text, the
 event name shown in the overlay and whether the unlock button appears.
 */
module SecurePage {
  import opened Js
  import Security
  import Policy

  /** The context value a page reads. */
  datatype Context = Context(
    suspicious: bool,
    locked: bool,
    lastEvent: Option<string>,
    unlock: Value,
    config: Object)

  /** The context the provider publishes: its state, its `unlock` function
      and the merged policy as `config`. */
  function FromProvider(policy: Object, s: Security.State): Context {
    Context(s.suspicious, s.locked, s.lastEvent, Fn(0), policy)
  }

  /** The per-event watermark strings. */
  const EventText: map<string, string> := map[
    "screenshot" := "Screenshot detected — Protected content",
    "ai_screenshot" := "AI Screenshot Detection Triggered",
    "devtools" := "DevTools Detected",
    "clipboard" := "Copy Attempt Blocked",
    "ghosting" := "Ghost Keystroke Detected",
    "keystroke_tamper" := "Keystroke Tampering Detected",
    "vpn_detected" := "VPN/Proxy Connection Identified"
  ]

  const DefaultText: string := "Protected Content"

  function ShowBlur(ctx: Context): bool {
    ctx.suspicious
  }

  function PointerEventsBlocked(ctx: Context): bool {
    ctx.locked
  }

  /** `locked && (config.showLockOverlay ?? true)`, rendered when truthy. */
  function ShowLockOverlay(ctx: Context): (shown: bool)
    ensures shown ==> ctx.locked
    ensures Nullish(Get(ctx.config, "showLockOverlay")) ==> (shown <==> ctx.locked)
    ensures !Nullish(Get(ctx.config, "showLockOverlay")) ==> (shown <==> ctx.locked && Truthy(Get(ctx.config, "showLockOverlay")))
  {
    ctx.locked && Truthy(Coalesce(Get(ctx.config, "showLockOverlay"), Bool(true)))
  }

  /** `config[flag] ?? false`, the rule for `noiseOverlay` and
      `enableWatermark`. */
  function OffByDefault(config: Object, flag: string): (on: bool)
    ensures on <==> Truthy(Get(config, flag))
  {
    Truthy(Coalesce(Get(config, flag), Bool(false)))
  }

  /** `eventWatermarkText[lastEvent]`: `null` reads the key "null", which the
      table does not have. */
  function LookupEventText(lastEvent: Option<string>): Value {
    if lastEvent.Some? && lastEvent.value in EventText then Str(EventText[lastEvent.value]) else Undefined
  }

  /** `eventWatermarkText[lastEvent] || config.watermarkText || 'Protected Content'`. */
  function WatermarkText(lastEvent: Option<string>, config: Object): (text: Value)
    ensures Truthy(text)
    ensures lastEvent.Some? && lastEvent.value in EventText ==> text == Str(EventText[lastEvent.value])
    ensures LookupEventText(lastEvent).Undefined? && Truthy(Get(config, "watermarkText")) ==> text == Get(config, "watermarkText")
    ensures LookupEventText(lastEvent).Undefined? && !Truthy(Get(config, "watermarkText")) ==> text == Str(DefaultText)
  {
    Or(Or(LookupEventText(lastEvent), Get(config, "watermarkText")), Str(DefaultText))
  }

  /** The corner badge renders when `lastEvent` is truthy. */
  function ShowCornerBadge(ctx: Context): (shown: bool)
    ensures shown <==> ctx.lastEvent.Some? && Truthy(Str(ctx.lastEvent.value))
  {
    ctx.lastEvent.Some? && ctx.lastEvent.value != []
  }

  /** The unlock button sits inside the page's lock overlay and needs
      `config.showUnlockButton !== false` and a function `unlock`. */
  function ShowUnlockButton(ctx: Context): (shown: bool)
    ensures shown ==> ShowLockOverlay(ctx) && ctx.unlock.Fn?
    ensures Get(ctx.config, "showUnlockButton") == Bool(false) ==> !shown
  {
    && ShowLockOverlay(ctx)
    && Get(ctx.config, "showUnlockButton") != Bool(false)
    && ctx.unlock.Fn?
  }

  /** The position of the first `c` in `s`, if any. */
  function FirstIndex(s: string, c: char): (k: Option<nat>)
    ensures k.None? <==> c !in s
    ensures k.Some? ==> k.value < |s| && s[k.value] == c
    ensures k.Some? ==> forall j :: 0 <= j < k.value ==> s[j] != c
  {
    if s == [] then None
    else if s[0] == c then Some(0)
    else
      var rest := FirstIndex(s[1..], c);
      assert s == [s[0]] + s[1..];
      if rest.None? then None else Some(rest.value + 1)
  }

  /** `String.prototype.replace` with a one-character string pattern:
      only the first occurrence is replaced. */
  function ReplaceFirst(s: string, from: char, to: char): (r: string)
    ensures |r| == |s|
    ensures forall i :: 0 <= i < |s| && s[i] != from ==> r[i] == s[i]
    ensures forall i :: 0 <= i < |s| && s[i] == from ==>
              r[i] == (if forall j :: 0 <= j < i ==> s[j] != from then to else from)
  {
    match FirstIndex(s, from)
    case None => s
    case Some(k) =>
      var r := s[..k] + [to] + s[k + 1..];
      assert forall i :: 0 <= i < k ==> s[..k][i] == s[i];
      r
  }

  /** `lastEvent?.replace('_', ' ')` */
  function DisplayEvent(lastEvent: Option<string>): (shown: Option<string>)
    ensures shown.None? <==> lastEvent.None?
    ensures shown.Some? ==> |shown.value| == |lastEvent.value|
    ensures lastEvent.Some? && '_' !in lastEvent.value ==> shown == lastEvent
  {
    if lastEvent.None? then None else Some(ReplaceFirst(lastEvent.value, '_', ' '))
  }

  // ---------------------------------------------------------------------
  // Derivations
  // ---------------------------------------------------------------------

  /** Blur follows suspicion and pointer blocking follows the lock,
      exactly; the page's lock overlay needs the lock. */
  lemma DerivationsFollowState(ctx: Context)
    ensures ShowBlur(ctx) <==> ctx.suspicious
    ensures PointerEventsBlocked(ctx) <==> ctx.locked
    ensures ShowLockOverlay(ctx) ==> ctx.locked
  {
  }

  /** The page's lock overlay defaults to shown: a missing or `null`
      `showLockOverlay` counts as true, an explicit `false` (or any other
      falsy value) hides it, and any truthy value shows it. */
  lemma LockOverlayDefault(ctx: Context)
    ensures Nullish(Get(ctx.config, "showLockOverlay")) ==> (ShowLockOverlay(ctx) <==> ctx.locked)
    ensures !Nullish(Get(ctx.config, "showLockOverlay")) ==>
              (ShowLockOverlay(ctx) <==> ctx.locked && Truthy(Get(ctx.config, "showLockOverlay")))
  {
  }

  /** Noise and watermark default to off, so `?? false` decides nothing that
      truthiness alone would not. */
  lemma NoiseAndWatermarkDefaultOff(config: Object)
    ensures OffByDefault(config, "noiseOverlay") <==> Truthy(Get(config, "noiseOverlay"))
    ensures OffByDefault(config, "enableWatermark") <==> Truthy(Get(config, "enableWatermark"))
    ensures "noiseOverlay" !in config ==> !OffByDefault(config, "noiseOverlay")
    ensures "enableWatermark" !in config ==> !OffByDefault(config, "enableWatermark")
  {
  }

  /** The unlock button: only the literal `false` hides it, and with the
      provider's function `unlock` it shows whenever the page's overlay
      does. */
  lemma UnlockButtonRule(ctx: Context)
    ensures Get(ctx.config, "showUnlockButton") == Bool(false) ==> !ShowUnlockButton(ctx)
    ensures !ctx.unlock.Fn? ==> !ShowUnlockButton(ctx)
    ensures (ctx.unlock.Fn? && Get(ctx.config, "showUnlockButton") != Bool(false)) ==> (ShowUnlockButton(ctx) <==> ShowLockOverlay(ctx))
  {
  }

  /** The event labels the table has no entry for fall back to the
      configured text or the default one. */
  lemma UnlistedEventsFallBack(config: Object)
    ensures WatermarkText(Some("inspect_key"), config) == WatermarkText(None, config)
    ensures WatermarkText(Some("context_menu_blocked"), config) == WatermarkText(None, config)
    ensures WatermarkText(Some("zoom_devtools_detected"), config) == WatermarkText(None, config)
    ensures WatermarkText(None, map[]) == Str(DefaultText)
    ensures WatermarkText(None, map["watermarkText" := Str("")]) == Str(DefaultText)
  {
  }

  /** Every label the table lacks resolves exactly as no event at all. */
  lemma UnlistedEventIsNoEvent(event: string, config: Object)
    requires event !in EventText
    ensures WatermarkText(Some(event), config) == WatermarkText(None, config)
  {
  }

  /** A listed label's text does not depend on the configuration. */
  lemma ListedEventIgnoresConfig(event: string, config: Object, other: Object)
    requires event in EventText
    ensures WatermarkText(Some(event), config) == WatermarkText(Some(event), other)
  {
  }

  /** A listed event wins over any configured text. */
  lemma ListedEventWins(config: Object)
    ensures WatermarkText(Some("ai_screenshot"), config) == Str("AI Screenshot Detection Triggered")
    ensures WatermarkText(Some("devtools"), config) == Str("DevTools Detected")
  {
  }

  /** `FirstIndex` finds the earliest occurrence. */
  lemma FirstIndexAt(s: string, c: char, k: nat)
    requires k < |s| && s[k] == c
    requires forall i :: 0 <= i < k ==> s[i] != c
    ensures FirstIndex(s, c) == Some(k)
  {
  }

  /** Replacing at a known first occurrence splices `to` in at that
      position and keeps everything before and after it. */
  lemma ReplaceAt(s: string, from: char, to: char, k: nat)
    requires k < |s| && s[k] == from
    requires forall i :: 0 <= i < k ==> s[i] != from
    ensures ReplaceFirst(s, from, to) == s[..k] + [to] + s[k + 1..]
  {
  }

  /** Only the first underscore of an event name becomes a space, so
      `mobile_long_press_inspect` is shown as `mobile long_press_inspect`. */
  lemma DisplayedEventName(head: string, tail: string)
    requires '_' !in head
    ensures DisplayEvent(Some(head + "_" + tail)) == Some(head + " " + tail)
  {
    var s := head + "_" + tail;
    assert s[|head|] == '_';
    assert forall i :: 0 <= i < |head| ==> s[i] == head[i];
    ReplaceAt(s, '_', ' ', |head|);
    assert s[..|head|] == head;
    assert s[|head| + 1..] == tail;
  }

  /** An event name without an underscore is shown as it is. */
  lemma DisplayedEventNameUnchanged()
    ensures DisplayEvent(Some("devtools")) == Some("devtools")
    ensures DisplayEvent(None) == None
  {
  }

  // ---------------------------------------------------------------------
  // The page over the provider's context
  // ---------------------------------------------------------------------

  /** The page's overlay and the provider's overlay agree whenever the
      merged policy has a non-null `showLockOverlay`, as every preset does. */
  lemma OverlaysAgree(policy: Object, s: Security.State)
    requires !Nullish(Get(policy, "showLockOverlay"))
    ensures ShowLockOverlay(FromProvider(policy, s)) == Security.ProviderLockOverlay(policy, s)
  {
  }

  /** They disagree on an explicit nullish override: the page's `??` shows
      its overlay while the provider's truthiness test hides its own. An
      own `undefined` in the config spreads over the preset's value. */
  lemma OverlaysDisagreeOnNullish(level: string, s: Security.State, v: Value)
    requires s.locked && Nullish(v)
    ensures ShowLockOverlay(FromProvider(Policy.Merge(level, map["showLockOverlay" := v]), s))
    ensures !Security.ProviderLockOverlay(Policy.Merge(level, map["showLockOverlay" := v]), s)
  {
  }

  /** With a preset's own `showLockOverlay`, both overlays follow the lock;
      for `low` neither ever shows. */
  lemma PresetOverlays(level: string, s: Security.State)
    ensures ShowLockOverlay(FromProvider(Policy.Merge(level, map[]), s))
            == Security.ProviderLockOverlay(Policy.Merge(level, map[]), s)
    ensures level == "low" ==> !ShowLockOverlay(FromProvider(Policy.Merge(level, map[]), s))
    ensures level != "low" ==> (ShowLockOverlay(FromProvider(Policy.Merge(level, map[]), s)) <==> s.locked)
  {
  }

  /** Over any consistent provider state with non-empty labels, the corner
      badge shows exactly when the content is blurred. */
  lemma BadgeFollowsBlur(policy: Object, s: Security.State)
    requires Security.Consistent(s)
    requires s.lastEvent.Some? ==> s.lastEvent.value != []
    ensures ShowCornerBadge(FromProvider(policy, s)) <==> ShowBlur(FromProvider(policy, s))
  {
  }

  /** Over the provider's context the button follows the page's overlay
      unless the policy says `showUnlockButton: false`; a lock raised by
      `markSuspicious` shows it, and the provider's `unlock` hides it again
      while the blur stays. */
  lemma UnlockButtonRoundTrip(policy: Object, s: Security.State, event: string)
    ensures ShowUnlockButton(FromProvider(policy, s))
            <==> ShowLockOverlay(FromProvider(policy, s)) && Get(policy, "showUnlockButton") != Bool(false)
    ensures (&& Truthy(Get(policy, "lockOnSuspicious"))
             && (Nullish(Get(policy, "showLockOverlay")) || Truthy(Get(policy, "showLockOverlay")))
             && Get(policy, "showUnlockButton") != Bool(false))
            ==> ShowUnlockButton(FromProvider(policy, Security.MarkSuspicious(policy, s, event).state))
    ensures !ShowUnlockButton(FromProvider(policy, Security.Unlock(s)))
    ensures !ShowLockOverlay(FromProvider(policy, Security.Unlock(s)))
    ensures ShowBlur(FromProvider(policy, Security.Unlock(s))) == ShowBlur(FromProvider(policy, s))
  {
  }
}
