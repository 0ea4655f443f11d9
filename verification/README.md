# bonhomie-react-security, modelled in Dafny

This project models the decision logic of bonhomie-react-security. The
library is a set of React hooks and components that watch a browser page
for "suspicious" activity and react to it. Watched activity includes:

- devtools being opened;
- keystrokes arriving too fast;
- several keys held down at once;
- clipboard use;
- screenshot keys;
- route tampering;
- frame freezes.

The reactions are blurring and locking the page and calling the
application's callbacks.

There is no DOM, React or timer here. Each hook or component becomes a
pure function, or a reducer over an explicit sequence of events:

- key events;
- touch events with time stamps;
- boolean devtools samples;
- keydown time stamps;
- animation-frame time stamps.

JavaScript values that the code inspects loosely are modelled by
`Js.Value`. That covers callbacks, config entries and event labels. `Js`
defines truthiness, `??`, `||`, destructuring defaults and property reads
on a plain object. Calling a truthy value that is not a function throws a
TypeError in JavaScript. The model records this as an explicit
`NotCallable` effect that ends the handler.

Modules:

- `Js`: JavaScript values and the operators the code relies on.
- `Policy`: the three security presets and the override-wins merge.
- `Security`: the provider's state `(suspicious, locked, lastEvent)`, with `markSuspicious` and `unlock` as a reducer that also emits callback effects.
- `SecurePage`: the page wrapper's derivations. These are blur, pointer blocking, overlays, watermark text, the displayed event name and the unlock button.
- `BlockInspect`: the inspect-key classifier, the context-menu and zoom rules, and the long-press timer rule.
- `Devtools`: the window-size predicate and the edge-triggered sampler.
- `Keystroke`: the rapid-keystroke counter.
- `Ghosting`: the held-key set.
- `Clipboard`: listener registration, the blocking handler, and teardown.
- `Screenshot`: the PrintScreen / Ctrl+P and image context-menu classifiers.
- `RouteGuard`: the allow-list decision.
- `FreezeDetector`: the animation-frame freeze loop.

## Behaviour worth knowing

- `markSuspicious` has no error isolation. If `onDetect` throws, `onLogout` is not called. An `onDetect` that is truthy but not a function throws before `onLogout`.
- The lock overlay in `SecurePage` is suppressed only when `showLockOverlay` is not nullish and is falsy. The provider's own overlay uses plain truthiness, so the two differ on a nullish override: `null`, or an own `undefined` spread over the preset (`SecurePage.OverlaysDisagreeOnNullish`).
- `createAIScreenshotDetector` calls its callback without a guard. A missing callback throws at the first freeze, which skips requesting the next frame and ends the loop.
- A truthy `onBlock` in the route guard that is not a function throws before `navigate` and before `prevPath` is updated.
- The keystroke counter is cumulative: `rapidCount` never resets. It does not count consecutive rapid intervals.
- An empty `config.watermarkText` falls through to the default text, because the code uses `||`.

## Model

| member | source | states |
|---|---|---|
| Js.CoalesceVersusOr | src/components/SecurePage.jsx:13-31 | `a ?? b` and `a \|\| b` agree exactly when `a` is truthy, nullish, or equal to `b`; they differ on `false`, `0` and `""` |
| Js.DefaultVersusCoalesce | src/hooks/useDevtoolsDetect.js:7-8 | a destructuring default and `??` agree except when the value is `null`, which only `??` replaces |
| Policy.Preset | src/provider/ReactSecurityProvider.jsx:33-85 | the defaults always carry all ten flags, are one of the three presets, and are `medium` for any level that is not `low`, `medium` or `high` |
| Policy.Merge | src/provider/ReactSecurityProvider.jsx:84-87 | the merged policy has the ten flags plus the config keys; every config key wins; every other flag comes from the preset |
| Policy.PresetsMonotone | src/provider/ReactSecurityProvider.jsx:33-70 | every flag true in `low` is true in `medium`, and every flag true in `medium` is true in `high` |
| Policy.PresetsDiffer | src/provider/ReactSecurityProvider.jsx:33-70 | `lockOnSuspicious` is on exactly when the level is not `low`; `autoLogout` is on exactly for `high` |
| Policy.UnknownLevelIsMedium | src/provider/ReactSecurityProvider.jsx:85 | with any config, an unknown level merges exactly as `medium` |
| Policy.MergeReadsOverrideFirst | src/provider/ReactSecurityProvider.jsx:86 | reading a flag from the merged policy gives the config's value if it has the key, and the preset's value otherwise |
| Policy.MergeWithoutOverrides | src/provider/ReactSecurityProvider.jsx:84-87 | with an empty config the merged policy is the preset itself |
| Policy.OverrideOneFlag | src/provider/ReactSecurityProvider.jsx:86 | overriding one flag of `low` changes that flag and nothing else |
| Policy.MergeIdempotent | src/provider/ReactSecurityProvider.jsx:86 | spreading the config again over the merged policy changes nothing |
| Policy.PresetAsWritten | src/provider/ReactSecurityProvider.jsx:85 | the preset lookup as written: own levels give their preset, inherited property names give no flags at all, other names give `medium` |
| Policy.MergeAsWritten | src/provider/ReactSecurityProvider.jsx:84-87 | the merge as written has exactly the config keys and the keys of the looked-up defaults; every config key wins, and every other key reads the looked-up default |
| Policy.InheritedLevelDropsPreset | src/provider/ReactSecurityProvider.jsx:85 | level `toString` yields a policy with no flags as written, while the corrected merge falls back to `medium` |
| Policy.MergeAsWrittenAgrees | src/provider/ReactSecurityProvider.jsx:84-87 | for every level that is not an inherited property name, the merge as written equals the corrected merge |
| Security.Notify | src/provider/ReactSecurityProvider.jsx:113-114 | `onDetect(t)` is called iff it is a function; `onLogout(t)` iff `autoLogout` is truthy, `onLogout` is a function and `onDetect` did not throw; each at most once, `onDetect` first, every call carrying `t`; a TypeError occurs exactly when a called callback is truthy but not a function, ends the list, and with no callbacks configured nothing happens |
| Security.MarkSuspicious | src/provider/ReactSecurityProvider.jsx:107-117 | afterwards `suspicious` holds and `lastEvent` is `t`; `locked` holds iff it held before or `lockOnSuspicious` is truthy; the effects are those of `Notify` |
| Security.Unlock | src/provider/ReactSecurityProvider.jsx:119-122 | clears `locked` and leaves `suspicious` and `lastEvent` as they were |
| Security.UnlockIdempotent | src/provider/ReactSecurityProvider.jsx:119-122 | unlocking twice is the same as unlocking once |
| Security.ProviderLockOverlay | src/provider/ReactSecurityProvider.jsx:218 | the provider's overlay is shown iff `locked` holds and `showLockOverlay` is truthy |
| Security.StepConsistent | src/provider/ReactSecurityProvider.jsx:107-122 | each operation keeps "locked implies suspicious" and "suspicious iff a last event is recorded" |
| Security.RunAppend | src/provider/ReactSecurityProvider.jsx:107-122 | running two operation sequences one after the other equals running their concatenation |
| Security.RunConsistent | src/provider/ReactSecurityProvider.jsx:77-122 | from a consistent state, in particular the initial one, every sequence of operations keeps the state consistent |
| Security.SuspicionSticky | src/provider/ReactSecurityProvider.jsx:107-122 | once suspicious with a recorded event, the state stays suspicious with a recorded event under any operations |
| Security.SuspiciousIffMarked | src/provider/ReactSecurityProvider.jsx:77-122 | from the initial state, the state is suspicious iff the sequence contains at least one `markSuspicious` |
| Security.NeverLocksWithoutPolicy | src/provider/ReactSecurityProvider.jsx:112 | with `lockOnSuspicious` falsy, an unlocked state never becomes locked |
| Security.LastWriterWins | src/provider/ReactSecurityProvider.jsx:110 | after `markSuspicious(t)` followed by any number of unlocks, `lastEvent` is `t` |
| Security.ReleasesKeepEvent | src/provider/ReactSecurityProvider.jsx:119-122 | any number of unlocks leaves `suspicious` and `lastEvent` untouched |
| Security.LogoutsBoundedByMarks | src/provider/ReactSecurityProvider.jsx:113-114 | over any sequence of operations there are no more `onLogout` calls than `markSuspicious` calls, at most two callbacks per mark, and no `onLogout` when `autoLogout` is falsy |
| Security.HighLevelDevtools | src/provider/ReactSecurityProvider.jsx:58-70 | under `high` with an `onLogout`, a devtools detection locks and calls `onLogout("devtools")` |
| Security.LowLevelClipboard | src/provider/ReactSecurityProvider.jsx:34-45 | under `low`, a clipboard detection marks the state suspicious without locking and calls nothing |
| Security.NonFunctionOnDetectSkipsLogout | src/provider/ReactSecurityProvider.jsx:113-114 | an `onDetect` of `true` throws, so `onLogout` is never reached although `autoLogout` is on |
| SecurePage.WatermarkText | src/components/SecurePage.jsx:18-31 | the text is always truthy; it is the table entry for `lastEvent` when there is one, else a truthy `config.watermarkText`, else `Protected Content` |
| SecurePage.ShowLockOverlay | src/components/SecurePage.jsx:13 | the overlay needs `locked`; a nullish `showLockOverlay` shows it whenever locked, any other value only when truthy |
| SecurePage.OffByDefault | src/components/SecurePage.jsx:14-15 | noise and watermark are each on iff their config value is truthy |
| SecurePage.ShowCornerBadge | src/components/SecurePage.jsx:84 | the badge renders iff `lastEvent` is a truthy string |
| SecurePage.ShowUnlockButton | src/components/SecurePage.jsx:163-164 | the button needs the page's overlay and a function `unlock`, and `showUnlockButton: false` hides it |
| SecurePage.DisplayEvent | src/components/SecurePage.jsx:158 | no event shows nothing; a shown name has the label's length, and a label without `_` is shown unchanged |
| SecurePage.UnlistedEventIsNoEvent | src/components/SecurePage.jsx:18-31 | every label the table lacks resolves to the same text as no event |
| SecurePage.ListedEventIgnoresConfig | src/components/SecurePage.jsx:18-31 | a listed label's text is the same under every configuration |
| SecurePage.UnlockButtonRoundTrip | src/components/SecurePage.jsx:163-164 | over the provider's context the button follows the overlay unless disabled; a lock raised by `markSuspicious` shows it when the policy allows, and `unlock` hides button and overlay while the blur stays |
| SecurePage.DerivationsFollowState | src/components/SecurePage.jsx:12-39 | blur is shown iff `suspicious`; pointer events are blocked iff `locked`; the lock overlay needs `locked` |
| SecurePage.LockOverlayDefault | src/components/SecurePage.jsx:13 | a missing or `null` `showLockOverlay` shows the overlay iff `locked`; any other value shows it iff `locked` and the value is truthy |
| SecurePage.NoiseAndWatermarkDefaultOff | src/components/SecurePage.jsx:14-15 | noise and watermark are on iff their config values are truthy, so they are off when the keys are missing |
| SecurePage.UnlockButtonRule | src/components/SecurePage.jsx:163-164 | the button is hidden when `showUnlockButton` is `false` or `unlock` is not a function, and otherwise shown exactly with the lock overlay |
| SecurePage.UnlistedEventsFallBack | src/components/SecurePage.jsx:18-31 | `inspect_key`, `context_menu_blocked` and `zoom_devtools_detected` resolve as if no event had happened; an empty config text falls through to the default |
| SecurePage.ListedEventWins | src/components/SecurePage.jsx:18-31 | a listed event's text wins over any config text |
| SecurePage.FirstIndex | src/components/SecurePage.jsx:158 | finds the first occurrence of a character, and finds none iff it does not occur |
| SecurePage.FirstIndexAt | src/components/SecurePage.jsx:158 | an occurrence with no earlier occurrence is the one found |
| SecurePage.ReplaceFirst | src/components/SecurePage.jsx:158 | replacing keeps the length and every other character; an occurrence is replaced iff it is the first |
| SecurePage.ReplaceAt | src/components/SecurePage.jsx:158 | replacing is splicing the new character in at the first occurrence |
| SecurePage.DisplayedEventName | src/components/SecurePage.jsx:158 | an event `head_tail` with no `_` in `head` is displayed as `head tail`; later underscores stay |
| SecurePage.DisplayedEventNameUnchanged | src/components/SecurePage.jsx:158 | a label without `_` is shown unchanged, and no event shows nothing |
| SecurePage.OverlaysAgree | src/components/SecurePage.jsx:13 | when `showLockOverlay` is not nullish, the page's overlay and the provider's overlay are shown together |
| SecurePage.OverlaysDisagreeOnNullish | src/components/SecurePage.jsx:13 | under any level, overriding `showLockOverlay` with `null` or `undefined` in a locked state makes the page show its overlay while the provider does not |
| SecurePage.PresetOverlays | src/components/SecurePage.jsx:13 | with no overrides the page's overlay is never shown under `low` and is shown iff locked under the other levels |
| SecurePage.BadgeFollowsBlur | src/components/SecurePage.jsx:84 | in a consistent state with non-empty labels, the corner badge is shown iff blur is shown |
| BlockInspect.MarkEvent | src/components/BlockInspect.jsx:13-17 | the label is passed on iff a context exists and its `markSuspicious` is a function |
| BlockInspect.KeyLabels | src/components/BlockInspect.jsx:21-39 | at most one label per key; `inspect_key` iff F12; `inspect_key_combo` iff Ctrl+Shift with `I` or `J`; `view_source_attempt` iff Ctrl with `U`; no label iff none of the three tests holds |
| BlockInspect.HandleKey | src/components/BlockInspect.jsx:21-39 | the default is prevented iff a label applies, whatever the context; with a usable context exactly that label is marked, and without one nothing is |
| BlockInspect.SessionMarksRaisedLabels | src/components/BlockInspect.jsx:13-17 | over any sequence of key, context-menu and resize events, a function `markSuspicious` receives exactly the labels the rules raise, in order, and any other context receives none |
| BlockInspect.KeyTestsAreCaseSensitive | src/components/BlockInspect.jsx:29-38 | lower-case `i`, `j` and `u` never match, whatever the modifiers |
| BlockInspect.CtrlUIgnoresShift | src/components/BlockInspect.jsx:35-38 | Ctrl+`U` yields `view_source_attempt` whatever the shift state, and `U` without Ctrl yields nothing |
| BlockInspect.HandleContextMenu | src/components/BlockInspect.jsx:44-49 | a context menu is prevented iff `detectContextMenu`, and `context_menu_blocked` is marked iff also the context is usable |
| BlockInspect.ZoomExceeds | src/components/BlockInspect.jsx:68-69 | for a positive inner width, the zoom test is the exact comparison `100 * outer > 105 * inner`; for inner width 0 it holds iff the outer width is positive |
| BlockInspect.RatioCompare | src/components/BlockInspect.jsx:68-69 | the ratio `outer / inner > 1.05` is equivalent to the cross-multiplied comparison |
| BlockInspect.HandleResize | src/components/BlockInspect.jsx:66-72 | `zoom_devtools_detected` is marked iff `detectZoom`, the zoom test holds and the context is usable |
| BlockInspect.ZoomBoundary | src/components/BlockInspect.jsx:69 | a ratio of exactly 1.05 is not flagged; the next larger outer width is; `0 / 0` is not |
| BlockInspect.ClearCurrent | src/components/BlockInspect.jsx:60 | `clearTimeout` on the ref cancels only the timer the ref holds, and only if its 500 ms have not passed; the ref itself is unchanged |
| BlockInspect.Step | src/components/BlockInspect.jsx:53-60 | a touchend never arms a timer or moves the ref; a touchstart arms its own timer and takes the ref when `detectMobile` holds, and does nothing otherwise; as written a touchstart cancels nothing |
| BlockInspect.LastStart | src/components/BlockInspect.jsx:53-60 | the last touchstart so far, with only touchends after it |
| BlockInspect.DisabledNeverArms | src/components/BlockInspect.jsx:54 | with `detectMobile` off no timer is ever armed |
| BlockInspect.FixedArmsExactlyLongPresses | src/components/BlockInspect.jsx:53-60 | with a touchstart that cancels the pending timer, the timer ref is the last touchstart and a touchstart fires iff no touch event follows it within 500 ms |
| BlockInspect.Fired | src/components/BlockInspect.jsx:53-60 | in the corrected handler the fired timers are exactly the long presses of a time-ordered sequence, and none with the rule off |
| BlockInspect.FiredAsWritten | src/components/BlockInspect.jsx:53-60 | as written every long press fires and only touchstarts fire, none with the rule off; with the rule on, a touchstart fires iff no touchend before the next touchstart arrives within its 500 ms |
| BlockInspect.AsWrittenArmsExactly | src/components/BlockInspect.jsx:53-60 | as written the ref holds the last touchstart, and a timer stays armed iff no touchend arrives within its 500 ms while the ref still holds it |
| BlockInspect.AsWrittenKeepsLongPresses | src/components/BlockInspect.jsx:53-60 | as written a timer is cancelled only by a touch event within its 500 ms, so no long press is missed; the defect only adds fires |
| BlockInspect.LongPresses | src/components/BlockInspect.jsx:6-60 | with the prop's `true` default and truthiness test, a falsy `detectMobile` fires nothing, and otherwise the corrected handler fires exactly the long presses of a time-ordered sequence |
| BlockInspect.LongPressesAsWritten | src/components/BlockInspect.jsx:6-60 | the same entry point as written: nothing for a falsy prop, and otherwise exactly the touchstarts no touchend cancelled while the ref held them |
| BlockInspect.LongPressPropDefault | src/components/BlockInspect.jsx:6 | leaving `detectMobile` out watches long presses; `null`, `false` and `0` switch them off |
| BlockInspect.LongPressRule | src/components/BlockInspect.jsx:53-60 | in the corrected handler, a touchstart marks a long press iff `detectMobile` holds and no touch event follows within 500 ms |
| BlockInspect.OrphanedTimerFires | src/components/BlockInspect.jsx:53-60 | two overlapping taps that both end within 30 ms still fire the first timer as written, and do not fire in the corrected handler |
| BlockInspect.SingleTouch | src/components/BlockInspect.jsx:53-60 | a single touch fires iff it is held for at least 500 ms |
| Devtools.IsDevtoolsOpen | src/utils/detectDevTools.js:5-13 | no window gives false; otherwise true iff the width or the height difference exceeds 160 |
| Devtools.ProbeMonotone | src/utils/detectDevTools.js:12 | growing either difference never turns the result from true to false |
| Devtools.ProbeThresholdIsStrict | src/utils/detectDevTools.js:8-12 | differences of exactly 160 give false, and 161 in either dimension gives true |
| Devtools.ResolvePollInterval | src/hooks/useDevtoolsDetect.js:7 | a missing poll interval is 1000 ms; any other value is kept |
| Devtools.Registers | src/hooks/useDevtoolsDetect.js:8-14 | the hook registers iff there is a window and `enabled`, which defaults to true, is truthy |
| Devtools.Watch | src/hooks/useDevtoolsDetect.js:13-39 | unregistered, it never detects and reports closed; registered, it reports the latest sample and calls `onDetect` once per rising edge, the first measured against the mount sample |
| Devtools.OpenAtMountStaysQuiet | src/hooks/useDevtoolsDetect.js:16 | devtools open at mount and staying open never fires; closing and reopening fires once |
| Devtools.OpenRunHasNoEdges | src/hooks/useDevtoolsDetect.js:16-24 | a run of open samples after an open mount has no rising edge |
| Devtools.EdgesBounded | src/hooks/useDevtoolsDetect.js:19-26 | there are never more detections than samples, and none when every sample and the mount are open |
| Keystroke.OnType | src/hooks/useKeystrokeTamper.js:8-20 | `last` becomes the keydown time; the count never decreases and grows by one iff the interval is below 20 ms; the callback fires iff the count has reached 15 |
| Keystroke.RunCountsRapidIntervals | src/hooks/useKeystrokeTamper.js:5-20 | after a sequence of keydowns, the count is the number of intervals below 20 ms, the first measured from mount, and `last` is the latest keydown |
| Keystroke.RapidIntervalsMonotone | src/hooks/useKeystrokeTamper.js:6-13 | the count of a prefix never exceeds the count of the whole sequence |
| Keystroke.OnceFiringAlwaysFiring | src/hooks/useKeystrokeTamper.js:15-17 | once a keydown fires, every later keydown fires too |
| Keystroke.BoundaryInterval | src/hooks/useKeystrokeTamper.js:13 | an interval of exactly 20 ms is not counted, and 19.5 ms is |
| Keystroke.Observe | src/hooks/useKeystrokeTamper.js:3-24 | observing a keydown sequence ends with the count of rapid intervals, one report per firing keydown, each labelled `keystroke-automation` |
| Ghosting.Down | src/hooks/useGhostingDetect.js:7-13 | the key joins the held set, and a repeated key leaves it unchanged; the callback is called, with `keyboard-ghosting`, iff at least four keys are held afterwards |
| Ghosting.CallsAreLabelled | src/hooks/useGhostingDetect.js:7-17 | over any sequence of key events the callback is called once per reporting keydown, always with `keyboard-ghosting` |
| Ghosting.Up | src/hooks/useGhostingDetect.js:15-17 | the key leaves the held set, and a key not held leaves it unchanged; keyup never fires |
| Ghosting.HeldIsLastDown | src/hooks/useGhostingDetect.js:5-17 | a key is held iff its last event in the sequence was a keydown |
| Ghosting.HeldWerePressed | src/hooks/useGhostingDetect.js:7-8 | every held key had a keydown |
| Ghosting.KeyupNeverReports | src/hooks/useGhostingDetect.js:15-17 | appending a keyup never adds a report |
| Ghosting.FourKeysReport | src/hooks/useGhostingDetect.js:10-12 | a fourth held key fires, an auto-repeat with four held fires, and three held keys do not |
| Clipboard.Registered | src/hooks/useClipboardLock.js:12-32 | an event gets a handler iff there is a DOM, the event is one of the four, and its flag, which defaults to true, is truthy |
| Clipboard.RemovedFrom | src/hooks/useClipboardLock.js:35-38 | the cleanup's handler-by-handler removals reach exactly the events of the order whose flag created a handler |
| Clipboard.Removed | src/hooks/useClipboardLock.js:34-39 | the cleanup detaches a handler from an event iff there is a DOM and the event's flag created one |
| Clipboard.Mount | src/hooks/useClipboardLock.js:28-32 | the effect adds one listener of this instance for each registered event, none for any other event, and changes no other instance's listeners |
| Clipboard.Unmount | src/hooks/useClipboardLock.js:34-39 | the cleanup removes one listener of this instance from each event it created a handler for, if one is attached, and changes nothing else |
| Clipboard.Intercept | src/hooks/useClipboardLock.js:16-21 | the handler always prevents the default, and calls `onBlock` with its own event type iff `onBlock` is a function |
| Clipboard.TeardownSymmetric | src/hooks/useClipboardLock.js:34-39 | the cleanup removes exactly the handlers that were added, so mount then unmount leaves the document's listeners as they were |
| Clipboard.DefaultsBlockEverything | src/hooks/useClipboardLock.js:5-8 | with every flag left out, all four events are blocked |
| Clipboard.NoDomNoHandlers | src/hooks/useClipboardLock.js:13-14 | with no window or document nothing is registered |
| Clipboard.NullDisables | src/hooks/useClipboardLock.js:5-8 | an explicit `null` flag disables its event, unlike a missing one |
| Screenshot.HandleKeydown | src/hooks/useScreenshotBlock.js:14-27 | the default is prevented iff `blockPrintScreen` and the key is PrintScreen or Ctrl+`p`; at most one call; the callback gets `printscreen` iff the key is PrintScreen and the callback is a function; a TypeError iff it is truthy but not a function; other keys and a falsy callback call nothing |
| Screenshot.HandleContextMenu | src/hooks/useScreenshotBlock.js:30-37 | with `blockImageSave` off nothing happens; otherwise an `IMG` or `CANVAS` target is prevented and reported as `contextmenu-image`; a target that is not prevented causes no call; a TypeError iff the callback is truthy but not a function |
| Screenshot.KeydownReportsArePrintScreens | src/hooks/useScreenshotBlock.js:14-27 | over any keydown sequence, with blocking on and a function callback, the callback hears `printscreen` exactly once per PrintScreen key; with blocking off or no callback it hears nothing |
| Screenshot.ContextMenuReportsAreImages | src/hooks/useScreenshotBlock.js:30-37 | over any sequence of right-clicks, with image blocking on and a function callback, the callback hears `contextmenu-image` exactly once per image or canvas target; otherwise nothing |
| Screenshot.CtrlPIsSilent | src/hooks/useScreenshotBlock.js:24-26 | Ctrl+`p` is prevented exactly when blocking is on, is never reported, and Ctrl+`P` is not blocked |
| Screenshot.DefaultsBlockBoth | src/hooks/useScreenshotBlock.js:5-6 | with the flags left out, PrintScreen and a canvas right-click are both blocked and reported; a lower-case `img` tag is not |
| RouteGuard.RedirectTarget | src/hooks/useRouteTamperGuard.js:7 | a missing `redirectTo` is `/`; any other value is kept |
| RouteGuard.Guard | src/hooks/useRouteTamperGuard.js:15-25 | an empty list or an allowed path does nothing; otherwise `onBlock(current)` is called when it is a function and then the guard navigates to the target; a truthy non-function `onBlock` throws, so nothing is navigated and `prevPath` keeps its old value; in every other case `prevPath` becomes the current path |
| RouteGuard.ThrowingOnBlockKeepsPrevPath | src/hooks/useRouteTamperGuard.js:20-24 | `onBlock: true` on a blocked path throws before `navigate` and leaves `prevPath` unchanged |
| RouteGuard.RedirectSettles | src/hooks/useRouteTamperGuard.js:19-21 | redirecting to an allowed target settles on the next run; a target outside a non-empty list is redirected again |
| RouteGuard.ExactMatch | src/hooks/useRouteTamperGuard.js:19 | the allow-list match is exact: a trailing slash is redirected |
| FreezeDetector.Create | src/utils/aiScreenshotDetector.js:5-25 | a new detector is active with one frame queued, measuring from its creation time |
| FreezeDetector.Start | src/utils/aiScreenshotDetector.js:38-44 | a detector exists iff animation frames are available, and then it is a fresh one with the given callback |
| FreezeDetector.Step | src/utils/aiScreenshotDetector.js:9-30 | a frame calls the callback iff the detector is active, a frame is queued and `250 < now - last < 650`, with `ai_screenshot_detected` or a TypeError for a non-function; an active frame that does not throw records `now`, stays active and requeues; a throw keeps `last` and queues nothing; a frame with nothing queued changes nothing; an inactive frame ends the loop; teardown clears `active` |
| FreezeDetector.CallsAreLabelled | src/utils/aiScreenshotDetector.js:17-19 | with a function callback, every report reaches it labelled `ai_screenshot_detected`, one call per report |
| FreezeDetector.MissingCallbackStopsLoop | src/utils/aiScreenshotDetector.js:18-22 | without a function callback there is at most one report, after which no frame is queued |
| FreezeDetector.WindowIsOpen | src/utils/aiScreenshotDetector.js:17 | deltas of exactly 250 ms and 650 ms do not fire, and 250.5 ms and 649.5 ms do |
| FreezeDetector.InactiveIsSilent | src/utils/aiScreenshotDetector.js:10 | after teardown no event sequence produces a report or reactivates the detector |
| FreezeDetector.TeardownStopsLoop | src/utils/aiScreenshotDetector.js:9-30 | after teardown, the first frame that arrives leaves no callback queued |
| FreezeDetector.UnscheduledStays | src/utils/aiScreenshotDetector.js:22-25 | once no frame is queued, none ever is again and nothing is reported |
| FreezeDetector.NoFramesNoReports | src/utils/aiScreenshotDetector.js:38-44 | without animation frames the wrapper never reports |
| FreezeDetector.ReportsBounded | src/utils/aiScreenshotDetector.js:9-23 | there are never more reports than events |

## Left out

- `src/utils/vpnDetect.js`: WebRTC and an HTTP lookup, which is network I/O. The provider's `if (isVPN)` test on its result is left out with it.
- `src/utils/watermark.js`: DOM creation, a fade timer and a random position. `unlock`'s `clearWatermark()` call is therefore not modelled.
- `src/components/AntiIframe.jsx` and `src/index.js`: a browser frame redirect and re-exports.
- The provider's wiring of detectors to `markSuspicious` (src/provider/ReactSecurityProvider.jsx:127-171) is left out. Each hook is modelled on its own signature. The wiring hands option objects to the ghosting and keystroke hooks, which take a bare callback. It also treats the teardown function returned by `detectAIScreenshot()` as a flag.
- React mechanics are left out: rendering, memoisation, effect scheduling and listener identity. The context object is modelled as `SecurePage.Context`.
- Styles, the provider's noise-overlay DOM node, and the screenshot hook's clipboard overwrite (`navigator.clipboard.writeText("")`) are DOM side effects and are left out.
- Real clocks, timers and `requestAnimationFrame` are left out. Time is an explicit sequence of `real` time stamps, and window dimensions are natural numbers.
- The bodies of application callbacks are left out. The model records which callbacks are called, with which labels, and in which order. It does not model what they return or whether they throw.
- Ghosting.Down: calls the callback unconditionally, as the hook does. It does not model the TypeError raised when the callback is not a function.
- Keystroke.OnType: same as for `Ghosting.Down`.
- Clipboard.Intercept: assumes `onBlock` returns normally. If `onBlock` throws, JavaScript skips `preventDefault`. The event object passed as the second argument to `onBlock` is not modelled.
- SecurePage.WatermarkText: `lastEvent` is a string or absent. A label naming an inherited `Object.prototype` property would read a function from the table, and that case is not modelled.
- BlockInspect.ZoomExceeds: uses exact rational arithmetic instead of IEEE doubles. Rounding at the 1.05 boundary is not modelled.
- BlockInspect.FixedArmsExactlyLongPresses: a touch event exactly 500 ms after a touchstart is taken to come after the timer.
- RouteGuard.Guard: the allow-list is a sequence of strings. An explicit `null` for `allowedRoutes`, which throws in JavaScript, is not modelled.
- `Js.Value` holds only integer numbers. Fractional numbers and `NaN`, which is falsy, are not modelled as config or callback values.
- Devtools.ResolvePollInterval: the interval is only resolved. Samples are an explicit sequence, so its timing is not modelled.

## Findings

| source | as written | input that shows it | evidently intended | confidence | as-written member | corrected member |
|---|---|---|---|---|---|---|
| src/provider/ReactSecurityProvider.jsx:85 | `LEVELS[level] \|\| LEVELS.medium` also finds properties inherited from `Object.prototype` | `level = "toString"` with an empty config: the lookup yields a truthy function, spreading it adds no keys, and the merged policy has no flags, so nothing locks and the provider's lock overlay is off; the detector hooks that receive `undefined` for a flag fall back to their own `true` defaults (src/hooks/useDevtoolsDetect.js:8, src/hooks/useScreenshotBlock.js:5-6, src/hooks/useClipboardLock.js:5-8), so detection stays on | any level that is not one of the three presets falls back to `medium` | not executed; high | Policy.MergeAsWritten, Policy.InheritedLevelDropsPreset | Policy.Merge, Policy.UnknownLevelIsMedium |
| src/components/BlockInspect.jsx:53-60 | `touchstart` overwrites the timer ref without clearing the pending timer, so `touchend` can only cancel the latest one | touches at 0 ms and 10 ms ending at 20 ms and 30 ms (a two-finger tap): the first timer is orphaned and marks `mobile_long_press_inspect` at 500 ms | a long press is marked only when no touch event follows its touchstart within 500 ms | not executed; medium | BlockInspect.FiredAsWritten, BlockInspect.OrphanedTimerFires | BlockInspect.Fired, BlockInspect.LongPressRule |
