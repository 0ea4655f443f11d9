/**
 The three security-level presets and the override-wins merge that turns a
 level name and the caller's configuration into the effective policy.
 */
module Policy {
  import opened Js

  /** The ten capability flags every preset defines. */
  const Flags: set<string> := {
    "blockDevTools", "blockScreenshot", "blockCopy", "lockOnSuspicious",
    "autoLogout", "noiseOverlay", "showLockOverlay", "enableWatermark",
    "detectVPN", "detectKeystrokeTamper"
  }

  const Low: Object := map[
    "blockDevTools" := Bool(true),
    "blockScreenshot" := Bool(false),
    "blockCopy" := Bool(false),
    "lockOnSuspicious" := Bool(false),
    "autoLogout" := Bool(false),
    "noiseOverlay" := Bool(false),
    "showLockOverlay" := Bool(false),
    "enableWatermark" := Bool(false),
    "detectVPN" := Bool(false),
    "detectKeystrokeTamper" := Bool(false)
  ]

  const Medium: Object := map[
    "blockDevTools" := Bool(true),
    "blockScreenshot" := Bool(true),
    "blockCopy" := Bool(true),
    "lockOnSuspicious" := Bool(true),
    "autoLogout" := Bool(false),
    "noiseOverlay" := Bool(false),
    "showLockOverlay" := Bool(true),
    "enableWatermark" := Bool(true),
    "detectVPN" := Bool(true),
    "detectKeystrokeTamper" := Bool(true)
  ]

  const High: Object := map[
    "blockDevTools" := Bool(true),
    "blockScreenshot" := Bool(true),
    "blockCopy" := Bool(true),
    "lockOnSuspicious" := Bool(true),
    "autoLogout" := Bool(true),
    "noiseOverlay" := Bool(true),
    "showLockOverlay" := Bool(true),
    "enableWatermark" := Bool(true),
    "detectVPN" := Bool(true),
    "detectKeystrokeTamper" := Bool(true)
  ]

  /** The `LEVELS` table, by its own keys. */
  const Levels: map<string, Object> := map["low" := Low, "medium" := Medium, "high" := High]

  /** Property names every plain object inherits from `Object.prototype`.
      Looking one of them up on `LEVELS` finds a function (or, for
      `__proto__`, the prototype object itself), never `undefined`. */
  const InheritedNames: set<string> := {
    "constructor", "hasOwnProperty", "isPrototypeOf", "propertyIsEnumerable",
    "toString", "toLocaleString", "valueOf", "__proto__",
    "__defineGetter__", "__defineSetter__", "__lookupGetter__", "__lookupSetter__"
  }

  /** A preset is a complete record of boolean flags. */
  predicate Complete(p: Object) {
    forall f :: f in Flags ==> f in p && p[f].Bool?
  }

  /** Every flag switched on in `weaker` is switched on in `stricter`. */
  predicate AtLeastAsStrict(stricter: Object, weaker: Object) {
    forall f :: f in Flags && f in weaker && Truthy(weaker[f]) ==> f in stricter && Truthy(stricter[f])
  }

  /** The defaults `LEVELS[level] || LEVELS.medium` as JavaScript evaluates
      them: an inherited name finds a truthy non-preset, and spreading it
      contributes no own enumerable keys at all. */
  function PresetAsWritten(level: string): (defaults: Object)
    ensures level in Levels ==> defaults == Levels[level]
    ensures level in InheritedNames ==> defaults == map[]
    ensures level !in Levels && level !in InheritedNames ==> defaults == Medium
  {
    if level in Levels then Levels[level]
    else if level in InheritedNames then map[]
    else Medium
  }

  /** The defaults for a level, every name that is not a preset of its own
      falling back to `medium`. */
  function Preset(level: string): (defaults: Object)
    ensures Complete(defaults)
    ensures defaults == Low || defaults == Medium || defaults == High
    ensures level !in Levels ==> defaults == Medium
    ensures level in Levels ==> defaults == Levels[level]
  {
    if level in Levels then Levels[level] else Medium
  }

  /** `{ ...LEVELS[level] || LEVELS.medium, ...config }` as written. */
  function MergeAsWritten(level: string, config: Object): (merged: Object)
    ensures merged.Keys == PresetAsWritten(level).Keys + config.Keys
    ensures forall k :: k in config ==> merged[k] == config[k]
    ensures forall k :: k in PresetAsWritten(level) && k !in config ==> merged[k] == PresetAsWritten(level)[k]
  {
    PresetAsWritten(level) + config
  }

  /** The effective policy: the preset for `level`, overlaid key by key by
      `config`. Keys the presets do not know pass through untouched. */
  function Merge(level: string, config: Object): (merged: Object)
    ensures merged.Keys == Flags + config.Keys
    ensures forall k :: k in config ==> merged[k] == config[k]
    ensures forall k :: k in Flags && k !in config ==> merged[k] == Preset(level)[k]
  {
    Preset(level) + config
  }

  /** The presets grow in strictness from `low` to `medium` to `high`. */
  lemma PresetsMonotone()
    ensures AtLeastAsStrict(Medium, Low)
    ensures AtLeastAsStrict(High, Medium)
    ensures AtLeastAsStrict(High, Low)
  {
    forall f | f in Flags
      ensures Low[f] == Bool(false) || Medium[f] == Bool(true)
      ensures Medium[f] == Bool(false) || High[f] == Bool(true)
    {
      if f == "blockDevTools" {
      } else if f == "blockScreenshot" {
      } else if f == "blockCopy" {
      } else if f == "lockOnSuspicious" {
      } else if f == "autoLogout" {
      } else if f == "noiseOverlay" {
      } else if f == "showLockOverlay" {
      } else if f == "enableWatermark" {
      } else if f == "detectVPN" {
      } else {
        assert f == "detectKeystrokeTamper";
      }
    }
  }

  /** Only `low` leaves `lockOnSuspicious` off, and only `high` turns
      `autoLogout` on. */
  lemma PresetsDiffer(level: string)
    ensures Truthy(Preset(level)["lockOnSuspicious"]) <==> level != "low"
    ensures Truthy(Preset(level)["autoLogout"]) <==> level == "high"
  {
  }

  /** A name that is not one of the three presets merges exactly as
      `medium` does, whatever the overrides. */
  lemma UnknownLevelIsMedium(level: string, config: Object)
    requires level !in Levels
    ensures Merge(level, config) == Merge("medium", config)
  {
  }

  /** Every flag of the merged policy reads from the override when the
      caller supplied one, and from the preset otherwise. */
  lemma MergeReadsOverrideFirst(level: string, config: Object, k: string)
    requires k in Flags
    ensures Get(Merge(level, config), k) == (if k in config then config[k] else Preset(level)[k])
  {
  }

  /** With no overrides the merged policy is the preset itself. */
  lemma MergeWithoutOverrides(level: string)
    ensures Merge(level, map[]) == Preset(level)
    ensures Complete(Merge(level, map[]))
  {
  }

  /** Overriding one flag of `low` changes that flag and nothing else. */
  lemma OverrideOneFlag()
    ensures Merge("low", map["blockScreenshot" := Bool(true)]) == Low["blockScreenshot" := Bool(true)]
  {
  }

  /** Merging the same overrides a second time changes nothing. */
  lemma MergeIdempotent(level: string, config: Object)
    ensures Merge(level, config) + config == Merge(level, config)
  {
  }

  /** As written, a level named after an inherited property yields a policy
      without a single preset flag: `lockOnSuspicious`, `blockDevTools` and
      the rest all read as `undefined`, while the evident intent (fall back
      to `medium`) turns them on. */
  lemma InheritedLevelDropsPreset()
    ensures MergeAsWritten("toString", map[]) == map[]
    ensures !Truthy(Get(MergeAsWritten("toString", map[]), "lockOnSuspicious"))
    ensures !Truthy(Get(MergeAsWritten("toString", map[]), "blockDevTools"))
    ensures Truthy(Get(Merge("toString", map[]), "lockOnSuspicious"))
    ensures Truthy(Get(Merge("toString", map[]), "blockDevTools"))
  {
  }

  /** Outside the inherited names the code as written and the corrected
      merge agree. */
  lemma MergeAsWrittenAgrees(level: string, config: Object)
    requires level !in InheritedNames
    ensures MergeAsWritten(level, config) == Merge(level, config)
  {
  }
}
