/** The per-sensor display configuration (SENSOR_CONFIG, DEFAULT_CFG and cfgFor in public/main.js). */
module Profiles {
  import opened Basics
  import opened JsMath

  /** A reading as the backend serves it: `{t: epoch-ms, v: raw value}`. */
  datatype Reading = Reading(t: int, v: real)

  /** The closed set of raw-to-display conversions the configurations use. */
  datatype Transform =
    | RoundCounts   // v => Math.round(v): ADC counts
    | MilliAmps     // v => Math.round(v * 1000): amps to milliamps
    | Identity      // v => v

  datatype Config = Config(
    unit: string,
    transform: Transform,
    yMin: real,
    yMax: real,
    tick: real,
    defaultThreshold: real)

  const Photo := Config("", RoundCounts, 0.0, 4096.0, 1000.0, 800.0)
  const Current := Config(" mA", MilliAmps, 300.0, 500.0, 25.0, 400.0)
  const Fallback := Config("", Identity, 0.0, 4096.0, 1000.0, 800.0)

  /** What the chart and the classifier need of a configuration. */
  ghost predicate WellFormed(c: Config)
  {
    c.yMin < c.yMax && c.tick >= 0.0
  }

  /** The properties every plain object inherits from Object.prototype. `SENSOR_CONFIG[id]`
      finds one of these for such an id: a function, or for "__proto__" Object.prototype itself. */
  const InheritedNames: set<string> := {
    "constructor", "hasOwnProperty", "isPrototypeOf", "propertyIsEnumerable", "toString",
    "toLocaleString", "valueOf", "__proto__", "__defineGetter__", "__defineSetter__",
    "__lookupGetter__", "__lookupSetter__" }

  /** `cfgFor`: the configuration of a sensor id, the fallback for any other id. None stands
      for the inherited member an id in InheritedNames finds instead: it is truthy, so the
      fallback is not taken, and it has no `unit`, so createCard throws on it. */
  function CfgFor(id: string): (c: Option<Config>)
    ensures c.None? <==> id in InheritedNames
    ensures c == Some(Photo) <==> id == "photo"
    ensures c == Some(Current) <==> id == "current"
    ensures c.Some? && id != "photo" && id != "current" ==> c.value == Fallback
    ensures c.Some? ==> WellFormed(c.value) && c.value.yMin <= c.value.defaultThreshold <= c.value.yMax
  {
    if id == "photo" then Some(Photo)
    else if id == "current" then Some(Current)
    else if id in InheritedNames then None
    else Some(Fallback)
  }

  /** The configuration's `transform`: a raw value in display units. */
  function Display(c: Config, raw: real): (d: real)
    ensures c.transform != Identity ==> d == d.Floor as real
    ensures c.transform == RoundCounts ==> raw - 0.5 < d <= raw + 0.5
    ensures c.transform == MilliAmps ==> raw * 1000.0 - 0.5 < d <= raw * 1000.0 + 0.5
    ensures c.transform == Identity ==> d == raw
  {
    match c.transform
    case RoundCounts => Round(raw) as real
    case MilliAmps => Round(raw * 1000.0) as real
    case Identity => raw
  }
}
