/** The per-traveler level, kept within [1, 100]: `getTravelerLevel` and
    `saveTravelerLevel`. */
module Travelers {
  import opened Wrappers
  import opened Arith

  const MinLevel := 1
  const MaxLevel := 100

  /** Traveler name to the stored level, as `parseInt(stored, 10)` reads it back. */
  type Levels = map<string, Option<int>>

  /** `getTravelerLevel`: a stored whole number of at least 1 is capped at 100; a
      missing, unparseable or smaller value reads as 1. */
  function GetLevel(levels: Levels, name: string): (r: int)
    ensures MinLevel <= r <= MaxLevel
    ensures name in levels && levels[name].Some? && MinLevel <= levels[name].value <= MaxLevel ==>
      r == levels[name].value
    ensures name in levels && levels[name].Some? && levels[name].value > MaxLevel ==> r == MaxLevel
    ensures name !in levels || levels[name].None? || levels[name].value < MinLevel ==> r == MinLevel
  {
    var v := if name in levels then levels[name] else None;
    if v.Some? && v.value >= 1 then Min(v.value, MaxLevel) else 1
  }

  /** `parseInt(lvl, 10) || 1` clamped to [1, 100]. */
  function Clamp(lvl: Option<int>): (n: int)
    ensures MinLevel <= n <= MaxLevel
    ensures lvl.Some? && MinLevel <= lvl.value <= MaxLevel ==> n == lvl.value
    ensures lvl.Some? && lvl.value > MaxLevel ==> n == MaxLevel
    ensures lvl.None? || lvl.value < MinLevel ==> n == MinLevel
  {
    var p := if lvl.None? || lvl.value == 0 then 1 else lvl.value;
    Max(MinLevel, Min(MaxLevel, p))
  }

  /** `saveTravelerLevel`: stores and returns the clamped level. */
  function SaveLevel(levels: Levels, name: string, lvl: Option<int>): (r: (Levels, int))
    ensures r.0 == levels[name := Some(r.1)]
    ensures r.1 == Clamp(lvl)
    ensures MinLevel <= r.1 <= MaxLevel
  {
    var n := Clamp(lvl);
    (levels[name := Some(n)], n)
  }

  /** Saving and reading back agree on every input: the level read is the one returned
      by the save, and the save clamps exactly as the reader does. */
  lemma SaveThenGet(levels: Levels, name: string, lvl: Option<int>)
    ensures var (stored, n) := SaveLevel(levels, name, lvl);
      GetLevel(stored, name) == n && n == GetLevel(map[name := lvl], name)
  {
  }

  /** The save leaves every other traveler's level as it was. */
  lemma SaveSparesOthers(levels: Levels, name: string, lvl: Option<int>, other: string)
    requires other != name
    ensures GetLevel(SaveLevel(levels, name, lvl).0, other) == GetLevel(levels, other)
  {
  }
}
