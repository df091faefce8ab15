/**
 * A dose-log record as the backend sends it, and the pure helpers that turn
 * its fields into what the history table shows.
 */
module DoseLog {
  import opened Wrappers
  import opened JsText

  /**
   * One history record. Every field may be absent from the JSON object
   * (None); `date` is a `YYYY-MM-DD` string compared as text.
   */
  datatype LogEntry = LogEntry(
    date: Option<string>,
    meal: Option<string>,
    timing: Option<string>,
    scheduledTime: Option<string>,
    status: Option<string>)

  /** The three dose slots of a day, as the schedule form and the log records name them. */
  predicate IsMeal(meal: string) {
    meal == "morning" || meal == "afternoon" || meal == "night"
  }

  /** The two timings of a dose relative to its meal. */
  predicate IsTiming(timing: string) {
    timing == "before" || timing == "after"
  }

  /** The meal each slot is taken with: the own keys of `mealMap`, looked up by the lower-cased slot name. */
  function MealWord(slot: string): (w: Option<string>)
    ensures w.Some? <==> IsMeal(slot)
    ensures w.Some? ==> w.value == "breakfast" || w.value == "lunch" || w.value == "dinner"
  {
    if slot == "morning" then Some("breakfast")
    else if slot == "afternoon" then Some("lunch")
    else if slot == "night" then Some("dinner")
    else None
  }

  /**
   * What `mealMap[key]` finds on `Object.prototype` when `key` is not an own
   * key, as the template literal prints it. Only the all-lower-case inherited
   * names can be reached by a lower-cased key: `constructor` (the `Object`
   * function) and `__proto__` (the prototype object itself).
   */
  const ObjectFunctionText := "function Object() { [native code] }"
  const ObjectPrototypeText := "[object Object]"

  function InheritedMealKey(key: string): (v: Option<string>)
    ensures v.Some? <==> key == "constructor" || key == "__proto__"
    ensures v.Some? ==> v.value != ""
  {
    if key == "constructor" then Some(ObjectFunctionText)
    else if key == "__proto__" then Some(ObjectPrototypeText)
    else None
  }

  /** `mealMap[key]`: an own key first, then an inherited one; None for `undefined`. */
  function MealMapLookup(key: string): (v: Option<string>)
    ensures MealWord(key).Some? ==> v == MealWord(key)
    ensures v.Some? ==> v.value != ""
  {
    if MealWord(key).Some? then MealWord(key) else InheritedMealKey(key)
  }

  /**
   * The meal's display name (`mealMap[meal?.toLowerCase?.()] || meal`): what
   * the map finds under the lower-cased meal, else the meal as it came.
   */
  function MealName(meal: Option<string>): (name: Option<string>)
    ensures name.None? <==> meal.None?
    ensures meal.Some? && MealMapLookup(Lower(meal.value)).None? ==> name == meal
    ensures meal.Some? && MealMapLookup(Lower(meal.value)).Some? ==> name == MealMapLookup(Lower(meal.value))
    // only an empty meal has an empty (falsy) name
    ensures name == Some("") <==> meal == Some("")
  {
    match meal
    case None => None
    case Some(m) =>
      match MealMapLookup(Lower(m))
      case Some(w) => Some(w)
      case None => Some(m)
  }

  /** The phrase for a dose's timing (`formatTimingWithMeal`), such as "before breakfast". */
  function FormatTimingWithMeal(meal: Option<string>, timing: Option<string>): (r: string)
    // whatever the meal, the phrase begins with the timing it was given (or "")
    ensures |timing.GetOr("")| <= |r| && r[..|timing.GetOr("")|] == timing.GetOr("")
    // anything after the timing is a space and the meal's non-empty name
    ensures |r| > |timing.GetOr("")| ==>
              MealName(meal).Some? && MealName(meal).value != "" &&
              r == timing.GetOr("") + " " + MealName(meal).value
    // and a before/after timing with a non-empty meal always gets that meal's name
    ensures timing.Some? && IsTiming(timing.value) && meal.Some? && meal.value != "" ==>
              r == timing.value + " " + MealName(meal).value
  {
    var name := MealName(meal);
    if timing.Some? && IsTiming(timing.value) && name.Some? && name.value != "" then
      timing.value + " " + name.value
    else
      timing.GetOr("")
  }

  /** A timing other than before/after, or a missing or empty meal, leaves just the timing (or ""). */
  lemma PhraseWithoutMeal(meal: Option<string>, timing: Option<string>)
    requires timing.None? || !IsTiming(timing.value) || meal.None? || meal == Some("")
    ensures FormatTimingWithMeal(meal, timing) == timing.GetOr("")
  {
  }

  /** A known slot, in any letter case, before or after: "<timing> <meal word>". */
  lemma PhraseForKnownSlot(meal: string, timing: string)
    requires MealWord(Lower(meal)).Some?
    requires IsTiming(timing)
    ensures FormatTimingWithMeal(Some(meal), Some(timing)) == timing + " " + MealWord(Lower(meal)).value
  {
  }

  /** The worked phrases for known slots, including an upper-case slot name. */
  lemma PhraseExamples()
    ensures FormatTimingWithMeal(Some("morning"), Some("before")) == "before breakfast"
    ensures FormatTimingWithMeal(Some("Night"), Some("after")) == "after dinner"
  {
  }

  /** The worked phrases for an unmapped slot, an unknown timing and missing fields. */
  lemma PhraseFallbackExamples()
    ensures FormatTimingWithMeal(Some("brunch"), Some("after")) == "after brunch"
    ensures FormatTimingWithMeal(Some("afternoon"), Some("with")) == "with"
    ensures FormatTimingWithMeal(None, Some("before")) == "before"
    ensures FormatTimingWithMeal(Some("night"), None) == ""
  {
  }

  /** Any meal whose lower-cased name `mealMap` finds, own or inherited, before or after: "<timing> <what was found>". */
  lemma PhraseForMapKey(meal: string, timing: string)
    requires MealMapLookup(Lower(meal)).Some?
    requires IsTiming(timing)
    ensures FormatTimingWithMeal(Some(meal), Some(timing)) == timing + " " + MealMapLookup(Lower(meal)).value
  {
  }

  /** A meal called "constructor" prints the `Object` function that `mealMap` inherits under that name. */
  lemma PhraseForConstructorMeal()
    ensures FormatTimingWithMeal(Some("constructor"), Some("before")) == "before " + ObjectFunctionText
  {
    assert Lower("constructor") == "constructor" by { LowerOfLowerWord("constructor"); }
    assert MealWord("constructor").None?;
    PhraseForMapKey("constructor", "before");
  }

  /** A meal called "__proto__" prints the prototype object that `mealMap` inherits under that name. */
  lemma PhraseForProtoMeal()
    ensures FormatTimingWithMeal(Some("__proto__"), Some("after")) == "after " + ObjectPrototypeText
  {
    assert Lower("__proto__") == "__proto__";
    assert MealWord("__proto__").None?;
    PhraseForMapKey("__proto__", "after");
  }

  /** PhraseForKnownSlot for a slot written in lower case, as the three slots appear in a record. */
  lemma PhraseForLowerCaseSlot(meal: string, timing: string)
    requires IsMeal(meal)
    requires IsTiming(timing)
    ensures MealWord(meal).Some?
    ensures FormatTimingWithMeal(Some(meal), Some(timing)) == timing + " " + MealWord(meal).value
  {
    LowerOfLowerWord(meal);
    PhraseForKnownSlot(meal, timing);
  }

  /** "<timing> <meal word>" determines both parts: "before" and "after" differ in the first letter, the three meal words in the last. */
  lemma KnownPhraseParts(t1: string, w1: string, t2: string, w2: string)
    requires IsTiming(t1)
    requires IsTiming(t2)
    requires w1 == "breakfast" || w1 == "lunch" || w1 == "dinner"
    requires w2 == "breakfast" || w2 == "lunch" || w2 == "dinner"
    requires t1 + " " + w1 == t2 + " " + w2
    ensures t1 == t2 && w1 == w2
  {
    var p := t1 + " " + w1;
    assert p[0] == t1[0] && p[0] == (t2 + " " + w2)[0] == t2[0];
    assert p[|p| - 1] == w1[|w1| - 1] && p[|p| - 1] == (t2 + " " + w2)[|p| - 1] == w2[|w2| - 1];
  }

  /** Two known doses never read alike: the phrase determines the slot and the timing. */
  lemma PhraseInjective(m1: string, t1: string, m2: string, t2: string)
    requires IsMeal(m1)
    requires IsMeal(m2)
    requires IsTiming(t1)
    requires IsTiming(t2)
    requires FormatTimingWithMeal(Some(m1), Some(t1)) == FormatTimingWithMeal(Some(m2), Some(t2))
    ensures m1 == m2 && t1 == t2
  {
    PhraseForLowerCaseSlot(m1, t1);
    PhraseForLowerCaseSlot(m2, t2);
    KnownPhraseParts(t1, MealWord(m1).value, t2, MealWord(m2).value);
  }

  /** How the status column is drawn: a taken badge, a missed badge, or a neutral badge with a label. */
  datatype Badge = TakenBadge | MissedBadge | InfoBadge(caption: string)

  /** The status classifier of `getStatusBadge`, which compares the lower-cased status. */
  function StatusBadge(status: Option<string>): (b: Badge)
    ensures b == TakenBadge <==> status.Some? && Lower(status.value) == "taken"
    ensures b == MissedBadge <==> status.Some? && Lower(status.value) == "missed"
    ensures b.InfoBadge? ==> b.caption != ""
    ensures b.InfoBadge? && status.Some? && status.value != "" ==> b.caption == status.value
    ensures b.InfoBadge? && (status.None? || status.value == "") ==> b.caption == "Unknown"
  {
    match status
    case Some(s) =>
      if Lower(s) == "taken" then TakenBadge
      else if Lower(s) == "missed" then MissedBadge
      else InfoBadge(if s == "" then "Unknown" else s)
    case None => InfoBadge("Unknown")
  }

  /** The classifier ignores letter case: "Taken" and "TAKEN" are drawn as taken, a missing status as "Unknown". */
  lemma StatusBadgeExamples()
    ensures StatusBadge(Some("taken")) == TakenBadge
    ensures StatusBadge(Some("Taken")) == TakenBadge
    ensures StatusBadge(Some("MISSED")) == MissedBadge
    ensures StatusBadge(Some("late")) == InfoBadge("late")
    ensures StatusBadge(Some("")) == InfoBadge("Unknown")
    ensures StatusBadge(None) == InfoBadge("Unknown")
  {
  }
}
