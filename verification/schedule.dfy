/**
 * The schedule form: the repeat interval chosen with the preset selector or
 * the custom amount and unit, and the naming rule that finds the time input
 * of one dose.
 */
module Schedule {
  import opened Wrappers
  import opened JsText
  import opened DoseLog

  /** The value of a select or text control, with what `parseInt(value, 10)` makes of it (None for NaN). */
  datatype Field = Field(text: string, number: Option<int>)

  /** The preset value that switches the form to a custom amount and unit. */
  const CustomPreset: string := "custom"

  /** Days in one custom unit: a week is 7, a month is approximated by 30, any other unit is a day. */
  function DaysPerUnit(unit: string): (d: int)
    ensures d >= 1
  {
    if unit == "weeks" then 7
    else if unit == "months" then 30
    else 1
  }

  /**
   * The repeat interval in days read off the form (`getRepeatDays`). `preset`
   * is the preset selector, `amount` the parsed custom number input and `unit`
   * the custom unit selector; each may be missing from the page.
   */
  function RepeatDays(preset: Control<Field>, amount: Control<Option<int>>, unit: Control<string>): (r: int)
    // without the preset selector there is no repeat
    ensures preset.Missing? ==> r == 0
    // a preset is its own day count, or 0 when it does not parse
    ensures preset.Present? && preset.value.text != CustomPreset ==> r == preset.value.number.GetOr(0)
    // a custom interval is never negative ...
    ensures preset.Present? && preset.value.text == CustomPreset ==> r >= 0
    // ... and is positive exactly when both custom controls are there and the amount is a positive number
    ensures preset.Present? && preset.value.text == CustomPreset ==>
              (r > 0 <==> amount.Present? && unit.Present? && amount.value.Some? && amount.value.value > 0)
    // a positive custom interval is a whole number of units
    ensures preset.Present? && preset.value.text == CustomPreset && r > 0 ==>
              r == amount.value.value * DaysPerUnit(unit.value)
  {
    match preset
    case Missing => 0
    case Present(p) =>
      if p.text != CustomPreset then p.number.GetOr(0)
      else if amount.Missing? || unit.Missing? then 0
      else match amount.value
        case None => 0
        case Some(a) => if a <= 0 then 0 else a * DaysPerUnit(unit.value)
  }

  /** The units the custom selector offers. */
  datatype Unit = Days | Weeks | Months

  /** A repeat preference as a user means it: a preset day count, or a positive amount of some unit. */
  datatype RepeatPreference = Preset(days: nat) | Custom(amount: nat, unit: Unit)

  /** The value the unit selector holds for a unit. */
  function UnitValue(u: Unit): string {
    match u
    case Days => "days"
    case Weeks => "weeks"
    case Months => "months"
  }

  /** The number of days a preference stands for, with a month taken as 30 days. */
  function IntervalDays(p: RepeatPreference): nat {
    match p
    case Preset(d) => d
    case Custom(a, Days) => a
    case Custom(a, Weeks) => 7 * a
    case Custom(a, Months) => 30 * a
  }

  /**
   * Reading a form that shows a preference gives the days that preference
   * stands for: a preset option carries its day count, a custom one a
   * positive amount and a unit.
   */
  lemma RepeatDaysOfPreference(p: RepeatPreference, presetText: string)
    requires p.Preset? ==> presetText != CustomPreset
    requires p.Custom? ==> presetText == CustomPreset && p.amount > 0
    ensures var shown := if p.Preset? then Field(presetText, Some(p.days as int)) else Field(presetText, None);
            var amount := if p.Custom? then Present(Some(p.amount as int)) else Present(None);
            var unit := if p.Custom? then Present(UnitValue(p.unit)) else Present("days");
            RepeatDays(Present(shown), amount, unit) == IntervalDays(p)
  {
  }

  /** The worked examples: preset "7", two weeks, three months, and the invalid amounts. */
  lemma RepeatDaysExamples(unit: string)
    ensures RepeatDays(Present(Field("7", Some(7))), Missing, Missing) == 7
    ensures RepeatDays(Present(Field(CustomPreset, None)), Present(Some(2)), Present("weeks")) == 14
    ensures RepeatDays(Present(Field(CustomPreset, None)), Present(Some(3)), Present("months")) == 90
    ensures RepeatDays(Present(Field(CustomPreset, None)), Present(Some(0)), Present(unit)) == 0
    ensures RepeatDays(Present(Field(CustomPreset, None)), Present(None), Present(unit)) == 0
    ensures RepeatDays(Present(Field("none", None)), Present(Some(3)), Present(unit)) == 0
  {
  }

  /** `timing` with its first character upper-cased, as the element ids spell it. */
  function Capitalize(timing: string): (r: string)
    ensures |r| == |timing|
    ensures timing != [] ==> r[1..] == timing[1..]
    // a small first letter becomes the capital that LowerChar maps back
    ensures timing != [] && 'a' <= timing[0] <= 'z' ==> 'A' <= r[0] <= 'Z' && LowerChar(r[0]) == timing[0]
    ensures timing != [] && !('a' <= timing[0] <= 'z') ==> r == timing
  {
    if timing == [] then [] else [UpperChar(timing[0])] + timing[1..]
  }

  /** The id of the time input for one dose: the meal, then the timing capitalised (`updateDoseTime`, `deleteDoseTime`). */
  function FieldId(meal: string, timing: string): (id: string)
    ensures |id| == |meal| + |timing|
    ensures id[..|meal|] == meal
    ensures timing != [] && 'a' <= timing[0] <= 'z' ==>
              'A' <= id[|meal|] <= 'Z' && id[|meal| + 1..] == timing[1..]
  {
    meal + Capitalize(timing)
  }

  /** The two timings as they appear inside element ids. */
  lemma CapitalizedTimings()
    ensures Capitalize("before") == "Before"
    ensures Capitalize("after") == "After"
  {
  }

  /** The six dose inputs of the page are the ones the naming rule finds. */
  lemma FieldIdsOfTheSixDoses()
    ensures FieldId("morning", "before") == "morningBefore"
    ensures FieldId("morning", "after") == "morningAfter"
    ensures FieldId("afternoon", "before") == "afternoonBefore"
    ensures FieldId("afternoon", "after") == "afternoonAfter"
    ensures FieldId("night", "before") == "nightBefore"
    ensures FieldId("night", "after") == "nightAfter"
  {
    CapitalizedTimings();
    assert "morning" + "Before" == "morningBefore" && "morning" + "After" == "morningAfter";
    assert "afternoon" + "Before" == "afternoonBefore" && "afternoon" + "After" == "afternoonAfter";
    assert "night" + "Before" == "nightBefore" && "night" + "After" == "nightAfter";
  }

  /** No two doses share an input: the naming rule is one-to-one on the known meals and timings. */
  lemma FieldIdInjective(m1: string, t1: string, m2: string, t2: string)
    requires IsMeal(m1) && IsMeal(m2) && IsTiming(t1) && IsTiming(t2)
    requires FieldId(m1, t1) == FieldId(m2, t2)
    ensures m1 == m2 && t1 == t2
  {
  }
}
