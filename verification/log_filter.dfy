/**
 * The history filter: a snapshot of the filter panel, the predicate that
 * decides whether one record stays, and the pass over the whole log.
 */
module LogFilter {
  import opened Wrappers
  import opened JsText
  import opened DoseLog

  /**
   * The filter panel as `applyFilters` reads it: the two date bounds ("" when
   * empty or absent) and the seven category checkboxes (a checkbox missing from
   * the page reads as unchecked).
   */
  datatype FilterCriteria = FilterCriteria(
    from: string, to: string,
    morning: bool, afternoon: bool, night: bool,
    before: bool, after: bool,
    taken: bool, missed: bool)

  /** The panel after `clearFilters`: no date bounds, every checkbox ticked. */
  const Cleared := FilterCriteria("", "", true, true, true, true, true, true, true)

  /** The filter callback of `applyFilters`, with its checks in the source's order. */
  predicate Keeps(c: FilterCriteria, e: LogEntry)
    // a kept record has no governing checkbox that is cleared
    ensures Keeps(c, e) ==> MealBox(c, e.meal) != Some(false)
    ensures Keeps(c, e) ==> TimingBox(c, e.timing) != Some(false)
    ensures Keeps(c, e) ==> StatusBox(c, e.status) != Some(false)
  {
    if c.from != "" && e.date.Some? && Less(e.date.value, c.from) then false
    else if c.to != "" && e.date.Some? && Less(c.to, e.date.value) then false
    else if e.meal == Some("morning") && !c.morning then false
    else if e.meal == Some("afternoon") && !c.afternoon then false
    else if e.meal == Some("night") && !c.night then false
    else if e.timing == Some("before") && !c.before then false
    else if e.timing == Some("after") && !c.after then false
    else if e.status == Some("taken") && !c.taken then false
    else if e.status == Some("missed") && !c.missed then false
    else true
  }

  /** The checkbox that governs a meal, or None for a meal outside the known three. */
  function MealBox(c: FilterCriteria, meal: Option<string>): (box: Option<bool>)
    ensures box.Some? <==> meal.Some? && IsMeal(meal.value)
  {
    if meal == Some("morning") then Some(c.morning)
    else if meal == Some("afternoon") then Some(c.afternoon)
    else if meal == Some("night") then Some(c.night)
    else None
  }

  /** The checkbox that governs a timing, or None for a timing other than before/after. */
  function TimingBox(c: FilterCriteria, timing: Option<string>): (box: Option<bool>)
    ensures box.Some? <==> timing.Some? && IsTiming(timing.value)
  {
    if timing == Some("before") then Some(c.before)
    else if timing == Some("after") then Some(c.after)
    else None
  }

  /** The checkbox that governs a status, or None for a status other than taken/missed. */
  function StatusBox(c: FilterCriteria, status: Option<string>): (box: Option<bool>)
    ensures box.Some? <==> status == Some("taken") || status == Some("missed")
  {
    if status == Some("taken") then Some(c.taken)
    else if status == Some("missed") then Some(c.missed)
    else None
  }

  /** A date inside the range: at or after a non-empty `from`, at or before a non-empty `to`. */
  predicate InDateRange(c: FilterCriteria, date: string) {
    (c.from == "" || AtMost(c.from, date)) && (c.to == "" || AtMost(date, c.to))
  }

  /**
   * A record stays exactly when its date (if it has one) is in range and no
   * category it belongs to has its checkbox off; a value outside the known
   * categories is governed by no checkbox.
   */
  lemma KeepsIff(c: FilterCriteria, e: LogEntry)
    ensures Keeps(c, e) <==>
              (e.date.None? || InDateRange(c, e.date.value)) &&
              MealBox(c, e.meal) != Some(false) &&
              TimingBox(c, e.timing) != Some(false) &&
              StatusBox(c, e.status) != Some(false)
  {
    if e.date.Some? {
      NotLessIsAtMost(e.date.value, c.from);
      NotLessIsAtMost(c.to, e.date.value);
    }
  }

  /** A meal outside the known three passes whatever the meal checkboxes say. */
  lemma UnknownMealPasses(c: FilterCriteria, e: LogEntry, morning: bool, afternoon: bool, night: bool)
    requires MealBox(c, e.meal).None?
    ensures Keeps(c.(morning := morning, afternoon := afternoon, night := night), e) == Keeps(c, e)
  {
  }

  /** A timing other than before/after passes whatever the timing checkboxes say. */
  lemma UnknownTimingPasses(c: FilterCriteria, e: LogEntry, before: bool, after: bool)
    requires TimingBox(c, e.timing).None?
    ensures Keeps(c.(before := before, after := after), e) == Keeps(c, e)
  {
  }

  /** A status other than taken/missed passes whatever the status checkboxes say. */
  lemma UnknownStatusPasses(c: FilterCriteria, e: LogEntry, taken: bool, missed: bool)
    requires StatusBox(c, e.status).None?
    ensures Keeps(c.(taken := taken, missed := missed), e) == Keeps(c, e)
  {
  }

  /**
   * The filter compares statuses exactly while the status column lower-cases
   * them, so a record marked "Taken" is drawn as taken yet stays in the view
   * with the "taken" checkbox off.
   */
  lemma CapitalisedStatusBypassesFilter(e: LogEntry)
    requires e == LogEntry(None, None, None, None, Some("Taken"))
    ensures StatusBadge(e.status) == TakenBadge
    ensures Keeps(Cleared.(taken := false), e)
  {
  }

  /** The cleared panel keeps every record. */
  lemma ClearedKeepsAll(e: LogEntry)
    ensures Keeps(Cleared, e)
  {
  }

  /** `allDoseLogs.filter(...)`: the records that stay, in their original order. */
  function Filter(c: FilterCriteria, s: seq<LogEntry>): (r: seq<LogEntry>)
    ensures |r| <= |s|
  {
    if s == [] then []
    else
      var last := s[|s| - 1];
      Filter(c, s[..|s| - 1]) + (if Keeps(c, last) then [last] else [])
  }

  /** The positions of the records that stay, in increasing order. */
  function KeptPositions(c: FilterCriteria, s: seq<LogEntry>): seq<int> {
    if s == [] then []
    else KeptPositions(c, s[..|s| - 1]) + (if Keeps(c, s[|s| - 1]) then [|s| - 1] else [])
  }

  /** `idx` picks `sub` out of `s`: strictly increasing positions of `s` holding the elements of `sub`. */
  ghost predicate IsIndexing<T>(idx: seq<int>, sub: seq<T>, s: seq<T>) {
    |idx| == |sub| &&
    (forall k :: 0 <= k < |idx| ==> 0 <= idx[k] < |s| && sub[k] == s[idx[k]]) &&
    (forall k, l :: 0 <= k < l < |idx| ==> idx[k] < idx[l])
  }

  /** `sub` is an order-preserving subsequence of `s`. */
  ghost predicate IsSubsequence<T>(sub: seq<T>, s: seq<T>) {
    exists idx :: IsIndexing(idx, sub, s)
  }

  /**
   * The filtered view is picked out of the full log by exactly the positions
   * whose records the predicate keeps: nothing reordered, nothing kept twice,
   * nothing dropped that passes.
   */
  lemma {:induction false} FilterPicksKeptPositions(c: FilterCriteria, s: seq<LogEntry>)
    ensures IsIndexing(KeptPositions(c, s), Filter(c, s), s)
    ensures forall i :: i in KeptPositions(c, s) <==> 0 <= i < |s| && Keeps(c, s[i])
  {
    if s != [] {
      var init := s[..|s| - 1];
      FilterPicksKeptPositions(c, init);
      var idx, sub := KeptPositions(c, s), Filter(c, s);
      if Keeps(c, s[|s| - 1]) {
        assert idx == KeptPositions(c, init) + [|s| - 1];
        assert sub == Filter(c, init) + [s[|s| - 1]];
        forall k | 0 <= k < |idx|
          ensures 0 <= idx[k] < |s| && sub[k] == s[idx[k]]
        {
          if k < |idx| - 1 {
            assert idx[k] == KeptPositions(c, init)[k];
            assert sub[k] == Filter(c, init)[k];
          }
        }
        forall k, l | 0 <= k < l < |idx|
          ensures idx[k] < idx[l]
        {
          assert idx[k] == KeptPositions(c, init)[k];
          if l < |idx| - 1 {
            assert idx[l] == KeptPositions(c, init)[l];
          }
        }
      }
    }
  }

  /** The filtered view is an order-preserving subsequence of the full log. */
  lemma FilterIsSubsequence(c: FilterCriteria, s: seq<LogEntry>)
    ensures IsSubsequence(Filter(c, s), s)
  {
    FilterPicksKeptPositions(c, s);
  }

  /** A record is in the filtered view exactly when it is in the log and the predicate keeps it. */
  lemma {:induction false} FilterMembership(c: FilterCriteria, s: seq<LogEntry>, e: LogEntry)
    ensures e in Filter(c, s) <==> e in s && Keeps(c, e)
  {
    if s != [] {
      FilterMembership(c, s[..|s| - 1], e);
      assert s == s[..|s| - 1] + [s[|s| - 1]];
    }
  }

  /** Filtering the concatenation of two logs filters each part. */
  lemma {:induction false} FilterConcat(c: FilterCriteria, s: seq<LogEntry>, t: seq<LogEntry>)
    ensures Filter(c, s + t) == Filter(c, s) + Filter(c, t)
  {
    if t == [] {
      assert s + t == s;
    } else {
      var t' := t[..|t| - 1];
      FilterConcat(c, s, t');
      assert (s + t)[..|s + t| - 1] == s + t';
    }
  }

  /** A log whose every record passes comes through unchanged. */
  lemma {:induction false} FilterKeepsAllPassing(c: FilterCriteria, s: seq<LogEntry>)
    requires forall i :: 0 <= i < |s| ==> Keeps(c, s[i])
    ensures Filter(c, s) == s
  {
    if s != [] {
      FilterKeepsAllPassing(c, s[..|s| - 1]);
    }
  }

  /** Applying the same filter twice gives what applying it once gives. */
  lemma FilterIdempotent(c: FilterCriteria, s: seq<LogEntry>)
    ensures Filter(c, Filter(c, s)) == Filter(c, s)
  {
    var f := Filter(c, s);
    forall i | 0 <= i < |f| ensures Keeps(c, f[i]) {
      FilterMembership(c, s, f[i]);
    }
    FilterKeepsAllPassing(c, f);
  }

  /** The cleared panel lets the whole log through. */
  lemma FilterCleared(s: seq<LogEntry>)
    ensures Filter(Cleared, s) == s
  {
  }

  /** The panel of the worked case below: January 10 to 31 of 2024, every checkbox ticked. */
  const JanuaryRange := Cleared.(from := "2024-01-10", to := "2024-01-31")

  /** A record dated before the range is dropped, whatever its categories. */
  lemma DroppedBeforeRange(e: LogEntry)
    requires e.date == Some("2024-01-01")
    ensures !Keeps(JanuaryRange, e)
  {
    EarlierDayIsLess();
  }

  /** A record dated inside the range stays when every checkbox is ticked. */
  lemma KeptInsideRange(e: LogEntry)
    requires e.date == Some("2024-01-15")
    ensures Keeps(JanuaryRange, e)
  {
    LaterDayIsNotLess();
    assert "2024-01-31" == "2024-01-" + "31" && "2024-01-15" == "2024-01-" + "15";
    LessAfterCommonPrefix("2024-01-", "31", "15");
  }

  /** A record dated after the range is dropped, whatever its categories. */
  lemma DroppedAfterRange(e: LogEntry)
    requires e.date == Some("2024-02-01")
    ensures !Keeps(JanuaryRange, e)
  {
    MonthEndIsLess();
  }

  /** Filtering three records of which only the middle one passes leaves just that one. */
  lemma FilterKeepsOnlyMiddle(c: FilterCriteria, a: LogEntry, b: LogEntry, d: LogEntry)
    requires !Keeps(c, a) && Keeps(c, b) && !Keeps(c, d)
    ensures Filter(c, [a, b, d]) == [b]
  {
    assert [a][..0] == [];
    assert Filter(c, [a]) == [];
    assert [a, b][..1] == [a];
    assert Filter(c, [a, b]) == [b];
    assert [a, b, d][..2] == [a, b];
  }

  /** The worked case: of three records, only the one dated inside the range stays. */
  lemma FilterExample(a: LogEntry, b: LogEntry, d: LogEntry)
    requires a.date == Some("2024-01-01") && b.date == Some("2024-01-15") && d.date == Some("2024-02-01")
    ensures Filter(JanuaryRange, [a, b, d]) == [b]
  {
    DroppedBeforeRange(a);
    KeptInsideRange(b);
    DroppedAfterRange(d);
    FilterKeepsOnlyMiddle(JanuaryRange, a, b, d);
  }
}
