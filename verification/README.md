# Dose-history engine of the medication reminder page

This project models, in Dafny, the logic in `script.js` of a browser-side
medication reminder page. The page keeps a dose schedule (three meals, each
with a before and an after time, plus a repeat interval). It also shows a
history of dose-log records from a backend, filtered and split into pages.

The model covers:

- **The history engine** (`DoseHistory.Engine`). This class holds the page
  script's module-level state: the full log (`allDoseLogs`), the filtered view
  (`filteredDoseLogs`) and the current page (`currentPage`). It also holds
  what the last render showed. Its methods are the script's operations:
  load the log, apply the filter, clear the filter, render the current page,
  go to the previous or next page, and change the rows per page. Each method
  states the whole new state. The object invariant `Valid()` says that the
  filtered view is always the full log under the filter panel it was computed
  with.
- **The filter** (`LogFilter`). This covers the per-record predicate, the pass
  over the log, and lemmas about the result:
  - it is an order-preserving subsequence, picked out by exactly the positions
    the predicate keeps;
  - a kept record's date lies inside the range;
  - a meal, timing or status outside the known categories is never rejected by
    that category;
  - filtering is idempotent;
  - the cleared panel lets everything through.
- **Page arithmetic** (`Pagination`). This covers the page-size selector, the
  page count `max(1, ceil(n / size))`, clamping, `Array.prototype.slice`, and
  the lemmas that a page in range is its window of the list and that the pages
  laid end to end give back the list with no record on two pages.
- **The schedule form** (`Schedule`). This covers the repeat interval in days
  from a preset or a custom amount and unit, and the rule that derives a dose
  input's element id (`morning` + `Before`).
- **Display helpers** (`DoseLog`). This covers the "before breakfast" phrase
  and the status classifier behind the status badge. The phrase looks the
  lower-cased meal up in a plain object literal, so the lookup also finds the
  names that object inherits from `Object.prototype`: a meal called
  "constructor" or "__proto__" prints the inherited value.
- **JavaScript text operations** (`JsText`). This covers the relational `<` on
  strings (proved a strict total order) and the case mapping the script relies
  on.

The DOM inputs are plain parameters:

- a control that can be missing from the page is a `Control<T>`;
- what `parseInt(value, 10)` returns is an `Option<int>`, with `None` for
  `NaN`;
- the filter panel is a `FilterCriteria` value;
- the JSON payload of the log request is a `Payload` (a JSON array of objects,
  or any non-array value).

Four client methods in `DoseHistory` exercise the engine's contracts:

- `TwentyFiveRecordsScenario`: 25 records at 10 a page, stepping to page 3 and
  past it;
- `NonArrayPayloadScenario`: a payload that is not an array gives the
  empty-state row;
- `ClearFiltersIsIdempotent`: clearing twice leaves the state of one clearing;
- `ReapplyingFilterChangesNothing`: applying the panel in force again changes
  neither the view nor the log.

One behaviour of the code is worth knowing. The filter compares a record's
status with `===` against `"taken"` and `"missed"`, but the status badge
lower-cases it first. So a record whose status is `"Taken"` is drawn as taken,
yet it stays in the view when the "taken" checkbox is off
(`LogFilter.CapitalisedStatusBypassesFilter`). The model follows the code
here.

Two behaviours of the code are worth stating:

- At a boundary, `goToPrevPage` and `goToNextPage` do nothing at all. They do
  not re-render, so the current page is clamped only when a render happens.
  The page therefore stays within `1..totalPages` after every render, but not
  after every possible state change.
- Log records need not have a known meal, timing or status. Any field may be
  missing.

## Model

| member | source | states |
|---|---|---|
| `Schedule.RepeatDays` | script.js:42-64 | With no preset selector the result is 0. A non-custom preset gives its parsed day count, or 0 when it does not parse. A custom interval is never negative. It is positive exactly when both custom controls are present and the amount parses to a positive number, and then it is the amount times 7 for weeks, 30 for months, or 1 for anything else. |
| `Schedule.DaysPerUnit` | script.js:60-63 | Every unit counts as at least one day. |
| `Schedule.RepeatDaysOfPreference` | script.js:48-63 | Reading a form that shows a repeat preference gives the days that preference stands for: a preset's day count, or a positive amount of days, weeks (×7) or months (×30). |
| `Schedule.RepeatDaysExamples` | script.js:48-63 | Preset "7" gives 7. Two weeks give 14. Three months give 90. An amount of 0, an unparseable amount, or an unparseable preset gives 0. |
| `Schedule.FieldId` | script.js:189 | The id is the meal followed by the timing with its first letter upper-cased: same length, the meal as prefix, then a capital letter, then the rest of the timing. |
| `Schedule.Capitalize` | script.js:189 | Capitalising keeps the length and everything after the first character. A small first letter becomes a capital that `LowerChar` maps back to it. Any other first character is kept. |
| `Schedule.CapitalizedTimings` | script.js:189 | "before" and "after" appear as "Before" and "After" inside ids. |
| `Schedule.FieldIdsOfTheSixDoses` | script.js:116-125 | The rule yields the six input ids the form uses (`morningBefore` … `nightAfter`). |
| `Schedule.FieldIdInjective` | script.js:188-189 | Two known (meal, timing) pairs with the same id are the same pair, so no two doses share an input. |
| `DoseLog.MealWord` | script.js:223-227 | The own keys of the meal map: a word is found exactly for "morning", "afternoon" and "night", and it is "breakfast", "lunch" or "dinner". |
| `DoseLog.InheritedMealKey` | script.js:223-229 | Of the names the map inherits, exactly "constructor" and "__proto__" are reachable by a lower-cased key, and each yields non-empty text. |
| `DoseLog.MealMapLookup` | script.js:223-229 | The lookup finds the own key's word whenever there is one, and anything it finds is non-empty (truthy). |
| `DoseLog.MealName` | script.js:229 | The name is missing exactly when the meal is. It is what the map finds under the lower-cased meal, or the meal itself when the map finds nothing. It is empty exactly when the meal is "". |
| `DoseLog.FormatTimingWithMeal` | script.js:222-236 | Whatever the meal, the phrase begins with the timing, or with "" when the timing is missing. Anything after the timing is a space and the meal's non-empty name. A before/after timing with a non-empty meal always gets " " and the meal's name (what the map finds, else the meal itself); with `PhraseWithoutMeal` this covers every case. |
| `DoseLog.PhraseForMapKey` | script.js:229-232 | A meal the map finds (own or inherited key, any letter case), with before/after, yields "<timing> <what was found>". |
| `DoseLog.PhraseForConstructorMeal` | script.js:223-232 | The meal "constructor" with "before" yields "before function Object() { [native code] }". |
| `DoseLog.PhraseForProtoMeal` | script.js:223-232 | The meal "__proto__" with "after" yields "after [object Object]". |
| `DoseLog.PhraseForLowerCaseSlot` | script.js:223-232 | A slot written in lower case has a meal word, and with before/after yields "<timing> <meal word>". |
| `DoseLog.KnownPhraseParts` | script.js:231-232 | A phrase built from before/after and one of the three meal words determines both parts. |
| `DoseLog.PhraseWithoutMeal` | script.js:229-235 | A timing other than before/after, or a missing or empty meal, yields just the timing, or "". |
| `DoseLog.PhraseForKnownSlot` | script.js:223-232 | A known slot in any letter case, with before/after, yields "<timing> <breakfast\|lunch\|dinner>". |
| `DoseLog.PhraseExamples` | script.js:222-236 | Gives "before breakfast", and "after dinner" for the slot written "Night". |
| `DoseLog.PhraseFallbackExamples` | script.js:229-235 | A meal the map does not find is kept as it is ("after brunch"). An unknown timing is returned verbatim. A missing meal or timing falls back. |
| `DoseLog.PhraseInjective` | script.js:222-236 | The phrases of the six known doses are pairwise distinct. |
| `DoseLog.StatusBadge` | script.js:242-249 | The badge is "taken" exactly when the status is present and lower-cases to "taken", and "missed" exactly when it lower-cases to "missed". A neutral badge always has a non-empty caption: the status itself when it is present and non-empty, and "Unknown" when it is missing or empty. |
| `DoseLog.StatusBadgeExamples` | script.js:242-249 | "taken", "Taken" and "MISSED" are classified case-insensitively. "late" is drawn as it is. An empty or missing status is drawn as "Unknown". |
| `JsText.LowerChar` | script.js:229 | No result is an ASCII capital. An ASCII capital becomes a small letter that `UpperChar` maps back to it. Any other character except KELVIN SIGN is kept. |
| `JsText.UpperChar` | script.js:189 | No small ASCII letter remains: a small letter becomes a capital, and any other character is kept. |
| `JsText.Lower` | script.js:229 | Lower-casing keeps the length and leaves no ASCII capital. Every character that is not a capital letter stays in its place. |
| `JsText.LowerOfLowerWord` | script.js:229 | Lower-casing leaves a lower-case ASCII word unchanged. |
| `JsText.Less` | script.js:403-406 | A string is never less than itself or than "", and a proper prefix is less than the longer string. |
| `JsText.LessIrreflexive` | script.js:403-406 | No string is less than itself. |
| `JsText.LessTransitive` | script.js:403-406 | String `<` is transitive. |
| `JsText.LessTotal` | script.js:403-406 | Any two strings are equal, or one is less than the other. |
| `JsText.LessAsymmetric` | script.js:403-406 | String `<` never holds both ways. |
| `JsText.NotLessIsAtMost` | script.js:403-406 | A failed `x < y` means `y <= x`, and conversely. This is how a failed bound test becomes "inside the range". |
| `JsText.LessAfterCommonPrefix` | script.js:402-406 | A shared prefix does not decide a comparison. |
| `JsText.EarlierDayIsLess` | script.js:402-403 | "2024-01-01" < "2024-01-10". |
| `JsText.LaterDayIsNotLess` | script.js:402-403 | "2024-01-15" is not < "2024-01-10". |
| `JsText.MonthEndIsLess` | script.js:402-406 | "2024-01-31" < "2024-02-01". |
| `LogFilter.Keeps` | script.js:401-424 | A kept record has no known meal, timing or status whose checkbox is off. |
| `LogFilter.MealBox` | script.js:411-413 | A meal is governed by a checkbox exactly when it is one of the three slots. |
| `LogFilter.TimingBox` | script.js:416-417 | A timing is governed by a checkbox exactly when it is before or after. |
| `LogFilter.StatusBox` | script.js:420-421 | A status is governed by a checkbox exactly when it is exactly "taken" or "missed". |
| `LogFilter.KeepsIff` | script.js:401-424 | A record stays exactly when: its date (if present) lies between the non-empty bounds, inclusive; and no known meal, timing or status of it has its checkbox off. |
| `LogFilter.UnknownMealPasses` | script.js:411-413 | For a meal outside morning/afternoon/night, the meal checkboxes do not affect the verdict. |
| `LogFilter.UnknownTimingPasses` | script.js:416-417 | For a timing outside before/after, the timing checkboxes do not affect the verdict. |
| `LogFilter.UnknownStatusPasses` | script.js:420-421 | For a status outside taken/missed, the status checkboxes do not affect the verdict. |
| `LogFilter.CapitalisedStatusBypassesFilter` | script.js:420-421 | A "Taken" record gets the taken badge yet stays with the "taken" checkbox off. |
| `LogFilter.ClearedKeepsAll` | script.js:435-451 | The cleared panel (no dates, every box ticked) keeps every record. |
| `LogFilter.Filter` | script.js:401-424 | The filtered list is never longer than the log. |
| `LogFilter.FilterPicksKeptPositions` | script.js:401-424 | The filtered list is picked out of the log by strictly increasing positions. A position is among them exactly when the predicate keeps its record. |
| `LogFilter.FilterIsSubsequence` | script.js:401-426 | The filtered view is an order-preserving subsequence of the full log. |
| `LogFilter.FilterMembership` | script.js:401-424 | A record is in the filtered view exactly when it is in the log and passes the predicate. |
| `LogFilter.FilterConcat` | script.js:401-424 | Filtering two logs laid end to end filters each in turn. The pass is record by record. |
| `LogFilter.FilterKeepsAllPassing` | script.js:401-424 | A log whose every record passes comes through unchanged. |
| `LogFilter.FilterIdempotent` | script.js:401-426 | Filtering the filtered view again with the same panel changes nothing. |
| `LogFilter.FilterCleared` | script.js:438-453 | The cleared panel lets the whole log through, so clearing agrees with `allDoseLogs.slice()`. |
| `LogFilter.DroppedBeforeRange` | script.js:403-405 | A record dated before `from` is dropped. |
| `LogFilter.KeptInsideRange` | script.js:403-408 | A record dated inside the range stays when every box is ticked. |
| `LogFilter.DroppedAfterRange` | script.js:406-408 | A record dated after `to` is dropped. |
| `LogFilter.FilterKeepsOnlyMiddle` | script.js:401-424 | Of three records where only the middle one passes, the filtered list is that one. |
| `LogFilter.FilterExample` | script.js:401-426 | With the range January 10–31, only the January 15 record of three stays. |
| `Pagination.PageSize` | script.js:299-306 | The page size is always at least 1. It is the selector's parsed value when that is positive, and 10 otherwise (missing selector, NaN, zero or negative). |
| `Pagination.PageSizeIsStable` | script.js:299-306 | A selector holding a page size reads back as that size. |
| `Pagination.CeilDiv` | script.js:311 | Integer ceiling: 0 for 0 records, otherwise the least q with n ≤ q·d. |
| `Pagination.TotalPages` | script.js:309-311 | The page count is at least 1. It is 1 for no records. Otherwise it is the least count whose pages hold every record: (t−1)·size < n ≤ t·size. |
| `Pagination.ClampPage` | script.js:313-318 | The clamped page is at least 1 and at most the page count. A page already in range is kept. A page past the end becomes the last page, and one below 1 becomes 1. |
| `Pagination.SliceIndex` | script.js:322 | A resolved slice index lies within the length. A non-negative index is capped at the length. |
| `Pagination.Slice` | script.js:322 | For 0 ≤ start ≤ end the slice is the records from start to end, capped at the length, and at most end − start of them. |
| `Pagination.Page` | script.js:320-322 | A page is never longer than the list. A page numbered 1 or more holds at most `size` records. |
| `Pagination.PageElements` | script.js:320-322 | Row i of page p is record (p−1)·size + i of the list. |
| `Pagination.PageWindow` | script.js:320-322 | A page in range is the records from (page−1)·size up to min(n, page·size). It holds at most `size` records, exactly `size` on every page but the last, and at least one while there are records. |
| `Pagination.PrefixThenSlice` | script.js:322 | The records before a page followed by the page are the records up to the page's end. |
| `Pagination.PagesUpToIsPrefix` | script.js:320-322 | Pages 1..k laid end to end are the first min(n, k·size) records. |
| `Pagination.PagesPartition` | script.js:309-322 | Pages 1..totalPages laid end to end give back exactly the filtered list. |
| `Pagination.PageOfPosition` | script.js:320-322 | Record i lies in page p's window exactly when p = i / size + 1, and that page exists. So no record is on two pages. |
| `Pagination.TwentyFiveRecordsInPagesOfTen` | script.js:309-322 | 25 records at 10 a page make 3 pages: records 1–10, 11–20 and 21–25. |
| `DoseHistory.PageDisplay` | script.js:326-339 | The rendered table reports the page, the page count and the record count. "Prev" is disabled exactly when page ≤ 1, and "next" exactly when page ≥ the page count. |
| `DoseHistory.PageDisplayRows` | script.js:320-324 | The rows of a page in range are its window, at most `size` of them. They are empty (the empty-state row) exactly when there are no records. |
| `DoseHistory.Engine.constructor` | script.js:238-240 | The script starts with no records, an empty view and page 1, and the filter in force is the cleared panel. |
| `DoseHistory.Engine.RenderCurrentPage` | script.js:308-340 | The current page becomes the old page clamped into 1..totalPages for the selector's page size. The display becomes that page of the filtered view. The logs are unchanged. |
| `DoseHistory.Engine.ChangeRowsPerPage` | script.js:342-345 | The page becomes 1 and page 1 is shown at the new size. |
| `DoseHistory.Engine.GoToPrevPage` | script.js:347-352 | On page 1 or below nothing changes. Otherwise the page goes down by one (clamped by the render) and is shown. |
| `DoseHistory.Engine.GoToNextPage` | script.js:354-363 | On or past the last page nothing changes. Otherwise the page goes up by one and is shown. |
| `DoseHistory.Engine.LoadDoseLogs` | script.js:369-372 | The log becomes the payload if it is an array, and empty otherwise. The view is the whole log, from page 1, which is the filter of the cleared panel (the checkboxes on the page are not touched). A non-array payload shows the empty-state row. |
| `DoseHistory.Engine.ApplyFilters` | script.js:382-429 | The view becomes exactly the filter of the unchanged full log under the panel. The page becomes 1 and page 1 is shown. |
| `DoseHistory.Engine.ClearFilters` | script.js:431-456 | The panel is reset (no dates, every box ticked). The view is the whole unchanged log, from page 1. |
| `DoseHistory.FilteredIsSubsequence` | script.js:401-426 | In every valid state, the filtered view is an order-preserving subsequence of the full log, and each of its records passes the panel in force. |

## Left out

- DOM output is not modelled: the HTML of the table rows (`renderDoseLogs`), the badge markup, the meal icons (`getMealIcon`), showing and hiding the custom repeat controls, `toggleFilterPanel`, and the event-listener wiring. The model keeps only their inputs and what they decide (rows, flags, page figures, badge kind).
- Persistence in browser storage (`saveDoseTimes`, `loadSavedDoseTimes`, `loadSavedRepeatOptions`) is not modelled. It is storage plus JSON parsing by the browser.
- The HTTP calls (POST of the schedule, GET of the log), `async`/`await`, and the toast/alert notifications are not modelled. Of `loadDoseLogs` only the normalisation of the payload and the state reset are modelled. Each engine method runs as one atomic step, so a late response overwriting newer state (last write wins) is not represented.
- `updateDoseTime` and `deleteDoseTime` are modelled only through the id rule they share (`Schedule.FieldId`). Focusing the input, opening the picker, the one-shot change handler, and clearing plus saving are DOM and storage work.
- `scrollToSection` is not modelled. It is pixel arithmetic against the window.
- `parseInt` itself is not modelled: its result is a parameter (`Option<int>`). Numbers are unbounded integers, not IEEE doubles. `Math.ceil(n / size)` is integer ceiling division, and `amount * 30` never loses precision.
- `Less` compares characters by Unicode code point, while JavaScript compares UTF-16 code units. The two orders differ only between characters above U+FFFF and those in U+E000–U+FFFF. Dates are ASCII.
- `LowerChar` maps only ASCII capitals and KELVIN SIGN, the only characters whose lower case is made of ASCII characters alone. A lower-cased meal or status is only compared with ASCII words (the slot names, "constructor", "__proto__", "taken", "missed"), so each comparison comes out as with `toLowerCase`. `Lower` of other text (é, Σ) differs from `toLowerCase`. `UpperChar` maps only ASCII letters, which is all `Capitalize` is given ("before"/"after").
- FormatTimingWithMeal: the text of the inherited `constructor` entry is the one common engines print for `String(Object)`, "function Object() { [native code] }". The language standard fixes only its general shape.
- A missing record field is modelled as absent (`undefined`). A `null` date compared with a numeric-looking bound, and fields holding non-strings, are not modelled.
- Engine.LoadDoseLogs: an array element that is `null` is not modelled. The source keeps such an array as the log, and then both the table render (reading `log.meal`) and the filter callback (reading `log.date` or `log.meal`) throw a TypeError on it. The load then stops after clearing the table and before the summary and buttons are updated, and a filter leaves the view as it was. Elements that are numbers or strings only give missing fields, which `LogEntry` covers.
- Engine.ClearFilters: the returned panel assumes all seven filter checkboxes are on the page. The source ticks only the checkboxes it finds, and a missing checkbox reads as unticked, so on a page lacking one the next filter would read that box as off, not as the returned panel says.
- The checks `Array.isArray(allDoseLogs)` and `Array.isArray(filteredDoseLogs)` are always true in the script, because both variables only ever hold arrays. A missing table, summary text or button element is not modelled: the display always has them.
