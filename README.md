# A verified model of the study tracker's planning, review and import logic

The study tracker is a React application. It plans a month of interview
practice in three phases, schedules spaced-repetition reviews, keeps a list of
practice problems per month, and imports problems from a spreadsheet's CSV
text. This project models that logic in Dafny and proves what it promises:

- **Roadmap** (`roadmap.dfy`), after `services/roadmap.ts`.
  - `calculateRoadmap` gives the month's length, the buffer days, the three
    contiguous phases from the 1st to the last day, and the daily capacity.
  - `getCurrentPhase` finds the phase that holds a given day. It is modelled
    as a loop with an early return, proved against a recursive lookup.
- **RevisionZone** (`revision.dfy`), after `components/RevisionZone.tsx`:
  - the review interval for each confidence level;
  - the elapsed whole days since a review;
  - the due list, sorted by a stable sort on its priority score;
  - the "Coming Up Next" forecast and its days-left figure.
- **App** (`app.dfy`), after `App.tsx`:
  - the status-change, review and import handlers;
  - the bulk-selection toggles;
  - the phase-1 and phase-2 "Today's Focus" lists.
- **Storage** (`storage.dfy`), after `services/storage.ts`:
  - the initial state;
  - `addNextMonth`, with December rolling into January;
  - `deleteMonth`, with reselection of the current month and the reset to the
    initial state;
  - problem deletion;
  - motivation-board prepend and delete.
- **Csv** (`csv.dfy`), after `services/storage.ts`:
  - `splitCSV`, a character loop proved against a fold over the text;
  - `importCSV`: header matching by keyword, the substring classification of
    difficulty, status, confidence and priority, the numeric fields, the
    scheduled date, and the row loop.
- **Supporting modules**:
  - `calendar.dfy`: Gregorian month lengths and the normalisation JavaScript
    `Date` applies, plus day ordinals (1 is 1 January of year 1);
  - `text.dfy`: `trim`, `toLowerCase`, `includes`, `split` and `parseInt`;
  - `seqs.dfy`: `filter`, stable insertion sort and `slice`;
  - `types.dfy`: the records and enumerations of `types.ts`.

Time is always a parameter:

- `now` is milliseconds;
- `today` is the UTC calendar date (a `Calendar.Date`);
- the roadmap's current day is a day ordinal of the local date.

Ids drawn at random become a caller-supplied function `freshId`. Parsing of
date text becomes `parseTime`.

Behaviours of the code that the model keeps and proves:

- **Undated solved problems.** A solved problem without a review date is
  never due, because its elapsed days are 0. It still reaches the forecast,
  with 0 days elapsed (`RevisionZone.SolvedIsDueOrCandidate`).
- **Forecast order.** The forecast is sorted by the unclamped
  `interval - daysDiff`, not by the displayed days left, which is at least 1.
  So overdue problems with different differences are not ties
  (`RevisionZone.UpcomingReviews`).
- **Status in the CSV import.** A cell holding both "attempt" and "solv"
  is Attempted, because the "attempt" test comes second
  (`Csv.AttemptOverridesSolved`).
- **Scheduled date.** `new Date(year, month - 1, day)` rolls day 31 of a
  30-day month into the 1st of the next month (`Csv.ScheduledDayInMonth`).
- **Header matching.** It is by substring, so the keyword "est" also matches
  "question" and "date" matches "solved date"
  (`Csv.QuestionHeaderIsEstimate`, `Csv.SolvedDateHeaderIsScheduledDay`).

## Model

| member | source | states |
|---|---|---|
| Roadmap.CalculateRoadmap | services/roadmap.ts:24-118 | total days is the month's length; buffer is 1 for more than 100 problems or a 28-day month, else 2; working days = total - buffer >= 27, so phase 2 has 4 days and phase 3 has 2; phase 1 = working - 6 >= 21; durations + buffer = total days; the phases are contiguous with ids 1, 2, 3, phase 1 starts on the 1st and phase 3 ends on the last day, so its range is its duration plus the buffer; weekday capacity is max(1, floor(0.9 * ceil(n / p1))) with an empty list counted as 1, and weekend capacity is ceil(1.4 * weekday) >= weekday >= 1 |
| Roadmap.PhaseRanges | services/roadmap.ts:57-71 | the three ranges built by `setDate` on dates of the month: phase 1 from the 1st for p1 days, each later phase from the day after the previous one ends, phase 3 to the last day |
| Roadmap.Capacity | services/roadmap.ts:74-78 | weekday rate is max(1, floor(9 * base / 10)); weekend rate is at least the weekday rate and is the smallest value with 10 * weekend >= 14 * weekday |
| Roadmap.CeilDiv | services/roadmap.ts:75 | `Math.ceil(a / b)`: the q with (q - 1) * b < a <= q * b |
| Roadmap.PlanDependsOnlyOnCount | services/roadmap.ts:24-27 | two problem lists of the same length give the same plan |
| Roadmap.PolishEndsTheMonth | services/roadmap.ts:71 | the day after phase 3 ends is the 1st of the next month |
| Roadmap.LeapFebruaryScenario | services/roadmap.ts:25-54 | February 2024 with 50 problems: 29 days, buffer 2, working days 27, phases 21/4/2 |
| Roadmap.HeavyJanuaryScenario | services/roadmap.ts:31-54 | January 2024 with 150 problems: 31 days, buffer 1, working days 30, phase 1 has 24 days |
| Roadmap.PhaseContaining | services/roadmap.ts:125-129 | none exactly when no phase's inclusive range holds the day; otherwise the id of the first phase that does |
| Roadmap.GetCurrentPhase | services/roadmap.ts:120-135 | the loop returns the id of a phase holding the day when one does; otherwise 3 after phase 3 has ended and 1 before the month |
| Roadmap.CurrentPhaseOfPlan | services/roadmap.ts:120-135 | on a computed plan: 1 up to the end of phase 1 (and before the month), 2 within phase 2, 3 from phase 3 on and after the month |
| Calendar.DaysInMonth | services/roadmap.ts:26 | 28 days exactly for February of a common year, 29 for February of a leap year, 30 for April, June, September and November, and 31 otherwise |
| Calendar.LengthOfMonth | services/roadmap.ts:26 | `new Date(y, m, 0).getDate()`: between 28 and 31, and the Gregorian length for a month from 1 to 12 |
| Calendar.YearLength | services/roadmap.ts:26 | a year's months add up to 366 days in a leap year and 365 otherwise, and the day count of the next year starts after them |
| Calendar.LastDayIsFollowedByNextMonth | services/roadmap.ts:71 | the day after a month's last day is the 1st of the next month, December to January included |
| Calendar.DayOffset | services/roadmap.ts:59-69 | day d of a month is d - 1 days after its 1st, as `setDate` counts |
| Calendar.CalendarDate | services/storage.ts:215 | for a day d from 1 to 31, the date that `new Date(y, m - 1, d)` reads back as is a valid calendar date |
| Calendar.CalendarDateOrdinal | services/storage.ts:215 | the date read back is the same day as the one constructed |
| Calendar.CalendarDateInMonth | services/storage.ts:215 | within the month the date read back is the date given |
| RevisionZone.NextInterval | components/RevisionZone.tsx:18-25 | every interval lies between 1 and 7 days |
| RevisionZone.IntervalFollowsConfidence | components/RevisionZone.tsx:18-25 | a firmer confidence never gives a shorter interval and a strictly firmer one gives a longer one (unrated counts as weak) |
| RevisionZone.DaysDiff | components/RevisionZone.tsx:11-16 | 0 without a date; otherwise the whole days d with d * 86400000 <= now - last < (d + 1) * 86400000, i.e. the floor |
| RevisionZone.DaysDiffOfWholeDays | components/RevisionZone.tsx:11-16 | a date k days and less than one more day before `now` is k days old |
| RevisionZone.DueAfterInterval | components/RevisionZone.tsx:29-36 | a solved problem reviewed exactly k days ago is due if and only if k reaches its interval |
| RevisionZone.IntervalExamples | components/RevisionZone.tsx:29-36 | weak: due after 1 day, not after 0; strong: not due after 6 days, due after 7 |
| RevisionZone.GetDueProblems | components/RevisionZone.tsx:28-43 | exactly the due problems, each as often as in the input, in non-increasing score order |
| RevisionZone.DueOrderIsStable | components/RevisionZone.tsx:37-42 | the due problems with the same score keep their input order |
| RevisionZone.HigherScoreFirst | components/RevisionZone.tsx:37-42 | a due problem with a higher score comes earlier in the list |
| RevisionZone.WeakBeforeOthers | components/RevisionZone.tsx:38-41 | a weak problem comes before any other due problem that has waited fewer than 100 days longer |
| RevisionZone.UpcomingReviews | components/RevisionZone.tsx:48-55 | min(3, number of candidates) candidates, soonest due first; no candidate left out is due sooner than one shown |
| RevisionZone.DaysLeft | components/RevisionZone.tsx:95 | the days until due, but never less than 1 |
| RevisionZone.SolvedIsDueOrCandidate | components/RevisionZone.tsx:29-49 | with distinct ids, a solved problem is either due or a forecast candidate and never both; one without a review date is a candidate with 0 days elapsed |
| RevisionZone.DueAndCandidateAreDisjoint | components/RevisionZone.tsx:48-49 | no problem is both in the due list and among the forecast candidates |
| Seqs.SortByKey | components/RevisionZone.tsx:37-42 | the result is sorted by the key (non-increasing) and is a permutation of the input |
| Seqs.SortIsStable | components/RevisionZone.tsx:37-42 | elements with the same key keep their relative order |
| Seqs.TopByKey | components/RevisionZone.tsx:50-55 | sort then `slice(0, n)`: min(n, length) elements, ordered, a sub-multiset, and none left out ranks above one kept |
| Text.Trim | services/storage.ts:134 | the result has no white space at either end and is no longer than the input |
| Text.TrimIsPiece | services/storage.ts:134 | the result is one contiguous piece of the input with only white space around it |
| Text.TrimIdempotent | services/storage.ts:134 | trimming twice is trimming once |
| Text.ToLowerIdempotent | services/storage.ts:184 | a lower-cased string has no upper-case ASCII letter, and lower-casing it again changes nothing |
| Text.SplitOn | services/storage.ts:145 | one piece more than there are separators, and no piece holds the separator |
| Text.JoinSplit | services/storage.ts:145 | joining the pieces with the separator gives the string back |
| Text.OnlyDigits | services/storage.ts:212 | the result is the subsequence of the input that keeps every digit as often as it occurs and drops every other character |
| Text.ParseDigits | services/storage.ts:212 | NaN (none) exactly when no digit follows |
| Text.ParseDecimal | services/storage.ts:212 | `parseInt` reads back the decimal form of every natural number |
| Text.ParseNegativeDecimal | services/storage.ts:234 | `parseInt` reads back a minus sign and decimal digits as the negative number |
| Text.MissingCharRulesOut | services/storage.ts:185 | `includes` fails when a character of the keyword is missing from the text |
| Csv.SplitCSV | services/storage.ts:125-142 | the loop returns the fields of the quote-aware fold: one more field than there are commas outside quotes |
| Csv.RunParity | services/storage.ts:131-132 | the quote flag is set exactly after an odd number of quote characters |
| Csv.RunFieldCount | services/storage.ts:133-135 | one field is pushed per comma met outside quotes |
| Csv.SplitFieldCount | services/storage.ts:125-142 | the number of fields is the number of commas outside quotes plus 1, so never 0 |
| Csv.SplitFieldsAreClean | services/storage.ts:130-140 | no field holds a quote character and every field is trimmed |
| Csv.RunInsideQuotes | services/storage.ts:131-138 | inside quotes, text without quotes is kept as it is, commas included |
| Csv.QuotedFieldKeepsCommas | services/storage.ts:131-137 | a quoted text is one field, its commas kept and the field trimmed |
| Csv.SplitJoinRoundTrip | services/storage.ts:125-142 | fields without quotes, commas or surrounding blanks, joined with commas, split back into the same fields |
| Csv.NormalHeaderIsClean | services/storage.ts:148 | a normalised header holds no quote marks and no upper-case ASCII letter |
| Csv.FindIdxIsFirstMatch | services/storage.ts:151 | -1 exactly when no header holds a keyword; otherwise the first header that does |
| Csv.QuestionHeaderIsEstimate | services/storage.ts:154-160 | a first header holding "question" is both the name column and the estimated-time column |
| Csv.SolvedDateHeaderIsScheduledDay | services/storage.ts:161-163 | a first header holding "solved date" is both the solved-date column and the scheduled-day column |
| Csv.GetValOfSplitRow | services/storage.ts:177 | on a split row, `getVal` is the field in that column, or "" outside the row |
| Csv.OptionalNumber | services/storage.ts:230-231 | `parseInt(v) \|\| undefined`: present only as a non-zero parsed value; NaN and 0 are absent |
| Csv.CountOf | services/storage.ts:234-235 | `parseInt(v) \|\| 0`: the parsed value, or 0 for NaN |
| Csv.ClassifyDifficulty | services/storage.ts:182-186 | the sequence of overrides gives Hard if "hard" occurs, else Medium if "med" occurs, else Easy |
| Csv.ClassifyStatus | services/storage.ts:188-192 | Attempted if "attempt" occurs, else Solved if "solv" occurs, else Not Started |
| Csv.ClassifyConfidence | services/storage.ts:194-199 | Strong over Medium over Weak over None |
| Csv.ClassifyPriority | services/storage.ts:201-206 | Must Do if "must" occurs, else High, else Low, else Normal |
| Csv.AttemptOverridesSolved | services/storage.ts:191-192 | a status cell holding "attempt" before "solv" is Attempted |
| Csv.SolvedIsSolved | services/storage.ts:191 | "solved" is Solved |
| Csv.MediumOverridesWeak | services/storage.ts:197-199 | a confidence cell with "med" and no "strong" (such as "weak-medium") is Medium |
| Csv.ScheduleRow | services/storage.ts:208-218 | the scheduled date: today unless the day column's digits spell 1 to 31 |
| Csv.ScheduledDayInMonth | services/storage.ts:208-218 | a day up to the month's length is that date of the import month; a later day rolls into the next month (December into January), always as many days from the 1st as the digits say |
| Csv.ScheduledOfDigits | services/storage.ts:211-216 | a day number written in decimal gives the date `new Date(year, month - 1, day)` |
| Csv.RowProblem | services/storage.ts:220-238 | each built problem belongs to the import month, has a non-empty name and pattern (defaults "Unknown Problem" and "General"), and carries the fresh id of its line |
| Csv.ImportRow | services/storage.ts:177-238 | the row's statements build the problem `RowProblem` describes |
| Csv.ImportLine | services/storage.ts:174-175 | a line with fewer than two fields adds nothing; any other adds its problem |
| Csv.ImportRows | services/storage.ts:173-239 | the loop collects the problems of the data lines in order |
| Csv.ReadHeaders | services/storage.ts:148 | the header row is split like any row and each header normalised |
| Csv.ImportCSV | services/storage.ts:144-241 | the method returns what `Import` describes: nothing for fewer than two lines, else the problems of the data lines |
| Csv.NextLine | services/storage.ts:173-239 | each data line adds its problems after those of the lines before it |
| Csv.LineProblemsAreGood | services/storage.ts:174-175 | a line adds at most one problem, in the import month, with a name, a pattern and the line's fresh id |
| Csv.ImportedUpToFacts | services/storage.ts:173-239 | after i lines, at most i - 1 problems, each in the import month with a name and a pattern |
| Csv.ImportFacts | services/storage.ts:145-146 | fewer than two lines give []; otherwise at most lines - 1 problems, each with monthId = currentMonthId |
| Storage.InitialState | services/storage.ts:7-20 | one empty month, which is current; no problems or motivation items; streak 0, light mode, daily goal 3; the state is consistent |
| Storage.NextMonthId | services/storage.ts:50-56 | the month after the last one: one month index later, with a month from 1 to 12 |
| Storage.NextMonthRollsOver | services/storage.ts:50-56 | within the year the month goes up by one; December rolls into January of the next year |
| Storage.AddNextMonth | services/storage.ts:48-67 | the next month becomes current; if its id exists only `currentMonthId` changes, otherwise it is appended with no problem ids |
| Storage.AddNextMonthKeepsConsistent | services/storage.ts:48-67 | the state stays consistent (months non-empty, ids distinct, current month listed), the old months stay in front, and at most one month is added |
| Storage.DeleteMonth | services/storage.ts:70-93 | with no other month left, the initial state; otherwise the other months and the problems of other months in order, the current month kept unless deleted, in which case the last remaining month becomes current |
| Storage.DeleteMonthRemovesExactly | services/storage.ts:70-80 | the reset happens exactly when every month has the deleted id; otherwise exactly the other months and the problems of other months remain |
| Storage.DeleteMonthKeepsConsistent | services/storage.ts:70-93 | the state stays consistent, and the deleted id remains only as the fresh month of a reset |
| Storage.DeleteMonthKeepsOrder | services/storage.ts:72-75 | the remaining months and problems keep their order |
| Storage.DeleteProblem | services/storage.ts:96-101 | exactly the problems with that id go, the others keep their counts, and nothing else changes |
| Storage.DeleteProblems | services/storage.ts:103-108 | exactly the problems whose id is listed go, the others keep their counts, and nothing else changes |
| Storage.DeleteProblemIsDeleteProblems | services/storage.ts:96-108 | deleting one id is deleting the list holding only that id |
| Storage.DeleteProblemsFacts | services/storage.ts:103-108 | the rest keep their order and distinct ids; deleting nothing changes nothing; deleting twice is deleting once |
| Storage.AddMotivationItem | services/storage.ts:110-115 | the item goes in front of the unchanged board, and nothing else changes |
| Storage.DeleteMotivationItem | services/storage.ts:117-122 | exactly the items with that id go, every other item keeps its count, and nothing else changes |
| Storage.DeleteUndoesAdd | services/storage.ts:110-122 | deleting an item just added under a new id restores the state |
| Storage.DeleteMotivationKeepsOrder | services/storage.ts:117-122 | the remaining items keep their order |
| App.UpdateWhere | App.tsx:107-114 | `map` with an id test: same length; matching positions are updated and the others unchanged |
| App.HandleStatusChange | App.tsx:104-116 | same length and order; problems with another id unchanged; those with the id take the new status, and when it is Solved also `now` as review date and Medium confidence, even if already solved; the rest of the state unchanged |
| App.StatusChangeFacts | App.tsx:104-116 | setting the same status twice at the same time is setting it once; ids, and distinct ids, are kept |
| App.JustSolvedIsNotDue | App.tsx:104-116 | a problem just marked solved is not in the due list at that moment |
| App.JustSolvedWaits | App.tsx:110-112 | the problem just marked solved shows 3 days left, the Medium interval |
| App.JustSolved | App.tsx:110-112 | a problem solved at `now` with Medium confidence is not due and shows 3 days left |
| App.HandleReview | App.tsx:118-131 | problems with the id take the new confidence, one more attempt, one more revision and `now` as review date; their status, other problems and the rest of the state are unchanged |
| App.ReviewRestartsInterval | App.tsx:118-131 | the reviewed problem is not due at `now`, shows the new confidence's interval as days left, is not due a millisecond before that interval ends, and (if solved) is due when it ends |
| App.ReviewClearsDueList | App.tsx:118-131 | after a review no problem with that id is in the due list |
| App.HandleImport | App.tsx:97-102 | the old problems in order, followed by the new ones in order; nothing else changes |
| App.IdsOf | App.tsx:168 | the ids of a problem list, position by position, as `map(p => p.id)` lists them |
| App.ImportThenDeleteRestores | App.tsx:97-102 | deleting the ids of problems just imported under fresh ids gives back the state before the import |
| App.ImportKeepsIdsDistinct | App.tsx:97-102 | importing distinct problems under fresh ids keeps all ids distinct |
| App.ImportJoinsCurrentMonth | App.tsx:97-102 | problems of the current month, once imported, show after the month's existing problems |
| App.ImportedCsvJoinsCurrentMonth | App.tsx:97-102 | a CSV imported into the current month shows after the month's existing problems |
| App.CurrentMonthProblems | App.tsx:59 | exactly the problems of the current month |
| App.ToggleSelect | App.tsx:152-162 | the copied set with `delete` or `add` applied is the selection with the membership of `id` flipped |
| App.Toggled | App.tsx:152-162 | `id` is in the result exactly when it was not in the selection, and every other id keeps its membership |
| App.ToggleTwice | App.tsx:152-162 | toggling the same id twice restores the selection |
| App.IdSet | App.tsx:168 | exactly the ids of the month's problems |
| App.IdSetSize | App.tsx:164-170 | with distinct ids, as many ids are selected as there are problems |
| App.SelectAll | App.tsx:164-170 | empty when the selection's size equals the problem count; otherwise exactly the ids of the month's problems |
| App.SelectAllTwiceClears | App.tsx:164-170 | with distinct ids, selecting all from a partial selection and then pressing again clears the selection |
| App.Phase1Focus | App.tsx:73 | exactly the month's problems scheduled for today and not solved |
| App.Phase1FocusKeepsOrder | App.tsx:73 | the solve queue keeps the month's order and every copy of each problem it shows |
| App.Phase2Focus | App.tsx:79-82 | min(5, number of candidates) candidates taken from the solved Weak or Medium problems of the month, so at most 5, each solved with Weak or Medium confidence |
| App.TakeOfPermutation | App.tsx:82 | `slice(0, n)` of a reordering of the candidates takes min(n, length) of them |
| App.WeakThenMediumIsPermutation | App.tsx:79-82 | Weak then Medium candidates are a reordering of the candidates |
| App.Phase2WeakFirst | App.tsx:79-82 | in the chosen list no Medium problem comes before a Weak one |
| App.Phase2AllWeakShown | App.tsx:79-82 | a Medium problem is shown only when every Weak candidate is |
| App.TodaysFocus | App.tsx:61-86 | phase 1 of the current plan shows the solve queue, phase 2 the revision list, phase 3 the polish set |

## Left out

- Storage I/O: `loadState` and `saveState` use localStorage, JSON and `alert`. They are not modelled.
- Clock and locale: every `new Date()` reading becomes a parameter (`now`, `today`, the local day, the initial month). Month display names from `toLocaleString` become a `monthName` parameter.
- Timezones: `today` is the UTC date (`toISOString`), while the roadmap and the scheduled dates use local dates. The model keeps them as separate parameters and does not relate them. Daylight-saving shifts are not modelled.
- Month ids: the "YYYY-MM" strings are modelled already parsed into year and month. The `toISOString().slice(0, 7)` detour in `addNextMonth` is modelled as month arithmetic; for the 15th of a month it cannot change the month.
- Random ids: `generateId` becomes the parameter `freshId`, given the line number. Distinctness of fresh ids is stated as a requirement where it matters.
- Review dates: `lastSolvedDate` is a millisecond timestamp. Its ISO text form is not modelled, and parsing the CSV's solved-date text becomes the parameter `parseTime`.
- Csv.RowProblem: date text that does not parse is not modelled; `parseTime` gives every text an integer time. In the code, such text (say "15/01/2024") is stored as it is; `new Date` makes it an Invalid Date and `getDaysDiff` gives NaN. The problem is then never due, reaches the forecast with a NaN sort key and shows "in NaNd". In the model the same row gets a real time, which can make it due and gives it a definite place in the forecast.
- Roadmap.Capacity: models the factors 0.9 and 1.4 as exact rationals (floor of 9x/10, ceiling of 14x/10). It does not model IEEE rounding, which can differ from these for some inputs.
- App.Phase2Focus: the source's comparator ignores its second argument, so the engine decides the order. `IsPhase2Focus` states only what is determined (how many candidates are shown, all from the candidates). `Phase2Focus` is one admissible choice: Weak first, then Medium, each in list order.
- Phase 3 of "Today's Focus" shuffles at random and is not modelled; `TodaysFocus` returns `FinalPolish` there.
- Storage.AddNextMonth: requires a non-empty month list, because the source reads the last month without a guard and fails on an empty list.
- Month modules' `problemIds` are never updated by the source. The model carries the field but proves nothing about it.
- Optional fields: `attempts` and `revisionCount` are modelled as always present, so `(x || 0) + 1` is `x + 1`. Absent optional numbers are `None`, and absent optional texts are "".
- Text: `toLowerCase` is modelled for ASCII letters only, and white space for `trim` is the ASCII and common Unicode spaces. `parseInt` covers leading white space, one sign, a `0x` prefix and the longest digit run. Numbers are unbounded, so the loss of precision past 2^53 is not modelled.
- The Motivation component, the Importer wrapper, analytics, the AI coach and all JSX rendering are not part of this model.
