# ReciBot in Dafny

ReciBot is a small Streamlit application about household waste. It has
three parts:

- A questionnaire walks the user through a fixed tree of questions and
  names the container an item belongs in: organic, recyclable,
  non-recyclable, paper or special. It shows a "cannot classify" message
  when no container fits. It also bumps a counter for each container.
- A data-entry page records the kilograms of six kinds of waste for a
  user and a date. It is meant to add up the records that fall in the
  week, month and year of a reference date, derive a number of bags from
  the weekly totals, and append one flattened row per save to a table.
  As written, the aggregation raises and no row is ever saved (see
  "## Findings"); `Intake.Submit` models the intended behaviour.
- A statistics page filters that table by user and by date.

This project models those three parts and proves what they promise.

| file | module | what it models |
|---|---|---|
| `wrappers.dfy` | `Wrappers` | `Option` and `Result` |
| `calendar.dfy` | `Calendar` | Gregorian day numbers, weekdays, and the ISO 8601 week date that `date.isocalendar` computes |
| `date_text.dfy` | `DateText` | the `YYYY-MM-DD` text that `strftime` writes and `strptime` reads, with both round trips |
| `text.dfy` | `Text` | `str.strip` and case-insensitive substring search |
| `classifier.dfy` | `Classifier` | the question tree as nested conditionals, as a transition table walked one reply at a time, and the container counters |
| `ledger.dfy` | `Ledger` | the form's record, the period totals as a specification, and `procesar_datos_basura` as a method with loops over zero-initialised accumulators |
| `as_written.dfy` | `LedgerAsWritten` | `procesar_datos_basura` as written, with Python's exceptions as failures |
| `table.dfy` | `Table` | the flattened row (`fila`) and `filtrar_datos` |
| `intake.dfy` | `Intake` | the save button: the blank-name guard, the aggregation of the new record and the appended row |

The period tests follow the code. A record counts weekly when its ISO
week-numbering year and week equal the reference date's. That test does
not depend on the calendar-year test for the annual total. For example,
2024-12-30 lies in week 1 of ISO year 2025. With 2025-01-01 as reference
it counts in the weekly total and in neither the monthly nor the annual
one (`Ledger.WeekCrossesNewYear`). A weekly record is nevertheless always
within six days of the reference date (`Ledger.WeeklyIsNear`).

The save button is meant to aggregate only the record being saved,
around the day of the save. Each stored row would therefore report that
one record's weights in the periods of that day, and rows are never
revised afterwards (`Intake.Submit`, `Intake.SavedSameDay`). As written,
the aggregation raises `KeyError('organico')` before the row is appended
(`LedgerAsWritten.SaveAsWrittenRaises`, "## Findings").

The intended aggregation appears twice on purpose. `Ledger.ProcessWasteData`
is the loop the program means to run, over maps keyed by kind, proved
against `Ledger.PeriodSum`. `LedgerAsWritten.ProcessIntended` is the
program's own code over string-keyed dictionaries, with only the starting
dictionaries changed to zeros; `LedgerAsWritten.IntendedTotals` proves it
gives the same `Ledger.PeriodSum` totals and bag counts, so the two agree
and the one-line fix suffices.

## Model

| member | source | states |
|---|---|---|
| Classifier.Classify | ReciBot.py:383-461 | computes the container for a complete set of answers, as the nested conditionals of the form; `ResolveIsClassify` and the `*Iff` rows state what it gives |
| Classifier.Walk | ReciBot.py:383-461 | feeds replies to the form from a question on; a walk that reaches a leaf consumes at least one reply and leaves a suffix of them unused, and a walk that runs out of replies stops at the same or a later question |
| Classifier.Resolve | ReciBot.py:383-461 | computes the container the transition table reaches from a question for a set of answers; `ResolveIsClassify` ties it to `Classify` |
| Classifier.Step | ReciBot.py:383-461 | every reply to a question either shows a container or asks a question placed later in the form, so no question is asked twice and every walk ends |
| Classifier.Transcript | ReciBot.py:383-461 | the replies the form asks for from a question on: at least one, at most one per remaining question, the first being the reply to that question |
| Classifier.WalkTranscript | ReciBot.py:383-461 | feeding the form the transcript of a set of answers reaches the container the table assigns and consumes exactly the transcript, leaving later replies unused |
| Classifier.WalkHasAnswers | ReciBot.py:383-461 | every reply sequence that reaches a leaf is the transcript of some complete set of answers and ends in that set's container, so the table and the answer sets describe the same leaves |
| Classifier.ResolveIsClassify | ReciBot.py:383-461 | the transition table and the nested conditionals give the same container for every set of answers |
| Classifier.TranscriptShort | ReciBot.py:383-461 | each set of answers ends in exactly one leaf after one to eight questions |
| Classifier.LiquidIsSpecial | ReciBot.py:383-461 | a liquid is special waste and the form asks nothing after the first question |
| Classifier.CookedNaturalIsOrganic | ReciBot.py:383-390 | solid, natural and cooked or greasy waste is organic after exactly three questions |
| Classifier.OrganicIff | ReciBot.py:384-395 | organic exactly for solid natural waste that is cooked or greasy, or is peel, seed, bone or vegetable |
| Classifier.RecyclableIff | ReciBot.py:418-430 | recyclable exactly for solid, non-natural, non-paper glass, plastic or metal that is clean and is PET, glass or aluminium |
| Classifier.PaperIff | ReciBot.py:399-409 | paper exactly for solid, non-natural paper or cardboard that is not soiled and is clean paper |
| Classifier.SpecialIff | ReciBot.py:438-461 | special exactly for liquids and for electronics or hazardous items that reach the last two questions |
| Classifier.NonRecyclableIff | ReciBot.py:399-446 | non-recyclable exactly on the soiled or waxed paper, the unwashed or hard-plastic container, and the hygiene or textile branches |
| Classifier.UnresolvedIff | ReciBot.py:392-458 | the "cannot classify" message appears exactly at the three leaves after the peel, waxed-paper and hazardous questions |
| Classifier.EveryOutcomeReachable | ReciBot.py:383-461 | every container and the message are reached by some set of answers |
| Classifier.Count | ReciBot.py:314-318 | a container bumps its own counter by one and no other; the message bumps none |
| Classifier.CountAll | ReciBot.py:314-318 | computes the counters after a run of classifications from zero; `CountAllCounts` states their values |
| Classifier.CountAllCounts | ReciBot.py:314-318 | after a run of classifications each counter equals the number of times its container came out, and the counters add up to the number of resolved classifications |
| Calendar.IsoCalendar | ReciBot.py:97-98 | computes `date.isocalendar()` from the day number and the week-1 Mondays of the calendar year and its neighbours; `IsoCalendarSpec` states what it gives |
| Calendar.IsoYearUnique | ReciBot.py:97-98 | a day number lies between the week-1 Mondays of at most one ISO year, so the ISO year `IsoCalendarSpec` places a day in is the only one |
| Calendar.IsoCalendarSpec | ReciBot.py:97-98 | the ISO week date of a day places it between the week-1 Monday of its ISO year and the next, at its week and weekday; the ISO year is the calendar year or a neighbour |
| Calendar.SameIsoWeekIff | ReciBot.py:97-98 | two dates have the same ISO year and week exactly when they lie in the same Monday-to-Sunday week |
| Calendar.SameIsoWeekIsClose | ReciBot.py:97-98 | dates in the same ISO week are at most six days apart |
| Calendar.LastMondayOf2024 | ReciBot.py:97-98 | 2024-12-30 is ISO 2025-W01-1 |
| Calendar.NewYearsDay2025 | ReciBot.py:97-98 | 2025-01-01 is ISO 2025-W01-3 |
| Calendar.FirstMondayOfJune2025 | ReciBot.py:97-98 | 2025-06-02 is ISO 2025-W23-1 |
| Calendar.FirstTuesdayOfJune2025 | ReciBot.py:97-98 | 2025-06-03 is ISO 2025-W23-2 |
| Calendar.ThirdOfJanuary2021 | ReciBot.py:97-98 | 2021-01-03 is ISO 2020-W53-7 |
| DateText.FormatDate | ReciBot.py:47 | the date text is ten characters with dashes at positions 4 and 7 |
| DateText.ParseDate | ReciBot.py:84 | reads `YYYY-MM-DD` text as a valid date, or nothing where `strptime` raises; only ten-character text with dashes at positions 4 and 7 reads as a date |
| DateText.ParseFormat | ReciBot.py:84 | reading back the text written for a date gives the same date |
| DateText.FormatParse | ReciBot.py:84 | text that parses is the text written for the date it parses to |
| DateText.FormatInjective | ReciBot.py:175-176 | two dates have equal text exactly when they are equal |
| Text.TrimLeft | ReciBot.py:616 | the result is a suffix of the input; what was dropped is all whitespace; it does not start with whitespace |
| Text.TrimRight | ReciBot.py:616 | the result is a prefix of the input; what was dropped is all whitespace; it does not end with whitespace |
| Text.Strip | ReciBot.py:616 | the result is no longer than the input and neither starts nor ends with whitespace; it is `TrimRight` of `TrimLeft`, whose rows state what each drops |
| Text.StripEmptyIff | ReciBot.py:616-617 | a name strips to the empty text exactly when it is all whitespace |
| Text.ContainsIff | ReciBot.py:174 | the search finds the pattern exactly when it occurs at some position |
| Text.ContainsIgnoringCase | ReciBot.py:174 | the user filter matches exactly when the lower-cased pattern occurs at some position of the lower-cased name |
| Ledger.KeyInjective | ReciBot.py:76 | the six kinds have six distinct dictionary keys |
| Ledger.FormRecord | ReciBot.py:32-54 | one record holding the name, the date text that reads back as the date, and each of the six weights under its kind |
| Ledger.AddRecord | ReciBot.py:88-89 | every kind's total grows by the record's weight of that kind, zero when the record lacks the kind |
| Ledger.ProcessWasteData | ReciBot.py:57-109 | with zero-initialised accumulators the weekly, monthly and annual maps hold every kind's total over the records in that period of the reference date, and each bag count is the weekly total over the bag weight |
| Ledger.BagsFor | ReciBot.py:103-104 | each kind's bag count is its weekly total over the bag weight, from the weekly totals only |
| Ledger.InPeriod | ReciBot.py:87-98 | decides whether a date is in a period of the reference date: same ISO year and week, same year and month, or same year |
| Ledger.PeriodSum | ReciBot.py:83-100 | computes a kind's total over the records in a period of the reference date, a missing kind weighing zero; the `Ledger` lemmas below state its properties |
| Ledger.TotalsStep | ReciBot.py:83-100 | one more record keeps the loop invariant: the totals grow by its weights when it is in the period and stay put otherwise |
| Ledger.SingleRecordSum | ReciBot.py:86-100 | one record counts with its whole weight exactly when its date is in the period |
| Ledger.PeriodSumAppend | ReciBot.py:83-100 | totals over concatenated record lists add up |
| Ledger.AbsentKindSumsToZero | ReciBot.py:89 | a kind that no record weighs totals zero in every period |
| Ledger.PeriodSumNonNegative | ReciBot.py:83-100 | with non-negative weights every total is non-negative |
| Ledger.MonthlyAtMostAnnual | ReciBot.py:87-94 | with non-negative weights the monthly total never exceeds the annual one |
| Ledger.WeeklyIsNear | ReciBot.py:97-100 | a record counted weekly is within six days of the reference date |
| Ledger.OwnPeriods | ReciBot.py:87-98 | a date is in every period of itself |
| Ledger.WeekCrossesNewYear | ReciBot.py:87-100 | with reference 2025-01-01, a 2024-12-30 record counts weekly but neither monthly nor annually |
| Ledger.JuneWeekExample | ReciBot.py:87-100 | with reference 2025-06-03, a 2025-06-02 record counts in all three periods |
| Ledger.NewYearCountsAnnually | ReciBot.py:87-100 | with reference 2025-06-03, a 2025-01-01 record counts annually only |
| LedgerAsWritten.Loop | ReciBot.py:83-100 | computes the first pass over the records: parse the date, then add into the annual, monthly and weekly accumulators in that order; `LoopOutcome` and `LoopSums` state what it gives |
| LedgerAsWritten.LoopOutcome | ReciBot.py:83-100 | the first pass succeeds only when every record's date parses, and raises nothing but `ValueError` and `KeyError` |
| LedgerAsWritten.Finish | ReciBot.py:103-107 | the second pass over the kinds; it keeps the bag counts it was given, and fails only with `KeyError`, or with `ZeroDivisionError` when the bag weight is zero |
| LedgerAsWritten.ProcessAsWritten | ReciBot.py:78-109 | computes both passes from empty accumulators; `NeverReturns` states what it gives |
| LedgerAsWritten.ReferenceDate | ReciBot.py:71-74 | the reference date is today when none is given; a given text gives a date exactly when it parses, that date's text is the given text, and otherwise `ValueError` is raised |
| LedgerAsWritten.CallNeverReturns | ReciBot.py:71-109 | the whole call raises on every input: `ValueError` for reference text that is not a date, and `KeyError('organico')` with no reference text and dated records |
| LedgerAsWritten.AddAll | ReciBot.py:88-89 | computes the inner `acc[tipo] += registro.get(tipo, 0.0)` loop over the kinds in order (also 93-94 and 99-100), raising `KeyError` at the first missing key; `AddAllSums`, `AddAllRaises` and `AddAllMissingFirst` state what it gives |
| LedgerAsWritten.AddAllRaises | ReciBot.py:88-89 | the inner loop raises nothing but `KeyError` |
| LedgerAsWritten.ProcessCall | ReciBot.py:71-109 | computes the whole call as written: the reference date from the optional text or today, then both passes from empty accumulators; `CallNeverReturns` states what it gives |
| LedgerAsWritten.ProcessIntended | ReciBot.py:78-109 | computes the same two passes from accumulators holding zero for every kind; `IntendedTotals` ties it to `Ledger.PeriodSum`, the specification `Ledger.ProcessWasteData` is proved against |
| LedgerAsWritten.AddAllMissingFirst | ReciBot.py:88-89 | adding into an accumulator without the `organico` key raises `KeyError('organico')` |
| LedgerAsWritten.LoopFromEmpty | ReciBot.py:78-100 | from empty accumulators the first pass either leaves them empty, raises `KeyError('organico')`, or raises `ValueError` on an undated record |
| LedgerAsWritten.NeverReturns | ReciBot.py:78-109 | as written the function raises on every input, and raises `KeyError('organico')` whenever every date parses |
| LedgerAsWritten.EmptyInputRaises | ReciBot.py:103-104 | even with no records the second pass raises `KeyError('organico')` |
| LedgerAsWritten.SaveAsWrittenRaises | ReciBot.py:620-627 | the save button's call on the form's record always raises `KeyError('organico')` |
| LedgerAsWritten.AddAllSums | ReciBot.py:88-89 | with every key present the inner loop succeeds, adds each kind's weight once and leaves the other keys alone |
| LedgerAsWritten.LoopSums | ReciBot.py:83-100 | with every key present the first pass succeeds and adds each period's totals to its accumulator |
| LedgerAsWritten.FinishBags | ReciBot.py:103-104 | with every key present and a non-zero bag weight the second pass gives every kind a bag count of its weekly total over the bag weight |
| LedgerAsWritten.IntendedTotals | ReciBot.py:57-109 | the same code started from zeros returns every kind's unrounded weekly, monthly and annual totals (`Ledger.PeriodSum`, as `Ledger.ProcessWasteData` does) and bag count |
| Table.ColumnName | ReciBot.py:130-133 | a column's name reads back, split at its first underscore into group prefix and kind key, as that column |
| Table.ParseColumnName | ReciBot.py:130-133 | every name that reads back as a column is that column's name |
| Table.ColumnNameInjective | ReciBot.py:130-133 | distinct columns have distinct names |
| Table.Fila | ReciBot.py:127-134 | builds the flattened row from the record and the four buckets; `FilaColumns` states its columns |
| Table.FilaColumns | ReciBot.py:127-134 | the row keeps the record's user and date text, and each tagged column holds its kind's value from the bucket of its group |
| Table.FilterData | ReciBot.py:161-177 | the user filter when a user is given, then the date filter when a date is given; `FilterDataSpec` states what it keeps |
| Table.ByUser | ReciBot.py:174 | computes the user stage: the rows whose user contains the pattern ignoring case, in order; `FilterDataIsSelected` states what it keeps |
| Table.ByDate | ReciBot.py:176 | computes the date stage: the rows whose date text equals the given text, in order; `FilterDataIsSelected` and `DateFilterSelectsDay` state what it keeps |
| Table.FilterDataIsSelected | ReciBot.py:161-177 | the two-stage filter keeps exactly the rows meeting every given criterion, in order |
| Table.SelectedIsSubsequence | ReciBot.py:161-177 | the filter output is an order-preserving subsequence of its input |
| Table.SelectedCounts | ReciBot.py:161-177 | a selected row comes out as often as it went in and any other row not at all |
| Table.SelectedIdempotent | ReciBot.py:161-177 | filtering twice with the same criteria equals filtering once |
| Table.FilterDataSpec | ReciBot.py:161-177 | with no user and no date the table is returned unchanged; otherwise it is an order-preserving, count-preserving selection; and the filter is idempotent |
| Table.DateFilterSelectsDay | ReciBot.py:175-176 | the date filter keeps a saved row exactly when its record's date is the requested date |
| Intake.Store.constructor | ReciBot.py:156-157 | a table that was never saved to has no rows |
| Intake.Store.Append | ReciBot.py:136-143 | the new row is added after the existing rows, which are unchanged |
| Intake.Submit | ReciBot.py:613-638 | a save happens exactly when the name is not blank; a blank name leaves the table as it was; otherwise exactly one row is appended, earlier rows are kept, and the new row is the one saved for the form's record aggregated around today |
| Intake.SnapshotRow | ReciBot.py:620-632 | the row built from the aggregated one-record list is the row saved for that record |
| Intake.FilaIsSaved | ReciBot.py:127-134 | the flattened row of the four buckets holds, in every column, the record's total in the column's period, over the bag weight for bag columns |
| Intake.SavedSameDay | ReciBot.py:620-632 | a record dated on the day of the save is reported with its own weights in every period column and its weight over 3 kg in every bag column |
| Intake.SavedOtherYear | ReciBot.py:620-632 | a record of another year is reported as zero in every monthly and annual column |
| Intake.SavedInEveryPeriod | ReciBot.py:620-632 | a record whose date is in every period of the save day is reported with its weight in each period column |
| Intake.JuneSaveExample | ReciBot.py:620-632 | 6 kg of plastic dated 2025-06-02 and saved on 2025-06-03 is stored as 6.0 weekly, monthly and annually and as 2.0 bags |

## Left out

- Ledger.ProcessWasteData: totals and bag counts are exact `real` values. The rounding to two decimals (ReciBot.py:104-107) and floating-point addition are not modelled.
- Ledger.ProcessWasteData: requires dates that parse and a non-zero bag weight. In the program these cases raise `ValueError` and `ZeroDivisionError`; `LedgerAsWritten.Loop` and `LedgerAsWritten.Finish` model both, and the only caller passes a formatted date and 3.0.
- Today's date is a parameter. Reading the clock (ReciBot.py:72) is not modelled; the save button passes the day of the save. `LedgerAsWritten.ReferenceDate` models the optional reference text (ReciBot.py:71-74); `Ledger.ProcessWasteData` takes the reference date already read.
- LedgerAsWritten: `Finish` does not model `round(..., 2)` on the bag counts, nor the write-back of the rounded weekly, monthly and annual totals (ReciBot.py:104-107). Rounding cannot change which exception is raised; `IntendedTotals` states the unrounded totals.
- DateText.ParseDate: accepts only the zero-padded `YYYY-MM-DD` form, which is the only form the program writes. The more lenient inputs `strptime` also accepts are not modelled.
- Years are limited to 1..9999, as `datetime.date` does. `FormatDate` always writes four year digits.
- Text.ContainsIgnoringCase: the user filter is a literal substring match. Pandas reads the pattern as a regular expression, and that is not modelled.
- Text.Lower: case folding covers ASCII and Latin-1 letters only, not the whole of Unicode.
- Rows key their totals by a `Column(tag, kind)` value rather than by the column-name text. `Table.ColumnNameInjective` shows the two keyings agree. The order of the columns in the stored file is not modelled.
- CSV persistence (ReciBot.py:136-158) is modelled as appending a row to the `Intake.Store` sequence. Reading the file back, and any re-typing of values by `read_csv`, is left out.
- The Streamlit survey widgets are left out. This includes each radio button's default selection and the widget state kept between reruns; the model takes a complete set of answers, or a sequence of replies.
- The counters (ReciBot.py:314-326) are module-level variables that start at zero on every rerun of the script. The `basura` dictionary copies their initial zeros and is never updated. The model counts a run of classifications with `Classifier.Tally` and does not model the reruns.
- Presentation is not modelled: page layout, the logo, the FAQ, the charts (ReciBot.py:194-283) and the statistics page apart from `filtrar_datos`.

## Findings

| source | as written | input that shows it | evidently intended | confidence | as-written member | corrected member |
|---|---|---|---|---|---|---|
| ReciBot.py:78-109 | the accumulators start as empty dictionaries, so the first `anual[tipo] += ...` or the read of `semanal[tipo]` raises `KeyError('organico')` | `procesar_datos_basura([])`, or any list of dated records | every kind starts at 0.0 in each accumulator, as `dict(semanal)` and the unused `defaultdict` import suggest | not executed | LedgerAsWritten.NeverReturns | Ledger.ProcessWasteData |
| ReciBot.py:620-638 | the save button calls the aggregation on the form's record, which raises before the row is written, so nothing is ever saved | any non-blank name, any date and any weights | the form's record is aggregated around today and its row is appended | not executed | LedgerAsWritten.SaveAsWrittenRaises | Intake.Submit |
