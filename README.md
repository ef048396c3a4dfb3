# Diary scheduling pipeline of the medical diary generator

This project models the part of the medical diary generator that does real work in Dafny. From a hospital stay, it builds the ordered day-by-day observation diary and the Word document made from it. The stay is given by the admission, surgery and discharge dates and the three narrative templates the text provider returns.

- **`helpers.dfy`** (`utils/helpers.ts`) covers the calendar and the random draws:
  - the inclusive date range, with a loop method proved against its function;
  - the weekend and Monday/Friday tests and `formatDate` as `DD.MM.YYYY`;
  - `getRandomInt`, `getRandomElement` and `generateVitals`;
  - `formatTime`.
- **`strings.dfy`** holds the JavaScript string operations these rely on:
  - `toString` of integers;
  - `padStart(2, '0')`;
  - `replace(/\s+/g, '_')`.
- **`app.dfy`** (`App.tsx`, `handleGenerate`) covers the generation run:
  - the chain of validations;
  - the template chosen per day;
  - the entries of one day;
  - the `forEach` that writes the entries of the whole stay, as the method `BuildEntries` proved against the function `Schedule`.
- **`docx_generator.dfy`** (`services/docxGenerator.ts`) covers the document:
  - the paragraphs of an entry block (`createEntryBlock`);
  - the loop of `generateDocx`, which buffers weekend entries and writes one summary per run, proved against the function `DocumentOf`; the date text of a summary is the corrected one described under "## Findings";
  - the file name.
- **`types.dfy`** and **`wrappers.dfy`** hold the records (`types.ts`) and the Option and Result types.

Representation:
- **Dates** are day numbers counted from 1 January 1970, a Thursday, so the day of the week is `(d + 4) % 7`.
- **Temperatures** are integer tenths of a degree.
- **`Math.random()`** is an oracle `rng: nat -> Unit`, a stream of draws read from a cursor. A draw is a multiple of 2^-53 in [0, 1), held as its numerator.
  - A weekday consumes five draws for the vitals and one for the minute of `formatTime`.
  - A weekday surgery date consumes five more for the evening vitals.
  - A weekend day consumes none.

Three facts of the code shape the model:
- `handleGenerate` reads three templates, `preOp`, `postOpStandard` and `postOpFinal` (`App.tsx:73`). A weekday after the surgery date takes `postOpFinal` when it is the day before discharge or the discharge day, because the test `date >= end - 1` (`App.tsx:104`) runs only when the date is not before the surgery (`App.tsx:101-102`); a weekday surgery date has its own morning and evening entries (`App.tsx:128-152`).
- The narrative text is copied into the entries as the provider returned it.
- A weekend day gets the bare placeholder even when it is the surgery or discharge date, because the weekend test comes first (`App.tsx:85-91`).

## Model

| member | source | states |
|---|---|---|
| Helpers.DatesInRange | utils/helpers.ts:12-22 | `end - start + 1` dates when `start <= end` and none otherwise; the i-th is `start + i`, so they ascend by one day from `start` to `end` |
| Helpers.GetDatesInRange | utils/helpers.ts:12-22 | the `while` loop that pushes `curr` and steps a day returns exactly `DatesInRange(start, end)` |
| Helpers.DayOfWeek | utils/helpers.ts:54-64 | `getDay` numbering: a value from 0 (Sunday) to 6 (Saturday) |
| Helpers.WeekFacts | utils/helpers.ts:54-64 | an inspection day (Monday or Friday) is never a weekend day; two weekend days in a row are Saturday then Sunday with weekdays on both sides; the weekend test repeats every seven days |
| Helpers.CivilFromDays | utils/helpers.ts:3-10 | the calendar date of a day number has a month from 1 to 12 and a day from 1 to 31 |
| Helpers.FormatDateFields | utils/helpers.ts:3-10 | `formatDate` gives `DD.MM.YYYY`: two digits that read back as the day, a dot, two digits that read back as the month, a dot, the year |
| Helpers.RandomInt | utils/helpers.ts:25-27 | `getRandomInt(min, max)` lies in `[min, max]` when `min <= max`, and in `(max, min]` when the range is reversed, as `Math.floor` of the negative product gives |
| Helpers.RandomIntCovers | utils/helpers.ts:25-27 | every integer of `[min, max]` is returned for some draw when the range has at most 2^53 values |
| Helpers.RandomElement | utils/helpers.ts:30-32 | `getRandomElement` returns an element of the array |
| Helpers.RandomElementCovers | utils/helpers.ts:30-32 | every element of the array is picked by some draw |
| Helpers.GenerateVitals | utils/helpers.ts:36-52 | systolic is in {120, 125, 130}, diastolic in {80, 85, 90}, heart rate in [60, 78], respiratory rate in [16, 18], temperature 36.2 to 36.8 degrees |
| Helpers.GenerateVitalsCovers | utils/helpers.ts:36-52 | conversely, every reading within those ranges is generated by some five draws, so the ranges are exact |
| Helpers.FormatTimeShape | utils/helpers.ts:66-70 | `formatTime(h, v)` for `h` and `v` below 100 is five characters `HH:MM`; HH reads back as `h` and MM as a minute in `[0, v]` |
| Strings.NatToString | utils/helpers.ts:69 | the decimal digits of a number: at least one digit, and a single digit exactly below 10 |
| Strings.IntToString | utils/helpers.ts:69 | `toString`: digits for a non-negative number, a leading minus sign for a negative one |
| Strings.ParseNatToString | utils/helpers.ts:69 | reading back the printed digits gives the number again |
| Strings.PadStart2 | utils/helpers.ts:69 | `padStart(2, '0')` leaves a string of two or more characters as it is and puts zeros in front of a shorter one up to length two |
| Strings.TwoDigits | utils/helpers.ts:69 | a number below 100 printed and padded is two digits that read back as the number |
| Strings.ReplaceSpaceRuns | services/docxGenerator.ts:255 | The result of `replace(/\s+/g, '_')` contains no whitespace, is no longer than the input, and is empty exactly when the input is empty. |
| Strings.ReplaceSpaceRunsIdentity | services/docxGenerator.ts:255 | a string without whitespace is left unchanged |
| Strings.ReplaceSpaceRunsIdempotent | services/docxGenerator.ts:255 | replacing twice gives the same as replacing once |
| Strings.ReplaceSpaceRunsJoin | services/docxGenerator.ts:255 | between two whitespace-free words, a whitespace run of any length becomes one underscore |
| Strings.DropSpaces | services/docxGenerator.ts:255 | dropping the leading whitespace leaves a suffix that does not begin with whitespace, after only whitespace |
| App.Validate | App.tsx:41-64 | each alert is raised exactly when its check is the first to fail: missing fields, then admission after discharge, then surgery outside the stay, then surgery missing; success yields the stay with admission <= surgery <= discharge |
| App.SelectPhase | App.tsx:101-109 | `preOp` iff date < surgery; `postOpFinal` iff surgery <= date and date >= end - 1; `postOpStandard` iff surgery <= date < end - 1; the three are disjoint and cover every day |
| App.ObjectiveOrDefault | App.tsx:122 | an empty objective status becomes the default text; a non-empty one is kept |
| App.BloodPressureShown | utils/helpers.ts:47 | a generated reading prints as one of the nine strings `120/80` to `130/90` |
| App.WeekendEntryOk | App.tsx:85-91 | a weekend day's entry is a placeholder: type `weekend`, no time, all vitals 0, all texts empty, no flags |
| App.RegularEntryOk | App.tsx:93-125 | a regular entry is dated on its day, timed `09:MM` with MM at most 30, has flags from the calendar and the stay, plausible vitals and its phase's template text |
| App.MorningEntryOk | App.tsx:127-136 | the morning surgery entry is timed `08:MM` and carries the pre-operative texts and the preparation note |
| App.EveningEntryOk | App.tsx:138-152 | the evening surgery entry is at `18:00` with its own plausible vitals, the fixed post-operative texts and no inspection |
| App.DayEntriesOk | App.tsx:84-156 | a weekend day yields one placeholder, even on the surgery or discharge date; a weekday surgery date yields a morning entry and then an evening entry; any other weekday yields one regular entry |
| App.Blocks | App.tsx:84-156 | one block of entries per day of the range |
| App.FlatLength | App.tsx:84-156 | over ascending days the entries number one per day plus one for a weekday surgery date |
| App.FlatAll | App.tsx:84-156 | every entry written is one the writer can write, dated on one of the days |
| App.FlatCovers | App.tsx:84-156 | every day has at least one entry |
| App.FlatOrdered | App.tsx:84-156 | entries are in date order, and two entries share a date only as the adjacent morning and evening surgery entries |
| App.WriterOk | App.tsx:84-156 | the writer of a stay writes, for every day and cursor, entries of the right shape that are all well formed |
| App.ScheduleOk | App.tsx:84-156 | over ascending days: the count, well-formedness, coverage and date order of the entries together |
| App.StayScheduleOk | App.tsx:75-156 | for a valid stay: `end - start + 1` entries plus one when surgery is on a weekday, each well formed and inside the stay, every day present, in date order |
| App.NextEntryDate | App.tsx:84-91 | in such entries, the entry after a weekend placeholder is dated the next day |
| App.NoThreeWeekends | App.tsx:84-91 | such entries never contain three weekend placeholders in a row |
| App.StayWeekendSummaries | services/docxGenerator.ts:179-234 | in a stay's document, every weekend summary covers one or two days and every clinical entry has its own block |
| App.JuneStayEntries | App.tsx:84-156 | for the stay of 3 to 10 June 2024 with surgery on the 5th: nine entries; days before surgery take `preOp`, Friday the 7th `postOpStandard`, the discharge day `postOpFinal`; the 8th and 9th are weekend days |
| App.JuneStayDates | utils/helpers.ts:3-10 | days 19877 and 19884 are Monday 3 June 2024 and Monday 10 June 2024 |
| App.WriteDay | App.tsx:85-155 | the body of the `forEach` writes exactly the entries of the day, and the cursor advances by the draws of the day (0, 6 or 11) |
| App.BuildEntries | App.tsx:75-156 | the `forEach` over the date range pushes exactly `Schedule` of the range, and consumes exactly the draws of the range |
| App.StepAppend | App.tsx:84 | pushing the entries of day `i` after those of the days before it gives the entries of the first `i + 1` days |
| App.HandleGenerate | App.tsx:39-163 | a failed validation shows its own alert text; a provider error shows `Ошибка: ` and its message; an empty reply shows `Ошибка: AI не вернул данные.`; otherwise the entries are `Schedule` of the stay from draw 0 and the document is made from them |
| DocxGenerator.TemperatureTextGenerated | services/docxGenerator.ts:89 | a generated temperature prints as `36.` followed by its tenth |
| DocxGenerator.EntryFields | services/docxGenerator.ts:41-122 | six paragraphs, the title, date and time, and four fields, none of them a signature |
| DocxGenerator.SignatureLines | services/docxGenerator.ts:125-128 | the doctor's line first; the head of department's second only on an inspection day; so 1 or 2 lines |
| DocxGenerator.EntryBlockShape | services/docxGenerator.ts:37-147 | 8 paragraphs, or 9 on an inspection day; the title is the head-of-department variant iff the inspection flag holds; the objective status carries the vitals sentence; the signature count is 2 iff the flag holds, else 1; the separator is last |
| DocxGenerator.Dates | services/docxGenerator.ts:196-206 | the dates of the buffered entries, in order |
| DocxGenerator.WeekendPrefix | services/docxGenerator.ts:187-193 | the leading run of weekend entries: all weekend, and followed by a clinical entry or by the end |
| DocxGenerator.GroupsShape | services/docxGenerator.ts:179-234 | each weekend run is non-empty and all weekend, each single is clinical, and no two weekend runs are adjacent, so every run is maximal |
| DocxGenerator.FlattenGroups | services/docxGenerator.ts:179-234 | the groups hold exactly the entries, in their order |
| DocxGenerator.SinglesAreClinical | services/docxGenerator.ts:181-233 | the number of entry blocks equals the number of clinical entries |
| DocxGenerator.WeekendRunsShort | services/docxGenerator.ts:187-229 | when no three weekend entries are adjacent, each weekend summary covers at most two entries |
| DocxGenerator.GroupsOfWeekendRun | services/docxGenerator.ts:187-229 | a list of only weekend entries is one run, which gets a single summary |
| DocxGenerator.RunDateText | services/docxGenerator.ts:196-206 | the corrected date text of a run (see "## Findings"), not the program's: a single day shows `formatDate` of that day; a longer run ends with the last date in full and begins with the first day's two digits |
| DocxGenerator.WeekendNoteText | services/docxGenerator.ts:196-212 | the words of a weekend summary end with the weekend sentence, preceded by the last date in full and begun by the first day's digits; a single day reads as its full date and the sentence (corrected date text, see "## Findings") |
| DocxGenerator.RangeTextFacts | services/docxGenerator.ts:198-205 | the range text ends with the last date and begins with the first day; across a month boundary it begins with the first date in full |
| DocxGenerator.RangeTextWithinMonth | services/docxGenerator.ts:198-205 | within one month the corrected text equals the text as written, `DD-DD.MM.YYYY` |
| DocxGenerator.RangeTextAsWrittenMisdatesLast | services/docxGenerator.ts:198-205 | as written, a run across two months of a year does not end with its last date |
| DocxGenerator.RunDateTextAsWrittenMisdatesSunday | services/docxGenerator.ts:196-206 | the run Saturday 31.08.2024 and Sunday 01.09.2024 is shown as `31-01.08.2024` as written, and as `31.08.2024-01.09.2024` once corrected |
| DocxGenerator.FileName | services/docxGenerator.ts:255 | `Дневник_` + the name with whitespace runs replaced + `.docx`, and no whitespace at all |
| DocxGenerator.ClinicalStep | services/docxGenerator.ts:230-233 | pushing a clinical entry's block keeps the paragraphs written so far a prefix of the document |
| DocxGenerator.WeekendStep | services/docxGenerator.ts:187-229 | at the end of a weekend run, appending that run's one summary to what has been written so far gives the document rendered up to the entry after the run |
| DocxGenerator.GenerateDocx | services/docxGenerator.ts:149-234 | the loop writes exactly `DocumentOf` the entries: the header, then one summary per maximal weekend run and one entry block per clinical entry, in order, and the file name |

## Left out

- The narrative provider (`services/geminiService.ts`) is a call over the network with best-effort parsing of its reply. Its outcome is an input: the templates, an empty reply, or the message of the error it threw.
- The React UI, the `localStorage` draft, the loading state, `Packer.toBlob` and `saveAs`. A document is the list of its paragraphs and the file name. Fonts, sizes, spacing, tab stops and borders are not modelled.
- Date strings and JavaScript `Date` are not modelled:
  - Dates are day numbers. Invalid or unparsable date strings are not modelled.
  - Time-zone effects of parsing an ISO string as UTC and then reading it with local `getDay`/`setDate` are not modelled.
  - `toLocaleDateString('ru-RU')` is modelled as the `DD.MM.YYYY` formatter it produces.
- Floating point: temperatures are integer tenths; `toFixed(1)` and `parseFloat` are therefore identities.
- `Math.random()` draws are modelled as multiples of 2^-53 in [0, 1), delivered by the oracle `rng`. How the engine produces them is not modelled.
- `(entry as any).diagnosis = ...` (`services/docxGenerator.ts:185`): the mutation writes a field nobody reads and changes nothing in the output.
- The `patientName` argument of `createEntryBlock` is unused by the source and is not modelled.
- An error thrown while the document is packed or saved (`Packer.toBlob`, `saveAs`) would also be shown as `Ошибка: ` and its message (`App.tsx:160-162`); packing and saving are not modelled, so this path is not either.
- Helpers.RandomInt, Helpers.RandomElement: the product of the draw and the range size is taken exactly, while JavaScript rounds it to a double before `Math.floor`; a few draws just below a multiple of 1/n therefore give the next value up in the source (for example `getRandomInt(60, 78)` with the draw 8533136136070413·2^-53 gives 78 there and 77 here). The ranges and the coverage lemmas hold under both.
- Helpers.RandomIntCovers: requires the range to have at most 2^53 values, because a wider range has integers no draw can reach.

## Findings

| source | as written | input that shows it | evidently intended | confidence | as-written member | corrected member |
|---|---|---|---|---|---|---|
| services/docxGenerator.ts:199-205 | a run of several weekend days is shown as `firstDay-lastDay.MM.YYYY`, with the month and year taken from the first day only | Saturday 31 August 2024 and Sunday 1 September 2024 are shown as `31-01.08.2024`, which dates the Sunday to 1 August | a run that crosses a month or year boundary shows both full dates, `31.08.2024-01.09.2024`; within one month the text is unchanged | high for the text; not executed | DocxGenerator.RunDateTextAsWrittenMisdatesSunday | DocxGenerator.RunDateText |
