# Dental chart, report, date picker and sign-in form — a Dafny model

This project models the behavioural core of a dental-clinic mobile app:

- **The odontogram editor** (`Odontogram`). It holds a 32-tooth chart numbered with the fixed FDI (ISO 3950) table. The chart is seeded from optional prior records and edited with a status "brush". The confirmed reset clears it, and save hands it to the caller. A read-only editor never changes its chart: pressing a tooth there only selects it for inspection.
- **The odontogram report** (`OdontogramViewer`). It gives status counts over the given records and the healthy share as an exact ratio. It also lists the clinical observations (records with non-empty notes) and the drawn chart cells.
- **The date picker** (`Calendar`, on top of `Dates`). Its loop builds a Sunday-aligned grid of whole weeks covering the displayed month. It also covers month navigation with year wrap, the "selected" and "current month" tests, and selection, which reports the date and then closes the picker.
- **The sign-in / sign-up form** (`AuthForm`). Its submit handler runs ordered validation checks. It then either shows one alert or submits one payload.

The shared data model (`ToothModel`) has the following parts:

- The tooth record and its eight statuses.
- The five optional surface flags, where `None` is a key absent from the record.
- JavaScript truthiness: a surface counts only when its flag is present and `true`, and notes count only when present and non-empty.
- The `find` lookup and the `filter(...).length` count.
- The rule for which faces are drawn on a tooth.

JavaScript dates are modelled in `Dates` as follows:

- A date is a proleptic Gregorian `(year, month 0–11, day)` triple.
- Its day number counts days since 1 January 1970. The weekday is `(dayNumber + 4) % 7`.
- `setDate` and `new Date(y, m, d)` are given their normalisation into the neighbouring month.
- A `Moment` adds the time of day for the picker's two stored dates.

Behaviour of the code worth knowing before reading the model:

- The status selector is not rendered in read-only mode, so choosing a brush is only possible while editing (`SelectStatus` requires an editable editor).
- A reset keeps every tooth's `id` and `number`. It gives the same chart as an empty seed only when the teeth carry the default ids (`ResetOfDefaultChart`).
- The report shows four counts (healthy, caries, filled, extracted). The healthy share divides by the number of records, which can be any number, including 0.
- Teeth are updated by matching their number. An update for a number that no tooth carries changes nothing (`UpdateUnknownNumber`).

## Model

| member | source | states |
|---|---|---|
| ToothModel.ToothNumbersWellFormed | components/Odontograma.tsx:27-30 | the table holds 32 distinct FDI numbers: the upper arch in quadrants 1–2, the lower arch in quadrants 3–4 |
| ToothModel.FindIndex | components/Odontograma.tsx:47 | `find` by number: none exactly when no record has the number; otherwise the index of the first record that has it |
| ToothModel.Find | components/Odontograma.tsx:113-114 | the found record is the first record carrying the number; none exactly when no record has it |
| ToothModel.Count | components/Odontograma.tsx:308 | the `filter(...).length` count never exceeds the number of records |
| ToothModel.CountAppend | components/OdontogramaViewer.tsx:104-107 | the count over two concatenated lists is the sum of the two counts |
| ToothModel.CountsPartition | components/Odontograma.tsx:9 | every record has exactly one of the eight statuses, so the eight counts sum to the number of records |
| ToothModel.DisplayedCountsBounded | components/Odontograma.tsx:305-330 | the four displayed counts together never exceed the number of records |
| ToothModel.MarksFrom | components/Odontograma.tsx:139-161 | a face is drawn exactly when its flag is present and true; faces are drawn once each, in drawing order |
| ToothModel.SurfaceMarks | components/Odontograma.tsx:132-163 | an extracted tooth shows no faces (it shows an X); any other tooth shows exactly its marked faces, in order |
| ToothModel.Decimal | components/Odontograma.tsx:49 | the number printed in the template literal: decimal digits only, no leading zero, reading back as the number |
| ToothModel.DefaultTooth | components/Odontograma.tsx:48-53 | the default record has id `tooth-<n>` and number `n`, status healthy, no surface flags and no notes |
| Odontogram.UpdateTeeth | components/Odontograma.tsx:65-69 | the length is kept; teeth with the number get the spread-merged update; every other tooth is unchanged |
| Odontogram.UpdateUnknownNumber | components/Odontograma.tsx:65-69 | an update for a number no tooth carries leaves the chart unchanged |
| Odontogram.UpdateIdempotent | components/Odontograma.tsx:65-69 | applying an update twice equals applying it once, for every update, including one that renumbers the tooth |
| Odontogram.StatusUpdateOnlySetsStatus | components/Odontograma.tsx:78 | a `{ status }` update changes only the status of the targeted teeth; every other field and tooth is unchanged |
| Odontogram.ResetTeeth | components/Odontograma.tsx:100-105 | the reset keeps the length, each id and each number; every tooth becomes healthy with no flags and no notes |
| Odontogram.ResetIdempotent | components/Odontograma.tsx:100-105 | resetting twice equals resetting once |
| Odontogram.ResetAfterPress | components/Odontograma.tsx:72-105 | a reset erases any press, whatever the brush |
| Odontogram.SeedTooth | components/Odontograma.tsx:47-53 | the entry for a number is the first seed record carrying it, otherwise the default tooth; it always carries the number |
| Odontogram.InitialChart | components/Odontograma.tsx:44-56 | the seeded chart has one entry per table number, in table order |
| Odontogram.InitialChartShape | components/Odontograma.tsx:44-56 | the seeded chart has exactly the 32 table numbers in order; each entry is the first seed record with that number, or the default tooth when the seed has none; seed records numbered outside the table never appear |
| Odontogram.EmptySeedIsCleared | components/Odontograma.tsx:48-53 | without seed data every tooth starts healthy, with no flags and no notes |
| Odontogram.ResetOfDefaultChart | components/Odontograma.tsx:99-105 | a well-numbered chart with the default ids resets to the empty-seed chart |
| Odontogram.PressKeepsIdentity | components/Odontograma.tsx:72-79 | presses keep the numbering invariant and every tooth's id |
| Odontogram.ExtractionScenario | components/Odontograma.tsx:72-79 | on a fresh chart, pressing 48 with the extraction brush extracts 48 and leaves all other teeth healthy |
| Odontogram.BuildInitialTeeth | components/Odontograma.tsx:44-56 | the seeding loop builds exactly the seeded chart, which is well numbered |
| Odontogram.OdontogramEditor.constructor | components/Odontograma.tsx:43-59 | a session opens on the seeded chart, with no tooth selected and the healthy brush |
| Odontogram.OdontogramEditor.SelectStatus | components/Odontograma.tsx:242 | the brush becomes the chosen status; the chart and selection are unchanged |
| Odontogram.OdontogramEditor.UpdateTooth | components/Odontograma.tsx:62-70 | read-only: the chart is unchanged; otherwise it becomes the merged chart; an update that does not renumber keeps the numbering invariant |
| Odontogram.OdontogramEditor.PressTooth | components/Odontograma.tsx:72-79 | read-only: only the selection changes, to the pressed tooth; editing: the teeth with that number take the brush status and nothing else changes |
| Odontogram.OdontogramEditor.Pressable | components/Odontograma.tsx:129 | a cell is disabled only in read-only mode and only for a healthy tooth |
| Odontogram.OdontogramEditor.TapTooth | components/Odontograma.tsx:112-129 | a tap on a cell without a tooth changes nothing; when editing, the teeth with that number take the brush status; in read-only mode a healthy tooth cannot be selected, any other is, and the chart never changes |
| Odontogram.OdontogramEditor.CloseInspection | components/Odontograma.tsx:289 | closing the panel clears the selection and changes nothing else |
| Odontogram.OdontogramEditor.ConfirmReset | components/Odontograma.tsx:88-110 | read-only: no change; otherwise the chart becomes its reset; the numbering invariant is kept |
| Odontogram.OdontogramEditor.Save | components/Odontograma.tsx:81-86 | the callback receives exactly the current 32-tooth chart, or nothing is called when no callback was given |
| Odontogram.OdontogramEditor.DisplayedCounts | components/Odontograma.tsx:305-330 | each displayed figure is the count of its status, and together they never exceed 32 |
| OdontogramViewer.GetStatistics | components/OdontogramaViewer.tsx:102-111 | the total is the number of records; each figure is the count of its status; the four figures never exceed the total |
| OdontogramViewer.HealthyRatio | components/OdontogramaViewer.tsx:185 | undefined (NaN) exactly when there are no records; otherwise healthy count over record count, at most 1 |
| OdontogramViewer.Observations | components/OdontogramaViewer.tsx:195 | a record is listed exactly when it is among the records and has non-empty notes |
| OdontogramViewer.ObservationsAppend | components/OdontogramaViewer.tsx:195-200 | the filter commutes with concatenation, so the list keeps record order |
| OdontogramViewer.NoObservationsIff | components/OdontogramaViewer.tsx:201 | the observations list is empty exactly when no record has non-empty notes |
| OdontogramViewer.ShowsNoObservations | components/OdontogramaViewer.tsx:201-205 | the "no observations" line is shown exactly when no record has non-empty notes |
| OdontogramViewer.RenderTooth | components/OdontogramaViewer.tsx:44-94 | a cell is empty exactly when no record has the number; otherwise it shows the first such record's status and marks |
| OdontogramViewer.RenderChart | components/OdontogramaViewer.tsx:129-145 | cell `i` is the lookup of the `i`-th table number, upper arch then lower arch; a drawn cell shows its own number |
| OdontogramViewer.OutOfTableRecords | components/OdontogramaViewer.tsx:44-46 | a record numbered outside the table is never drawn, yet it is still in the total |
| OdontogramViewer.DrawnMarks | components/OdontogramaViewer.tsx:60-83 | a drawn extracted tooth has no face marks; any other drawn tooth shows exactly its marked faces |
| Dates.DaysInMonth | components/CalendarPicker.tsx:26 | every month has 28 to 31 days |
| Dates.MonthsFillYear | components/CalendarPicker.tsx:26 | the twelve months fill the year (365 or 366 days) |
| Dates.DayNumberInjective | components/CalendarPicker.tsx:60 | two valid dates with the same day number are the same date |
| Dates.SameDateIffSameDayNumber | components/CalendarPicker.tsx:60 | valid dates are equal exactly when their day numbers are |
| Dates.Weekday | components/CalendarPicker.tsx:28 | `getDay` is 0–6, and 1 January 1970 is a Thursday |
| Dates.SetDate | components/CalendarPicker.tsx:28 | `setDate(d)` gives a valid date `d - 1` days after the first of the month, rolling into the neighbouring month |
| Dates.MakeDate | components/CalendarPicker.tsx:25-26 | `new Date(y, m, d)` folds the month index into the year, then normalises the day as `setDate` does |
| Calendar.MakeFirstOfMonth | components/CalendarPicker.tsx:41-47 | `new Date(y, m, 1)` for month -1 is December of the year before, and for month 12 January of the year after |
| Calendar.MakeLastOfMonth | components/CalendarPicker.tsx:26 | `new Date(y, m + 1, 0)` is the last day of month `m` |
| Calendar.RunMonthField | components/CalendarPicker.tsx:63-65 | in the loop's run, a cell has the displayed month's month field exactly when it is one of that month's days |
| Calendar.RunShape | components/CalendarPicker.tsx:33-36 | the loop's run is whole weeks, at most six, from a Sunday to a Saturday |
| Calendar.RunIsMonthGrid | components/CalendarPicker.tsx:22-39 | what the loop establishes is the month grid, ending with the week that holds the month's last day |
| Calendar.GetDaysInMonth | components/CalendarPicker.tsx:22-39 | the grid: whole weeks (at most six) of consecutive valid days from the Sunday on or before the 1st to the Saturday of the month's last week; day `k` sits at cell `lead + k - 1` |
| Calendar.February1970Grid | components/CalendarPicker.tsx:33 | a month that starts on a Sunday and has 28 days (February 1970) gets exactly four weeks |
| Calendar.MonthNavigation | components/CalendarPicker.tsx:41-47 | going forward then back (or back then forward) returns to the first of the month; the next month starts right after this month's last day |
| Calendar.CalendarPicker.constructor | components/CalendarPicker.tsx:13 | the picker opens on a copy of the selected date, with no callbacks made |
| Calendar.CalendarPicker.HandlePrevMonth | components/CalendarPicker.tsx:41-43 | midnight on the first of the previous month; January wraps to December of the year before |
| Calendar.CalendarPicker.HandleNextMonth | components/CalendarPicker.tsx:45-47 | midnight on the first of the next month; December wraps to January of the year after |
| Calendar.CalendarPicker.HandleDateSelect | components/CalendarPicker.tsx:49-52 | the picked date is reported, then the picker is closed, in that order |
| Calendar.CalendarPicker.IsSelected | components/CalendarPicker.tsx:59-61 | a day is selected exactly when it is the same calendar day as the selected date, whatever the time of day |
| Calendar.SameYearMonthRange | components/CalendarPicker.tsx:63-65 | a day is in month `m` of its own year exactly when its day number falls within that month |
| Calendar.CalendarPicker.IsCurrentMonth | components/CalendarPicker.tsx:63-65 | only the month field is compared; for a day of the displayed year that is exactly "falls within the displayed month" |
| Calendar.CalendarPicker.DisplayedDays | components/CalendarPicker.tsx:63-67 | the drawn cells are the month grid, and exactly the displayed month's own days are marked as current month |
| AuthForm.HandleSubmit | components/AuthForm.tsx:23-48 | submits exactly when email and password are present and, when signing up, the passwords match and a name is given; checks run in order; the payload is the credentials, plus the sign-up fields only when signing up |
| AuthForm.LoginIgnoresSignupFields | components/AuthForm.tsx:29-38 | signing in depends only on the email and the password |
| AuthForm.InitialFormRejected | components/AuthForm.tsx:13-27 | an untouched form is refused for missing fields in both modes |
| AuthForm.DefaultRoleSubmitted | components/AuthForm.tsx:19-47 | a sign-up that fills only the required fields submits the default role "profesional" and empty phone and speciality |
| AuthForm.PressSubmit | components/AuthForm.tsx:171-173 | while loading the button makes no call; otherwise a press makes at most one `onSubmit` call, with the payload, exactly when the form is acceptable |

## Left out

- Styling, layout, icons, the colour constants, the legend toggle and the per-status colour/label/icon table: presentation with no behaviour.
- Alert dialogs. The reset confirmation dialog is reduced to its confirmed branch (`ConfirmReset`). Each form alert is reduced to an error tag, with `AuthForm.Message` giving its text. The save success alert is not modelled.
- Floating point and locale formatting (`toFixed(1)`, `toLocaleDateString`, `toLocaleTimeString`): the healthy share is an exact ratio.
- `isToday` reads the wall clock; the clock is not part of this model.
- The `patientId` prop is never used by the editor.
- The selection highlight of an editor cell (`isSelected`, line 117) and the number text colour are presentation only.
- Odontogram.OdontogramEditor.UpdateTooth: the numbering invariant is proved only for updates that do not renumber; no caller in the component renumbers.
- Odontogram.OdontogramEditor.SelectStatus: requires an editable editor, because its control is rendered only when editing.
- Odontogram.OdontogramEditor.Save: requires an editable editor for the same reason.
- Odontogram.UpdateTeeth: a partial update cannot carry `undefined` for a required field (id, number, status, surfaces); only the notes can be cleared that way.
- ToothModel.Count: on its own it only bounds the count; what it counts is fixed by its definition and by `CountAppend` and `CountsPartition`.
- Dates.SetDate: normalises only day arguments from -27 to 56, one month either side, which covers every call here. JavaScript's range limit of about 275,760 years and daylight-saving shifts are not modelled.
- Dates: dates are civil triples in local time, not millisecond time values; a time of day is kept only where it matters (`Moment`).
- Dates.MakeDate: JavaScript's `new Date(y, m, d)` reads a year argument from 0 to 99 as 1900 to 1999; the model keeps the year as given. The month handlers (`HandlePrevMonth`, `HandleNextMonth`, `MonthNavigation`) and the grid (`GetDaysInMonth`) therefore do not capture what the picker does for the years 0 to 99.
- Calendar.CalendarPicker.HandleDateSelect: the reported date is at midnight, as every grid cell is; `onDateSelect` and `onClose` are recorded as a call log rather than run.
- Calendar.CalendarPicker.IsCurrentMonth compares only the month field, as the code does; within a grid of at most 42 days this never confuses years (`DisplayedDays`).
- AuthForm: `onSubmit` is asynchronous I/O; the model returns the call it would make. Toggling password visibility and choosing the role are plain field updates.
- The sign-in screen, the routing screens and the presentational cards: I/O plumbing and lookup tables.
