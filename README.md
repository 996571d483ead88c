# Rm-entrenador core, modelled in Dafny

Rm-entrenador is the admin app of a personal trainer's gym. A Node backend keeps clients and
payments in two Google Sheets and mails overdue students. A React frontend lists students and
payments, edits a student, builds training plans and intercepts the phone's back button. This
project models the data logic of those parts and proves what it promises:

- **Sheet services** (`sheet_records.dfy`, `clients_sheet.dfy`, `payments_sheet.dfy`):
  - reading a sheet into JSON records: drop blank rows, number by position, let headers override, sort by name in place;
  - appending a row and reading the row number back from the reported range;
  - deleting a row by position and echoing its cells;
  - overwriting a row by position (clients) or by the first match of column A (payments);
  - building the schedule text `"Lun, Mié - 18:00"`.
- **Overdue reminders** (`overdue_reminders.dfy`): collect the students whose latest due date has passed, mail each one, and count them.
- **Edit-student dialog** (`edit_student.dfy`): read the schedule text back into day check boxes and a time; the form handlers.
- **Students table** (`students_table.dfy`): the search filter and `formatDate`.
- **Payments table** (`payments_table.dfy`): the per-status totals and the search filter.
- **Plan creator** (`plan_creator.dfy`): three day lists with a cap of seven exercises; add, remove and edit by id; exercise names.
- **Double-back exit** (`double_back_exit.dfy`): the two-second window of the back-button hook.

Shared pieces:

- `wrappers.dfy`: `Option` and `Response`. A `Response` is a body, or an HTTP status with its message.
- `text.dfy`: the JavaScript string functions the code relies on: `includes`, `toLowerCase`, `trim`, `split`, `join`, `padStart`, `parseInt`, and `String(n)`.
- `lists.dfy`: `filter`, `map` and `reduce`-as-sum, with their laws.
- `weekdays.dfy`: the seven-day check-box schedule.

What the outside world supplies is a parameter: the rows the Sheets API returns, the range an
append reports, the sheet id found in the metadata, the students the database query returns,
`Date.now()`, and the id `Math.random` draws. What the code sends out is a result: the Sheets
requests, the mails, the browser history calls and the JSON replies. Where the code handles a
missing or malformed input, the error reply is modelled with its status and message. Examples
are an empty range, a non-numeric id, an unknown sheet and a failed query.

No code derives a payment's status from its dates: the payments table sums the `status` text
that is stored, and the reminder job compares the latest due date with now.

## Model

| member | source | states |
|---|---|---|
| SheetRecords.DataRowsSpec | backend/services/googleSheetsService.js:44-45 | The data rows are the rows after the header that have a non-blank cell, in sheet order, each as often as in the sheet. |
| SheetRecords.MapRow | backend/services/googleSheetsService.js:47-50 | The header loop maps every header to its cell, or `""` past the row's end; of duplicate headers the last wins. |
| SheetRecords.MakeRecord | backend/services/googleSheetsService.js:47-55 | Definition of one record: positional `id` and `rowNumber`, then the header fields spread over them. MappedSpec states its properties. |
| SheetRecords.Mapped | backend/services/googleSheetsService.js:44-56 | Definition of the records before sorting: one per kept data row, numbered by position. MappedSpec and DataRowsSpec state its properties. |
| SheetRecords.MappedSpec | backend/services/googleSheetsService.js:46-56 | Record k has exactly the headers plus `id` and `rowNumber` as keys. `id` is k + 1 and `rowNumber` is k + 2 unless a header of that name overrides them. Each header holds its cell. |
| SheetRecords.SortByName | backend/services/googleSheetsService.js:58-62 | The in-place sort leaves the array ordered by lower-cased `nombre` (missing counts as `""`) and a permutation of what it was. |
| SheetRecords.GetRecords | backend/services/googleSheetsService.js:35-64 | An empty sheet gives `[]`; otherwise the answer is a permutation of the mapped data rows, sorted by name. |
| SheetRecords.FirstRowRef | backend/services/googleSheetsService.js:108 | The position found is the leftmost where `/A(\d+)/` can match. |
| SheetRecords.AppendedRow | backend/services/googleSheetsService.js:107-108 | Definition of the row number read from the reported range, `None` where the match fails and the code throws. FirstRowRef and AddReplyRoundTrip state its properties. |
| SheetRecords.AddReply | backend/services/googleSheetsService.js:106-116 | Definition of the add's reply: `id` n - 1 and `rowNumber` n, or the thrown error when no row number is found. AddReplyRoundTrip states what it gives back. |
| SheetRecords.AddReplyRoundTrip | backend/services/googleSheetsService.js:106-116 | For a range `<prefix without A>A<n><non-digit…>`, the add reports row n with `id` n - 1. The same code is at googleSheetsPayments.js:85-94. |
| SheetRecords.EntriesSpec | backend/services/googleSheetsService.js:189-191 | With distinct keys, the i-th key is echoed exactly when the removed row has a cell i, and holds that cell. |
| SheetRecords.RowRangeRow | backend/services/googleSheetsService.js:240 | The one-row range an update writes names the row it was built from. |
| ClientsSheet.GetClients | backend/services/googleSheetsService.js:28-69 | The clients list: `[]` for an empty sheet, else a name-sorted permutation of the mapped rows. |
| ClientsSheet.AbbrevInjective | backend/services/googleSheetsService.js:76-84 | Every day's abbreviation reads back as that day; no two days share one. |
| ClientsSheet.SelectedAbbrevsSpec | backend/services/googleSheetsService.js:87-90 | A day's abbreviation is listed exactly when the day is ticked. Every listed one is a ticked day's. None are listed exactly when no day is ticked. |
| ClientsSheet.AddScheduleString | backend/services/googleSheetsService.js:86-91 | Definition of the add's schedule text. ScheduleStrings, DaysTextSpec and EditStudent.ScheduleRoundTrip state its properties. |
| ClientsSheet.UpdateScheduleString | backend/services/googleSheetsService.js:231-236 | Definition of the update's schedule text, without the `No definido` case. ScheduleStrings relates it to the add's. |
| ClientsSheet.AddClientRow | backend/services/googleSheetsService.js:94 | Definition of the eight cells an add appends. DeleteAddedRow and EditStudent.LoadedRoundTrip read them back. |
| ClientsSheet.DaysTextSpec | backend/services/googleSheetsService.js:87-92 | The joined days are empty exactly when no day is ticked, so the `No definido` branch is taken exactly then; a non-empty text never starts with `N`. |
| ClientsSheet.ScheduleStrings | backend/services/googleSheetsService.js:86-92 | The added text is `"No definido"` exactly when no day is ticked; otherwise it equals the update's text (line 236). With no day ticked, the update's text is `" - "` + time. |
| ClientsSheet.DeleteClientAsWritten | backend/services/googleSheetsService.js:123-199 | The delete as written, with the `!sheetId` test. DeleteRejectsSheetZero states where it differs from DeleteClient. |
| ClientsSheet.DeleteClient | backend/services/googleSheetsService.js:123-199 | Corrected delete. 404 `Hoja no encontrada` when no sheet is found. 404 `No se encontraron clientes` for an empty range. Ok exactly when `parseInt(id)` is 1 to the row count, else 400 `ID de cliente inválido`. Ok deletes rows [n, n + 1) of columns 0-8 and echoes id and cells. |
| ClientsSheet.DeleteRejectsSheetZero | backend/services/googleSheetsService.js:134-138 | As written, a found sheet whose id is 0 is answered 404 `Hoja no encontrada`; the corrected delete succeeds. |
| ClientsSheet.EchoSpec | backend/services/googleSheetsService.js:184-194 | The echo holds the numeric id. Each of the seven names holds the removed row's cell at its position, and is absent where the row is shorter. `lastAntro` is never echoed. |
| ClientsSheet.DeleteAddedRow | backend/services/googleSheetsService.js:152-172 | Deleting by the decimal of position n removes zero-based sheet row n and echoes the cells an add wrote there. |
| ClientsSheet.DeleteAtPosition | backend/services/googleSheetsService.js:152-172 | Every position n from 1 to the row count, given as its decimal, is accepted: rows [n, n + 1) of columns 0-8 are deleted and row n's cells are echoed. |
| ClientsSheet.UpdateClientRow | backend/services/googleSheetsService.js:243 | Definition of the eight cells an update writes, with the update's schedule text. |
| ClientsSheet.UpdateClientAsWritten | backend/services/googleSheetsService.js:202-257 | The update as written, where a non-numeric id passes the guard. UpdateClientAgrees and UpdateAcceptsNaN state how it relates to UpdateClient. |
| ClientsSheet.UpdateClient | backend/services/googleSheetsService.js:202-257 | Corrected update. An id parsing to 0 or less is refused with 404 `Cliente no encontrado` before the rows are read. Otherwise an empty range gives 500 `Error al editar el cliente`. With rows, Ok exactly when `parseInt(id)` is 1 to the row count, else 404 `Cliente no encontrado`. Ok overwrites sheet row id + 1 with the client's cells and echoes the client. |
| ClientsSheet.UpdateTargetsRow | backend/services/googleSheetsService.js:213-241 | A successful update's range names sheet row `parseInt(id)` + 1, the row that position was read from. |
| ClientsSheet.UpdateClientAgrees | backend/services/googleSheetsService.js:213-217 | The code as written and the corrected update agree on every numeric id. |
| ClientsSheet.UpdateAcceptsNaN | backend/services/googleSheetsService.js:213-217 | As written, the id `"abc"` passes the guard and targets a range naming no row; the corrected update answers 404. |
| PaymentsSheet.GetPayments | backend/services/googleSheetsPayments.js:27-67 | The payments list: `[]` for an empty sheet, else a name-sorted permutation of the mapped rows. |
| PaymentsSheet.AddPaymentRow | backend/services/googleSheetsPayments.js:75 | Definition of the seven cells an add appends: modality sixth, phone seventh, no status. |
| PaymentsSheet.UpdatePaymentRow | backend/services/googleSheetsPayments.js:183 | Definition of the eight cells an update writes: the add's seven and the status. |
| PaymentsSheet.DeletePaymentWith | backend/services/googleSheetsPayments.js:101-155 | 404 `No se encontraron pagos` for an empty range. Ok exactly when `parseInt(id)` is 1 to the row count, else 400 `ID del pago inválido`. Ok deletes rows [n, n + 1) of sheet 0 and echoes id and cells. |
| PaymentsSheet.DeletePaymentAsWritten | backend/services/googleSheetsPayments.js:101-155 | The delete as written, with the echo names of line 146. EchoSwapsPhoneAndModality states what it echoes. |
| PaymentsSheet.DeletePayment | backend/services/googleSheetsPayments.js:101-155 | The delete with each echo name matching its column. EchoOfPayment states what it echoes. |
| PaymentsSheet.DeletePaymentAt | backend/services/googleSheetsPayments.js:116-134 | Deleting by the decimal of position n removes zero-based sheet row n. |
| PaymentsSheet.EchoCells | backend/services/googleSheetsPayments.js:143-149 | For eight distinct names and an eight-cell row, each name holds the cell at its position. |
| PaymentsSheet.EchoOfPayment | backend/services/googleSheetsPayments.js:143-149 | With the corrected names, the echo of a row an update wrote gives back every payment field under its own name. |
| PaymentsSheet.EchoSwapsPhoneAndModality | backend/services/googleSheetsPayments.js:146 | As written, the echo shows the stored modality as `phone` and the stored phone as `modality`. |
| PaymentsSheet.FindRow | backend/services/googleSheetsPayments.js:170 | The index found is that of the first row whose column A equals the id; `None` when there is none. |
| PaymentsSheet.UpdatePayment | backend/services/googleSheetsPayments.js:157-196 | 500 `Error al editar el pago` for an empty range. Ok exactly when some row's column A equals the id, else 404 `Pago no encontrado`. Ok overwrites the sheet row of the first such row with the eight cells. |
| PaymentsSheet.UpdateFindsFirstPaymentOfStudent | backend/services/googleSheetsPayments.js:170-180 | The id is matched against the student id in column A, so the update rewrites that student's first payment. |
| OverdueReminders.Latest | backend/controllers/mailingController.js:189-191 | The first due date after sorting newest first is one of the dates and no earlier than any. |
| OverdueReminders.OverdueList | backend/controllers/mailingController.js:184-207 | Reference definition of the selection: one entry per qualifying student, in order. OverdueListIsFilter and OverdueListSpec state its properties. |
| OverdueReminders.SelectOverdue | backend/controllers/mailingController.js:184-207 | The selection loop, with its `continue`, builds `OverdueList`. |
| OverdueReminders.OverdueListIsFilter | backend/controllers/mailingController.js:186-207 | The list has one entry per qualifying student, in input order, built from that student. |
| OverdueReminders.OverdueListSpec | backend/controllers/mailingController.js:186-207 | Every student with an email, payments and a latest due date no later than now is listed. Every entry is such a student's. Entries are `VENCIDO` with a non-negative day count. There are no more entries than students. |
| OverdueReminders.MakeEntrySpec | backend/controllers/mailingController.js:193-205 | An entry carries the student's name, email and plan, `VENCIDO`, the latest due date, and the whole days since (floor). |
| OverdueReminders.DaysOverdueSpec | backend/controllers/mailingController.js:194-196 | The day count d satisfies d·86400000 ≤ now - due < (d + 1)·86400000. |
| OverdueReminders.DueTodayIsOverdue | backend/controllers/mailingController.js:193 | A due date equal to now is listed, with 0 days overdue. |
| OverdueReminders.SendReminders | backend/controllers/mailingController.js:226-239 | One mail per entry, in order, with that entry's fields; `enviados` counts them. |
| OverdueReminders.EnviarRecordatorios | backend/controllers/mailingController.js:166-253 | A failed query answers 500 `Error enviando recordatorios` and mails no one. Otherwise every listed student is mailed once with `VENCIDO`, and the reply counts the list. |
| EditStudent.MatchAt | frontend/components/edit-student-dialog.tsx:72 | A match of `/\d{1,2}:\d{2}/` at a position is a clock time, the two-digit hour tried first. |
| EditStudent.FirstMatch | frontend/components/edit-student-dialog.tsx:72 | The match found is the leftmost. |
| EditStudent.TimeOf | frontend/components/edit-student-dialog.tsx:72-73 | The time read is `""` or a clock time. |
| EditStudent.TimeAfterText | frontend/components/edit-student-dialog.tsx:72-73 | After text without digits, the time read is the clock time that follows it. |
| EditStudent.NoTimeInText | frontend/components/edit-student-dialog.tsx:72-73 | Text without digits yields the time `""`. |
| EditStudent.ParseSchedule | frontend/components/edit-student-dialog.tsx:61-69 | Definition of the check boxes read from the text by `includes`. DayRoundTrip, ScheduleRoundTrip and NotDefinedNoDays state what it gives back. |
| EditStudent.DaysTextContains | backend/services/googleSheetsService.js:87-92 | A three-letter word without comma or space occurs in the days part exactly when it reads back as a ticked day. |
| EditStudent.ScheduleContains | backend/services/googleSheetsService.js:87-92 | The same holds for the whole stored text, when the time is a clock time. |
| EditStudent.AbbrevRoundTrip | frontend/components/edit-student-dialog.tsx:61-69 | A day's abbreviation occurs in a stored schedule text exactly when the day is ticked. |
| EditStudent.UnaccentedAbsent | frontend/components/edit-student-dialog.tsx:64-67 | The unaccented spellings `Mie` and `Sab` that the form also tests never occur in a stored schedule text. |
| EditStudent.DayRoundTrip | frontend/components/edit-student-dialog.tsx:61-69 | Each day's check box comes back from a stored schedule text as it was ticked. |
| EditStudent.ScheduleRoundTrip | frontend/components/edit-student-dialog.tsx:61-73 | Parsing the text an add stored gives back the ticked days and the time, for at least one day and a clock time. |
| EditStudent.NotDefinedNoDays | frontend/components/edit-student-dialog.tsx:61-69 | `"No definido"` parses to no day ticked. |
| EditStudent.NotDefinedNoTime | frontend/components/edit-student-dialog.tsx:72-73 | `"No definido"` parses to the time `""`. |
| EditStudent.LoadedRoundTrip | frontend/components/edit-student-dialog.tsx:58-85 | Loading a student whose schedule an add stored fills the form with the student's text fields and the original days and time. |
| EditStudent.FormData.Set | frontend/components/edit-student-dialog.tsx:87-90 | One text field takes the value; the other fields and the schedule are unchanged. |
| EditStudent.EditStudentForm.constructor | frontend/components/edit-student-dialog.tsx:39-55 | The form starts with empty text and no day ticked. |
| EditStudent.EditStudentForm.LoadStudent | frontend/components/edit-student-dialog.tsx:58-85 | Open with a student: the form is the student's. Otherwise the form is unchanged. |
| EditStudent.EditStudentForm.HandleChange | frontend/components/edit-student-dialog.tsx:87-104 | One text field takes the value; nothing else changes. |
| EditStudent.EditStudentForm.HandleScheduleChange | frontend/components/edit-student-dialog.tsx:92-100 | One day's check box takes the value; nothing else changes. |
| StudentsTable.FilterStudents | frontend/components/students-table.tsx:33-39 | Definition of `filteredStudents`. FilterStudentsSpec states what it lists. |
| StudentsTable.FilterStudentsSpec | frontend/components/students-table.tsx:33-39 | The table lists exactly the matching students, in loaded order and each as often as it was loaded. A match is the term in the lower-cased name or modality, or verbatim in the number. |
| StudentsTable.EmptyTermKeepsStudentsWithAField | frontend/components/students-table.tsx:33-39 | With an empty search, a student is listed exactly when it has a name, a modality or a number. |
| StudentsTable.EmptyTermListsNamedStudents | frontend/components/students-table.tsx:33-39 | With an empty search and every student named, all are listed in order. |
| StudentsTable.NameMatchIgnoresCase | frontend/components/students-table.tsx:35-36 | For a student without a number, the term's case does not matter. |
| StudentsTable.FormatDate | frontend/components/students-table.tsx:41-59 | Definition of `formatDate`. DayFirstParts, DayFirstSameAsIso, the two invalid-date lemmas, DisplayShape and DisplayRoundTrip state its properties. |
| StudentsTable.PartTextSpec | frontend/components/students-table.tsx:46-47 | Each rewritten part (number, `NaN` or `undefined`, padded or not) reads back through `Number` as the part it came from. |
| StudentsTable.DayFirstParts | frontend/components/students-table.tsx:45-51 | A date with `/` is read day first. Its third, second and first parts are year, month and day. A missing or non-numeric part makes it invalid. |
| StudentsTable.DayFirstSameAsIso | frontend/components/students-table.tsx:41-53 | `d/m/y` and `y-m-d` digit dates give the same local date. |
| StudentsTable.NonNumericPartInvalid | frontend/components/students-table.tsx:50-53 | A `-` date with a non-numeric part is `Fecha inválida`. |
| StudentsTable.MissingPartInvalid | frontend/components/students-table.tsx:50-53 | A `-` date with fewer than three parts is `Fecha inválida`. |
| StudentsTable.DisplayShape | frontend/components/students-table.tsx:55-59 | A shown date is two-digit day `/` two-digit month `/` full year. |
| StudentsTable.DisplayRoundTrip | frontend/components/students-table.tsx:41-59 | Formatting a shown date gives back the same date, and so the same text. |
| PaymentsTable.TotalWith | frontend/components/payments-table.tsx:52-54 | Definition of one status's total. TotalAppend, StatusPartition, TotalsBounded and OtherStatusesIgnored state its properties. |
| PaymentsTable.TotalsOfNoPayments | frontend/components/payments-table.tsx:52-55 | With no payments, all four figures are 0. |
| PaymentsTable.TotalAppend | frontend/components/payments-table.tsx:52-54 | A payment added at the end counts once, in its own status's total only. |
| PaymentsTable.StatusPartition | frontend/components/payments-table.tsx:52-54 | Paid + pending + overdue + other = the sum of all amounts. |
| PaymentsTable.TotalsBounded | frontend/components/payments-table.tsx:52-55 | The three totals never exceed the sum of amounts. Income + overdue never does either, so overdue money is never income. |
| PaymentsTable.OtherStatusesIgnored | frontend/components/payments-table.tsx:52-54 | Payments with any other status leave every total unchanged. |
| PaymentsTable.FilterPayments | frontend/components/payments-table.tsx:44-49 | Definition of `filteredPayments`. FilterPaymentsSpec states what it lists. |
| PaymentsTable.FilterPaymentsSpec | frontend/components/payments-table.tsx:44-49 | The table lists exactly the payments whose name, modality or status contains the term, ignoring case, in loaded order and each as often as it was loaded. |
| PaymentsTable.SearchIgnoresCase | frontend/components/payments-table.tsx:44-49 | The search gives the same list for a term and its lower-case form. |
| PlanCreator.Appended | frontend/components/plan-creator.tsx:104-123 | A full day (seven) is unchanged. Otherwise exactly one exercise is appended with the defaults `""`, 3, `8-12`, `60s`, `""`. A day within the cap stays within it. |
| PlanCreator.Removed | frontend/components/plan-creator.tsx:125-133 | Definition of one day's list after `removeExercise`. RemovedSpec, RemoveAbsent and RemoveUndoesAdd state its properties. |
| PlanCreator.RemovedSpec | frontend/components/plan-creator.tsx:125-133 | Removing keeps exactly the entries with another id, in order and each as often as it occurred. |
| PlanCreator.RemoveAbsent | frontend/components/plan-creator.tsx:130 | Removing an id no entry has changes nothing. |
| PlanCreator.RemoveUndoesAdd | frontend/components/plan-creator.tsx:104-133 | Removing an id just added, when it was new to the day, undoes the add. |
| PlanCreator.SetField | frontend/components/plan-creator.tsx:140 | The field takes the value; every other field is unchanged. |
| PlanCreator.Updated | frontend/components/plan-creator.tsx:135-143 | Same length. Entries with another id are unchanged. Entries with the id change only the field. |
| PlanCreator.UpdateAbsent | frontend/components/plan-creator.tsx:140 | Editing an id no entry has changes nothing. |
| PlanCreator.PlanOperations | frontend/components/plan-creator.tsx:104-143 | Add, remove and update keep every day within seven. Add leaves the other two days unchanged. |
| PlanCreator.PlanEditor.constructor | frontend/components/plan-creator.tsx:82-91 | All three days start empty. |
| PlanCreator.PlanEditor.AddExercise | frontend/components/plan-creator.tsx:104-123 | The cap is kept. Only the targeted day changes, as `Appended` says. A full day makes the call a no-op. |
| PlanCreator.PlanEditor.RemoveExercise | frontend/components/plan-creator.tsx:125-133 | The cap is kept; only the targeted day changes, as `Removed` says. |
| PlanCreator.PlanEditor.UpdateExercise | frontend/components/plan-creator.tsx:135-143 | The cap is kept; only the targeted day changes, as `Updated` says. |
| PlanCreator.ExerciseName | frontend/components/plan-creator.tsx:155-158 | The name is the first catalogue entry's with that id, or `Seleccionar ejercicio` when there is none. |
| PlanCreator.CatalogueName | frontend/components/plan-creator.tsx:41-62 | The exercise with id `String(n)`, n from 1 to 20, is shown by the n-th catalogue name. |
| PlanCreator.NewExerciseUnselected | frontend/components/plan-creator.tsx:106-113 | A newly added exercise shows `Seleccionar ejercicio`. |
| DoubleBackExit.Press | frontend/hooks/useDoubleBackExit.tsx:8-20 | Detached or with a modal open: nothing happens. Within 2000 ms: the handler detaches and goes back. Otherwise: warn, record the time, push a state. |
| DoubleBackExit.ExactWindowWarns | frontend/hooks/useDoubleBackExit.tsx:12 | A press exactly 2000 ms after the last warns; earlier presses within the window exit. |
| DoubleBackExit.FirstPressWarns | frontend/hooks/useDoubleBackExit.tsx:5-18 | From `lastPress` 0, a first press at 2000 or later warns. |
| DoubleBackExit.ModalIgnoresPresses | frontend/hooks/useDoubleBackExit.tsx:9 | While a modal is open, any run of presses changes nothing. |
| DoubleBackExit.DetachedIsInert | frontend/hooks/useDoubleBackExit.tsx:13 | After the exit detached the handler, no press has any effect. |
| DoubleBackExit.DoublePressExits | frontend/hooks/useDoubleBackExit.tsx:11-18 | Two presses under 2000 ms apart warn, then go back and detach. |
| DoubleBackExit.SpacedPressesNeverExit | frontend/hooks/useDoubleBackExit.tsx:15-18 | Presses at least 2000 ms apart only warn; the handler stays attached. |
| DoubleBackExit.BackExitHook.constructor | frontend/hooks/useDoubleBackExit.tsx:22-24 | Mounting pushes one state and attaches the handler with `lastPress` 0. |
| DoubleBackExit.BackExitHook.PopState | frontend/hooks/useDoubleBackExit.tsx:8-20 | A `popstate` updates the listener and appends the browser requests as `Press` says. |
| DoubleBackExit.BackExitHook.SetModalOpen | frontend/hooks/useDoubleBackExit.tsx:7-29 | A changed flag re-runs the effect: re-attach and push a state, keeping `lastPress`. An unchanged flag does nothing. |
| DoubleBackExit.BackExitHook.Unmount | frontend/hooks/useDoubleBackExit.tsx:26-28 | The cleanup detaches the handler. |

## Left out

- The Sheets, Supabase and SMTP calls are outside the model.
  - Their results are parameters, and the requests and mails are results.
  - A call that throws (network, credentials, quota) ends in each handler's catch-all 500. That path is modelled only where the data itself causes the throw: an empty range without `values`.
- Ordering uses code-unit lexicographic order, not `localeCompare`. `toLowerCase` covers only the ASCII and Latin-1 letters.
- SheetRecords.SortByName: an insertion sort stands in for the engine's `Array.prototype.sort`. Its order among equal names (stability) is not stated.
- Records are numbered by position among the non-blank rows. Delete and update index the raw rows of `A2:H`. The model shows both but states no property linking them: with blank rows above, a listed `id` addresses another row.
- PaymentsTable.TotalWith: amounts are non-negative integers. The stored cells are strings, and `reduce` with `+` would concatenate them.
- StudentsTable.JsNumber: `Number()` is modelled only for white space around decimal digits. Signs, decimals, exponents and hex read as `NaN`.
- StudentsTable.DateText: the text for a triple that `new Date` rolls into another day (day 31 of April, month 13) is not rendered.
- StudentsTable.FormatDate: a year past the `Date` range (beyond year 275760) gives `Fecha inválida` in the code. The model reports it as a local date.
- A `null` student in the list, which `student?.` tolerates, is not modelled.
- OverdueReminders: due dates are integer millisecond timestamps.
  - Unparsable or null `fecha_de_vencimiento` values, and the `NaN` ordering they cause, are not modelled.
  - The due date is kept as a timestamp, not rendered with `toLocaleDateString`.
  - The console logs are omitted.
- OverdueReminders.EnviarRecordatorios: every send succeeds. A send that throws aborts the loop with a 500 after the earlier mails went out.
- The HTML of the reminder mail and the SMTP set-up are outside the model.
- PlanCreator.PlanEditor.UpdateExercise: the value must fit the field (a count for `sets`, a text otherwise). The source types it `any`, and a `NaN` from `parseInt` for `sets` is not modelled.
- The plan id is the parameter `newId`, standing for `Math.random().toString(36)`. Ids can collide, and remove and update then act on every entry with that id, as in the code.
- The plan form's `studentId`/`planName` fields are not modelled, nor `handleSubmit` (an alert and a log). The same goes for the edit dialog's `handleSubmit`, which only logs and closes.
- The `schedule` object is taken to list its days Monday first, as the forms declare it. Another key order would reorder the abbreviations.
- DoubleBackExit: `alert` and the history calls are recorded as effects, and `Date.now()` is a parameter.

## Findings

| source | as written | input that shows it | evidently intended | confidence | as-written member | corrected member |
|---|---|---|---|---|---|---|
| backend/services/googleSheetsService.js:136 | `if (!sheetId)` treats the id 0 as "no sheet found". The first sheet of a spreadsheet has id 0, as the payments delete assumes at googleSheetsPayments.js:130. | sheet `Hoja 1` found with id 0, id `"1"`, one row | 404 only when no sheet is titled `Hoja 1` | not executed | ClientsSheet.DeleteClientAsWritten, ClientsSheet.DeleteRejectsSheetZero | ClientsSheet.DeleteClient |
| backend/services/googleSheetsPayments.js:146 | The echo names the sixth and seventh cells `phone` and `modality`. Add and update write modality sixth and phone seventh (lines 75, 183). | any stored payment | each cell echoed under its own field's name | not executed | PaymentsSheet.DeletePaymentAsWritten, PaymentsSheet.EchoSwapsPhoneAndModality | PaymentsSheet.DeletePayment, PaymentsSheet.EchoOfPayment |
| backend/services/googleSheetsService.js:213-215 | `parseInt(id) - 1` is `NaN` for a non-numeric id. Both comparisons are false, so the guard passes and the range `Hoja 1!ANaN:hNaN` is sent. | id `"abc"`, one row | 404 `Cliente no encontrado`, as for any id naming no row | not executed | ClientsSheet.UpdateClientAsWritten, ClientsSheet.UpdateAcceptsNaN | ClientsSheet.UpdateClient |
