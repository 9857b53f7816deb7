# GeneradorHorario front end: a Dafny model of its core

This project models the client-side logic of GeneradorHorario, an academic-administration console. The console covers faculties, careers, study plans, subjects, classrooms, cycles, deans and teachers, plus a weekly class timetable. Each source file of the core is one Dafny module.

- **Timetable** (`Schedule`, `ScheduleGrid`). This models the `useHorario` store and the grid component.
  - `useHorario` holds the placed classes, the class being dragged and the add/edit modal. It gates every move and save with a conflict check that refuses a second class of the same career, or in the same room, in one cell.
  - The grid maps the classes onto (day, time) cells and decides which interaction each cell reports.
- **Teacher availability** (`Availability`, `AvailabilityGrid`). This models the `useRegistroDisponibilidad` form and the `RegistroDisponibilidad` page.
  - The form covers block and subject selection, the offered time, and the guards on saving.
  - The page builds the time rows from the block catalogue: formatted, sorted and de-duplicated.
- **CSV import** (`CsvImport`): the `BotonImportar` parser, which turns header plus rows into records.
- **Sign-in** (`AuthService`, `Login`). This models the role lookup of `authService` and the login screen.
  - The login screen covers the login decision, the role redirect, the forced password change and its password policy.
- **Catalogue hooks.** Each hook is a class whose fields are the hook's state and whose methods are its handlers.
  - The in-memory `.js` hooks (`FacultadesJs`, `CarrerasJs`, `PlanesJs`, `MateriasJs`, `DocentesJs`, `AulasJs`) change their lists in place. The model proves that ids stay unique and that toggling twice restores the list.
  - The API-backed `.jsx` hooks are `FacultadesApi`, `CarrerasApi`, `TiposAulaApi`, `CiclosApi`, `Decanos`, `DocentesJsx`, `AulasJsx`, `PlanesApi` and `MateriasApi`. In these:
    - each request a handler would send is returned as a recorded `Request` value: verb, address and body;
    - the server's answer is a parameter (`serverError`);
    - the notice the hook shows is a field.
- **Shared helpers** (`Common`, `Lists`, `Catalog`).
  - `Common` models the JavaScript values that form fields hold: text, number, `NaN` and `undefined`. It also models truthiness, `===`, `parseInt`, `Number`, `trim`, `toLowerCase`, `includes` and `split`.
  - `Lists` models `filter` and `find`.
  - `Catalog` holds the update, replace and remove by id that every catalogue hook shares, and the search and state filters.

Clocks, randomness and dialogs are parameters:
- `crypto.randomUUID` is a `freshId` argument;
- `window.confirm` is a `confirmed` argument;
- the current year is a `currentYear` argument;
- an `alert` is a returned message.

Where the design description of the timetable and the code differ, the model follows the code:
- The code does not check that a class's day and start time are among the grid's labels, so the model does not reject a placement outside the grid.
- The conflict check reports only the first clash: the career clash before the room clash.
- The code does not delete classes from the timetable, so the model has no deletion there.

## Model

| member | source | states |
|---|---|---|
| Schedule.RoomTakenMessage | src/hooks/useHorario.js:29 | the room message starts with "El aula " followed by the candidate's room name |
| Schedule.MessagesDiffer | src/hooks/useHorario.js:21-29 | the career message and the room message are never equal, so the caller can tell the two clashes apart |
| Schedule.CheckConflicts | src/hooks/useHorario.js:14-32 | the career message exactly when some class other than `excludeId` has the same day, start time and career; the room message exactly when there is no career clash but some class other than `excludeId` has the same day, start time and room; no message exactly when neither clash exists |
| Schedule.ExcludingWeakensCheck | src/hooks/useHorario.js:19-27 | a candidate the check accepts with no excluded id is also accepted with any excluded id |
| Schedule.ReplaceById | src/hooks/useHorario.js:46-48 | the same length; every entry with the candidate's id becomes the candidate and every other entry is unchanged |
| Schedule.AppendKeepsNoDoubleBooking | src/hooks/useHorario.js:84-88 | appending a class the check accepts (no excluded id) to a timetable with no double booking leaves none |
| Schedule.AppendKeepsUniqueIds | src/hooks/useHorario.js:79-88 | appending a class under an id no class has keeps the ids unique |
| Schedule.ReplaceKeepsNoDoubleBooking | src/hooks/useHorario.js:84-90 | replacing by id with a class the check accepts when its own id is excluded keeps both no double booking and unique ids |
| Schedule.DropOnOwnCellIsAccepted | src/hooks/useHorario.js:38-48 | in a consistent timetable, a class dropped on its own cell passes the check and the replacement gives back the same timetable |
| Schedule.ApplyEdit | src/hooks/useHorario.js:66-71 | `{ ...data, [field]: value }`: the named field takes the value and the others keep theirs |
| Schedule.AddDraft | src/hooks/useHorario.js:55-58 | the add draft has empty subject and room, colour "color-blue" and the career id `parseInt(careerId)` |
| Schedule.ClassToSave | src/hooks/useHorario.js:77-82 | add: the draft with the fresh id and the target slot's day and time; otherwise the draft itself |
| Schedule.SaveExcludeId | src/hooks/useHorario.js:84 | an id is excluded exactly in edit mode, and it is the draft's own id |
| Schedule.ScheduleStore.constructor | src/hooks/useHorario.js:4-12 | the initial classes, nothing dragged, and a closed view modal with no data or slot |
| Schedule.ScheduleStore.SetDraggedClass | src/hooks/useHorario.js:5 | sets only the dragged class |
| Schedule.ScheduleStore.MoveClass | src/hooks/useHorario.js:35-51 | nothing dragged: nothing changes; a clash: its message is alerted and nothing changes; otherwise the dragged class is replaced by id with the new day and time, the drag ends, and a consistent timetable stays consistent |
| Schedule.ScheduleStore.OpenModal | src/hooks/useHorario.js:54-62 | opens the modal with the kind and slot; add uses the add draft, any other kind a copy of the data |
| Schedule.ScheduleStore.CloseModal | src/hooks/useHorario.js:64 | only `isOpen` becomes false |
| Schedule.ScheduleStore.UpdateModalData | src/hooks/useHorario.js:66-71 | only the draft changes, by the one field edit |
| Schedule.ScheduleStore.SaveClass | src/hooks/useHorario.js:73-93 | missing subject or room: the alert and no change; a clash: its message and no change; otherwise add appends the class with the fresh id and slot, edit replaces by id, the modal closes, and a consistent timetable stays consistent when the fresh id is new |
| ScheduleGrid.RenderCell | src/components/common/horarioComponent.jsx:45-85 | an empty cell exactly when no class sits at (day, time); a card shows a class placed there, draggable and with an edit icon exactly when not read-only, faded exactly when it is the dragged class; the add button only when not read-only |
| ScheduleGrid.CardIsTheOnlyClassOfItsCareer | src/components/common/horarioComponent.jsx:46 | with no double booking, a class at (day, time) makes the cell a card, and the card shown is that class or one of another career in another room |
| ScheduleGrid.Dispatch | src/components/common/horarioComponent.jsx:18-43 | read-only lets only a click on a card through (as `onView`); a card click views that card; drops and adds happen only on empty cells and report that cell's own day and time; drag, edit and view come only from cards |
| ScheduleGrid.DropReportsItsOwnEmptyCell | src/components/common/horarioComponent.jsx:38-43 | a drop on an empty cell reports its day and time when editable, and nothing when read-only |
| ScheduleGrid.Row | src/components/common/horarioComponent.jsx:96-100 | one cell per day, in the order of `days` |
| ScheduleGrid.Grid | src/components/common/horarioComponent.jsx:93-102 | one row per time slot, in the order of `timeSlots` |
| ScheduleGrid.GridHasOneCellPerPair | src/components/common/horarioComponent.jsx:91-101 | cell (i, j) is (days[j], timeSlots[i]), and with distinct days and slots no two positions hold the same cell |
| Availability.EditableIsNarrowerThanUnlocked | src/hooks/useRegistroDisponibilidad.jsx:99-107 | every editable cycle is unlocked, but not conversely: no cycle, or a cycle in another state, is unlocked yet not editable |
| Availability.Toggle | src/hooks/useRegistroDisponibilidad.jsx:101-111 | the id is in the result exactly when it was not in the selection; every other id keeps its membership; a present id shrinks the list (all its occurrences go), an absent id is appended at the end |
| Availability.FilterDropsOne | src/hooks/useRegistroDisponibilidad.jsx:102 | filtering out an id that occurs gives a strictly shorter list |
| Availability.ToggleKeepsNoDup | src/hooks/useRegistroDisponibilidad.jsx:101-103 | a duplicate-free selection stays duplicate-free after a toggle |
| Availability.FilterKeepsNoDup | src/hooks/useRegistroDisponibilidad.jsx:102 | filtering a duplicate-free list keeps it duplicate-free |
| Availability.ToggleTwice | src/hooks/useRegistroDisponibilidad.jsx:101-103 | toggling the same id twice restores membership of every id, and restores the very list when the id was absent |
| Availability.Contribution | src/hooks/useRegistroDisponibilidad.jsx:126-129 | a selected id adds the length of the first block with that id, and nothing when no block has it |
| Availability.OfferedMinutesAppend | src/hooks/useRegistroDisponibilidad.jsx:124-130 | the offered time of two selections in a row is the sum of their offered times |
| Availability.ToggleOnAddsItsBlock | src/hooks/useRegistroDisponibilidad.jsx:101-130 | selecting a new id adds exactly that id's block length to the offered time |
| Availability.EmptyCatalogueOffersNothing | src/hooks/useRegistroDisponibilidad.jsx:122 | with no blocks, every selection offers 0 |
| Availability.OfferedMinutesNonNegative | src/hooks/useRegistroDisponibilidad.jsx:115-130 | blocks that end no earlier than they start never give a negative total |
| Availability.RoundToTenth | src/hooks/useRegistroDisponibilidad.jsx:131 | `toFixed(1)` of the hours, in tenths: the result is within three minutes of the time, a tie going away from zero |
| Availability.HorasOfrecidas | src/hooks/useRegistroDisponibilidad.jsx:121-132 | the `forEach` loop's total, rounded to a tenth of an hour, is the rounded offered time of the selection (0 for an empty catalogue) |
| Availability.GuardarCheck | src/hooks/useRegistroDisponibilidad.jsx:136-148 | the save goes ahead exactly when (no positive minimum, or the minimum reached) and some subject is selected; a positive minimum not reached reports the short-hours notice first; otherwise an empty subject list reports its message |
| Availability.ZeroMinimumSkipsHoursGuard | src/hooks/useRegistroDisponibilidad.jsx:136 | with minimum load 0 the save goes ahead exactly when some subject is selected, whatever the hours |
| Availability.ShortHoursUsesRoundedTotal | src/hooks/useRegistroDisponibilidad.jsx:131-136 | with a positive minimum of `c` hours, the short-hours notice comes exactly when the selection is more than three minutes short of `c` hours; 478 minutes pass a minimum of 8 |
| Availability.AvailabilityForm.constructor | src/hooks/useRegistroDisponibilidad.jsx:37-50 | the loaded minimum, cycle, catalogue and selections; not saving and no notification |
| Availability.AvailabilityForm.ToggleBloque | src/hooks/useRegistroDisponibilidad.jsx:98-104 | a locked cycle changes nothing; otherwise the block selection is toggled; it stays duplicate-free; nothing else changes |
| Availability.AvailabilityForm.ToggleAsignatura | src/hooks/useRegistroDisponibilidad.jsx:106-112 | a locked cycle changes nothing; otherwise the subject selection is toggled; it stays duplicate-free; nothing else changes |
| Availability.AvailabilityForm.HandleGuardar | src/hooks/useRegistroDisponibilidad.jsx:135-151 | the guards run on the rounded offered hours: a failed guard shows its notice and does not start saving; otherwise saving starts and the notice is cleared; the selections are untouched |
| Availability.AvailabilityForm.FinishGuardar | src/hooks/useRegistroDisponibilidad.jsx:173-180 | saving stops; success shows the saved message, a failure its own message or "Error al guardar los datos." |
| AvailabilityGrid.Pad2Injective | src/pages/docente/RegistroDisponibilidad.jsx:28 | two-digit padding tells different numbers apart |
| AvailabilityGrid.HourMinute | src/pages/docente/RegistroDisponibilidad.jsx:28 | `slice(0, 5)` of a time is five characters without a space |
| AvailabilityGrid.TimeText | src/pages/docente/RegistroDisponibilidad.jsx:28-38 | the "HH:MM:SS" text has eight characters and begins with its "HH:MM" |
| AvailabilityGrid.LessIrreflexive | src/pages/docente/RegistroDisponibilidad.jsx:29 | the string order of `sort` never puts a text before itself |
| AvailabilityGrid.LessTotal | src/pages/docente/RegistroDisponibilidad.jsx:29 | of two different texts one sorts before the other |
| AvailabilityGrid.LessTransitive | src/pages/docente/RegistroDisponibilidad.jsx:29 | the string order is transitive |
| AvailabilityGrid.Dedupe | src/pages/docente/RegistroDisponibilidad.jsx:29 | `[...new Set(s)]` has no repeats and exactly the elements of `s` |
| AvailabilityGrid.Insert | src/pages/docente/RegistroDisponibilidad.jsx:29 | inserting a new text into a strictly sorted list keeps it strictly sorted and adds just that text |
| AvailabilityGrid.ConsSorted | src/pages/docente/RegistroDisponibilidad.jsx:29 | a text below every element of a strictly sorted list can go in front |
| AvailabilityGrid.BelowAllOf | src/pages/docente/RegistroDisponibilidad.jsx:29 | a text below `x` and below all of `s` is below all of any permutation of `s` plus `x` |
| AvailabilityGrid.Sort | src/pages/docente/RegistroDisponibilidad.jsx:29 | `sort` of a list without repeats is strictly ascending and a permutation of it |
| AvailabilityGrid.HorasUnicas | src/pages/docente/RegistroDisponibilidad.jsx:25-30 | no blocks give no rows; the rows ascend strictly (each listed once); every block's range is a row and every row is some block's range |
| AvailabilityGrid.Ranges | src/pages/docente/RegistroDisponibilidad.jsx:28 | one range per block, in block order |
| AvailabilityGrid.RowsAreTheRanges | src/pages/docente/RegistroDisponibilidad.jsx:28-29 | the sorted, deduplicated ranges hold every block's range and nothing else |
| AvailabilityGrid.RowsOfRanges | src/pages/docente/RegistroDisponibilidad.jsx:28-29 | any list with exactly the ranges' elements has a row for every block and a block for every row |
| AvailabilityGrid.SortDedupeKeeps | src/pages/docente/RegistroDisponibilidad.jsx:29 | deduplicating then sorting neither loses nor invents an element |
| AvailabilityGrid.SortedRowsAreDistinct | src/pages/docente/RegistroDisponibilidad.jsx:29 | a strictly ascending list repeats nothing |
| AvailabilityGrid.BloqueEnCelda | src/pages/docente/RegistroDisponibilidad.jsx:33-40 | none exactly when no block of that day starts with the two halves of the range (a missing half reads "undefined"); a found block is one of the catalogue's, of that day |
| AvailabilityGrid.RangeSplits | src/pages/docente/RegistroDisponibilidad.jsx:28-34 | splitting a row label on " - " gives back its two "HH:MM" halves |
| AvailabilityGrid.HourMinuteInjective | src/pages/docente/RegistroDisponibilidad.jsx:28 | equal "HH:MM" texts mean equal hour and minute |
| AvailabilityGrid.StartsWithHourMinute | src/pages/docente/RegistroDisponibilidad.jsx:37-38 | a time starts with an "HH:MM" text exactly when that is its own hour and minute |
| AvailabilityGrid.CellShowsBlockOfItsRow | src/pages/docente/RegistroDisponibilidad.jsx:33-40 | in the row of a block's range and the column of its day, the cell finds a block with that same range |
| AvailabilityGrid.OtherDaysNeverShow | src/pages/docente/RegistroDisponibilidad.jsx:6-13 | a block whose day is not 1 to 6 is never the block of any column |
| AvailabilityGrid.CellAt | src/pages/docente/RegistroDisponibilidad.jsx:107-123 | N/A exactly when no block is found; a block cell carries the found block's id, is selected exactly when that id is selected, and is disabled exactly when not editable |
| AvailabilityGrid.CellClick | src/pages/docente/RegistroDisponibilidad.jsx:111-119 | only a block cell hands an id to the toggle, and it is its own id |
| AvailabilityGrid.MetaHoras | src/pages/docente/RegistroDisponibilidad.jsx:45 | `carga_minima || 0`: a present non-zero minimum is kept; no teacher, or a minimum of 0, gives 0 |
| AvailabilityGrid.ShortfallMatchesSaveGuard | src/pages/docente/RegistroDisponibilidad.jsx:45-84 | on the same rounded hours, the shortfall line shows exactly when the save would be refused for short hours |
| CsvImport.Assign | src/components/common/BotonImportar.jsx:37 | `object[header] = value` sets that key, except `__proto__`, whose assignment leaves the record as it was |
| CsvImport.RecordOfKeys | src/components/common/BotonImportar.jsx:36-39 | the record's keys are exactly the header names other than `__proto__` |
| CsvImport.RecordOfValues | src/components/common/BotonImportar.jsx:36-39 | a header name's key holds the trimmed field of the last column with that name |
| CsvImport.AssignOther | src/components/common/BotonImportar.jsx:37 | assigning one header leaves every other key's value unchanged |
| CsvImport.RecordOfContents | src/components/common/BotonImportar.jsx:36-39 | both: the keys are the headers (minus `__proto__`) and each holds the trimmed field of its last column |
| CsvImport.BuildRecord | src/components/common/BotonImportar.jsx:36-39 | the `reduce` loop builds the record of the headers and the line's fields |
| CsvImport.TrimAll | src/components/common/BotonImportar.jsx:29 | one trimmed header per piece, in order |
| CsvImport.ParseRows | src/components/common/BotonImportar.jsx:32-41 | never more records than data lines |
| CsvImport.ProcessCsv | src/components/common/BotonImportar.jsx:28-44 | never more records than lines after the header line |
| CsvImport.ParseRowsAppend | src/components/common/BotonImportar.jsx:32-41 | lines are parsed independently: the records of two blocks of lines are the records of the first followed by those of the second |
| CsvImport.ParseRowsCons | src/components/common/BotonImportar.jsx:32-41 | the first line's record (when its field count matches) comes before the records of the rest |
| CsvImport.RecordsComeFromKeptLines | src/components/common/BotonImportar.jsx:33-41 | every record is the record of some line whose field count matches the headers |
| CsvImport.KeptLinesGiveRecords | src/components/common/BotonImportar.jsx:33-41 | every line whose field count matches the headers gives its record |
| CsvImport.ParseRowsIsKeptLines | src/components/common/BotonImportar.jsx:32-41 | the records are exactly the records of the lines with the right field count |
| CsvImport.TrailingEmptyLine | src/components/common/BotonImportar.jsx:30-34 | a trailing empty line adds nothing, unless there is exactly one header, when it adds a record with an empty field |
| CsvImport.NoNewline | src/components/common/BotonImportar.jsx:29-30 | without a newline the header text is the text minus its last character and the whole text is the only data line |
| CsvImport.WithNewline | src/components/common/BotonImportar.jsx:29-30 | with a newline the header line is what precedes the first one and the data is what follows |
| CsvImport.HandleFileUpload | src/components/common/BotonImportar.jsx:7-25 | no file does nothing; only a non-empty parse result is handed on, and it is that result; an empty one raises the alert |
| Login.Utf16Length | src/pages/login/Login.jsx:75 | `length` counts at least one unit per character |
| Login.BmpLength | src/pages/login/Login.jsx:75 | for text inside the Basic Multilingual Plane `length` is the character count |
| Login.PasswordError | src/pages/login/Login.jsx:75-80 | no error exactly when the password has length at least 8, an A-Z letter, an a-z letter, a digit, a character outside [a-zA-Z0-9], and equals the confirmation; otherwise the message of the first rule that fails, in that order |
| Login.PolicyAccepts | src/pages/login/Login.jsx:75-80 | a text of at least eight BMP characters with a capital, a small letter, a digit and a special character at some positions passes when confirmed by itself |
| Login.PolicyWantsUpper | src/pages/login/Login.jsx:75-76 | a long enough BMP text without an A-Z letter fails on the capital rule |
| Login.AccentedCapitalIsNotUpper | src/pages/login/Login.jsx:76 | "Ábcdefg1!" is refused for lacking a capital: an accented capital is not one |
| Login.AccentedLetterIsSpecial | src/pages/login/Login.jsx:79 | "Abcdefg1ñ" is accepted: the accented letter is its special character |
| Login.SpaceIsSpecial | src/pages/login/Login.jsx:79 | "Abcd efg1" is accepted: the space is its special character |
| Login.RedirectByRole | src/pages/login/Login.jsx:20-24 | docente goes to /docente, decano to /decano, admin_general to /admin, and any other role nowhere |
| Login.LoginDecision | src/pages/login/Login.jsx:36-68 | an auth error rejects without sign-out; no role, or a role whose `activo` is falsy, rejects and signs out; the password change is asked exactly for an active role whose metadata asks for it, with the user id and role pending; a redirect happens only for an active role, to its page |
| Login.AsWrittenLoginAlwaysRejects | src/pages/login/Login.jsx:51-56 | with the role lookup as written, no sign-in is ever admitted, and one that finds a role is rejected as inactive and signed out |
| Login.ActiveUserIsAdmitted | src/pages/login/Login.jsx:51-68 | with the corrected role lookup, an active teacher, dean or general administrator is redirected to a page, a teacher to /docente |
| Login.LoginScreen.constructor | src/pages/login/Login.jsx:11-18 | the login view, empty fields and error, not loading, no pending user |
| Login.LoginScreen.SetNewPassword | src/pages/login/Login.jsx:14-15 | sets only the two password fields |
| Login.LoginScreen.HandleLogin | src/pages/login/Login.jsx:26-69 | loading ends; a rejection shows its message and signs out as decided; the password change switches the view and sets the pending user; a redirect navigates to the role's page |
| Login.LoginScreen.HandleForcePasswordUpdate | src/pages/login/Login.jsx:71-102 | a policy failure shows its message, sends nothing and leaves loading alone; a request is sent only when the policy passes and there is a pending user, carrying its id and the new password; success alerts and navigates by the pending role; a failure shows the server message or the fallback |
| Login.LoginScreen.HandleCancelUpdate | src/pages/login/Login.jsx:104-111 | signs out, returns to the login view and clears the pending user, both new-password fields and the error |
| AuthService.GetUserRole | src/services/authService.js:3-37 | null exactly when there is no user or neither row; a teacher row gives docente, whatever the administrator row; an administrator row gives admin_general for a null faculty and decano otherwise; the object never has `activo` |
| AuthService.GetUserRoleWithStatus | src/services/authService.js:3-37 | the same decision, with the matched row's `activo` carried in the result |
| AuthService.StatusDoesNotChangeRole | src/services/authService.js:17-34 | carrying the status changes neither whether a role is found nor which role it is |
| Catalog.SaveRequest | src/hooks/useFacultades.jsx:86-98 | a save carries its body; add POSTs to the collection, any other mode PUTs to `base/actualizar/id` (the same shape in every API-backed hook) |
| Catalog.ToggleRequest | src/hooks/useFacultades.jsx:59-63 | a status change PUTs without a body, to `base/desactivar/id` for an active row and `base/activar/id` otherwise |
| Catalog.RequestsAreDistinct | src/hooks/useFacultades.jsx:60-93 | a create never goes to an update's address, and the deactivate and activate addresses differ |
| Catalog.ErrorNotice | src/hooks/useFacultades.jsx:73-103 | an error notice with the server message, or the fallback when it is empty |
| Catalog.SearchIgnoresTermCase | src/hooks/useFacultades.jsx:127-130 | the search gives the same answer for a term and its lower-case form |
| Catalog.FieldMatchesItself | src/hooks/useFacultades.jsx:129 | any present field matches its own lower-case text |
| Catalog.EmptyFiltersPass | src/hooks/useFacultades.jsx:128-134 | with the search, state and exact filters all empty, every row passes |
| Catalog.NumericValueFailsSelect | src/hooks/useCarreras.jsx:146-164 | an exact filter compares with `===` against the select's text, so a numeric value passes only the empty filter |
| Catalog.EstadoFiltersPartition | src/hooks/useFacultades.jsx:132-134 | every row passes exactly one of "activos" and "inactivos" |
| Catalog.ReplaceById | src/hooks/useFacultades.js:29 | `map(x => x.id === id ? form : x)`: the same length; rows with the id become the form, others are unchanged |
| Catalog.UpdateById | src/hooks/useFacultades.js:37-39 | `map(x => x.id === id ? f(x) : x)`: the same length; rows with the id are updated, others unchanged |
| Catalog.RemoveById | src/hooks/useFacultades.js:33-35 | `filter(x => x.id !== id)`: no longer; every row kept is an old row without that id; every old row without that id is kept |
| Catalog.AppendFreshKeepsUnique | src/hooks/useFacultades.js:25-27 | appending a row under a new id keeps the ids unique |
| Catalog.ReplaceKeepsIds | src/hooks/useFacultades.js:29 | replacing by id with a row of the same id keeps every position's id, hence unique ids |
| Catalog.UpdateTwiceRestores | src/hooks/useFacultades.js:37-39 | an update that keeps ids keeps them unique, and an involution applied twice gives back the list |
| Catalog.UpdateKeepsUnique | src/hooks/useDecanos.jsx:105-108 | an update that keeps every row's id keeps each position's id, hence unique ids |
| Catalog.RemoveMissingId | src/hooks/useFacultades.js:33-35 | removing an id no row has changes nothing |
| Catalog.RemoveUniqueId | src/hooks/useFacultades.js:33-35 | with unique ids, removing row k's id removes exactly row k |
| Catalog.RemoveKeepsUnique | src/hooks/useFacultades.js:33-35 | removing keeps the ids unique |
| FacultadesJs.FlipTwice | src/hooks/useFacultades.js:37-39 | flipping the rows of one id keeps unique ids unique, and flipping again gives back the list |
| FacultadesJs.FilteredFacultades | src/hooks/useFacultades.js:14-20 | an empty search gives the whole list; otherwise every row shown is a faculty whose name or code contains the term (any case), and every such faculty is shown |
| FacultadesJs.FoundByCode | src/hooks/useFacultades.js:17-18 | a faculty is found by its own code in lower case |
| FacultadesJs.SaveCheck | src/hooks/useFacultades.js:23 | accepted exactly when both name and code are non-empty; the message otherwise |
| FacultadesJs.FacultadStore.constructor | src/hooks/useFacultades.js:10-12 | the initial list, no search (so the whole list is shown), a closed add modal |
| FacultadesJs.FacultadStore.SetSearchTerm | src/hooks/useFacultades.js:11-47 | sets only the search term |
| FacultadesJs.FacultadStore.OpenAddModal | src/hooks/useFacultades.js:41 | an open add modal with the empty form |
| FacultadesJs.FacultadStore.OpenEditModal | src/hooks/useFacultades.js:42 | an open edit modal with a copy of the row |
| FacultadesJs.FacultadStore.CloseModal | src/hooks/useFacultades.js:43 | only closes the modal |
| FacultadesJs.FacultadStore.HandleSaveFacultad | src/hooks/useFacultades.js:22-31 | a missing field alerts and changes nothing; add appends the form with the fresh id and `activo` true; edit replaces by the form's id; the modal closes; unique ids stay unique when the fresh id is new |
| FacultadesJs.FacultadStore.DeleteFacultad | src/hooks/useFacultades.js:33-35 | confirmed: the rows with that id are removed; not confirmed: nothing changes; unique ids stay unique |
| FacultadesJs.FacultadStore.ToggleStatus | src/hooks/useFacultades.js:37-39 | flips `activo` on the rows with that id; a second toggle gives back the list; unique ids stay unique |
| FacultadesApi.FilteredFacultades | src/hooks/useFacultades.jsx:125-138 | every faculty shown matches the search on name or description and the state filter, and every faculty that matches both is shown |
| FacultadesApi.StateFiltersSplit | src/hooks/useFacultades.jsx:132-134 | a faculty matching the search is in exactly one of the "activos" and "inactivos" lists |
| FacultadesApi.SaveCheck | src/hooks/useFacultades.jsx:80-83 | accepted exactly when the name is non-empty; the message otherwise |
| FacultadesApi.PayloadOf | src/hooks/useFacultades.jsx:89-95 | the body carries the form's name and description, an absent description left absent |
| FacultadesApi.EditForm | src/hooks/useFacultades.jsx:148-151 | the edit form copies id, description and state, and the name (empty when the faculty has none) |
| FacultadesApi.UnnamedFacultyNeedsName | src/hooks/useFacultades.jsx:80-83 | a faculty listed without a name is refused from its own edit form |
| FacultadesApi.FacultadCatalog.constructor | src/hooks/useFacultades.jsx:5-22 | the loaded list, no search or state filter, hidden notices, a closed add modal with the add form |
| FacultadesApi.FacultadCatalog.ToggleStatus | src/hooks/useFacultades.jsx:49-56 | opens the confirmation with the id, current state and name; nothing else changes but the modal notice |
| FacultadesApi.FacultadCatalog.ExecuteToggleStatus | src/hooks/useFacultades.jsx:58-77 | sends PUT to `desactivar` for an active faculty and to `activar` otherwise; success shows the matching notice and closes the modal; failure shows the server message or the fallback in the modal |
| FacultadesApi.FacultadCatalog.OpenAddModal | src/hooks/useFacultades.jsx:140-146 | an open add modal with the add form and the modal notice hidden |
| FacultadesApi.FacultadCatalog.OpenEditModal | src/hooks/useFacultades.jsx:148-151 | an open edit modal with the faculty's edit form |
| FacultadesApi.FacultadCatalog.CloseModal | src/hooks/useFacultades.jsx:153-156 | closes the modal and hides its notice; kind and form are kept |
| FacultadesApi.FacultadCatalog.HandleSaveFacultad | src/hooks/useFacultades.jsx:79-105 | no name: nothing sent and the error notice; else POST to the base for add or PUT to `actualizar/<id>` for edit with name and description, then the created/updated notice or the server message |
| CarrerasApi.FilteredCarreras | src/hooks/useCarreras.jsx:146-164 | every career shown matches the search on name or code, the faculty filter and the state filter, and every career matching all three is shown |
| CarrerasApi.FacultyFilterIsExact | src/hooks/useCarreras.jsx:155 | with a faculty chosen, every career shown has exactly that faculty id (strict equality, no conversion) |
| CarrerasApi.SaveCheck | src/hooks/useCarreras.jsx:85-88 | accepted exactly when code and name are non-empty and the faculty id is truthy; the message otherwise |
| CarrerasApi.PayloadOf | src/hooks/useCarreras.jsx:91-96 | the body has name, code, faculty id and the description, an absent one sent as "" |
| CarrerasApi.EditForm | src/hooks/useCarreras.jsx:174-177 | the edit form copies id, faculty, state, description, name and code |
| CarrerasApi.EditPayloadKeepsFields | src/hooks/useCarreras.jsx:91-96 | saving an unchanged edit form sends the career's own fields back |
| CarrerasApi.CarreraCatalog.constructor | src/hooks/useCarreras.jsx:5-23 | the loaded list, no search or filters, hidden notices, a closed add modal with the add form |
| CarrerasApi.CarreraCatalog.ToggleStatus | src/hooks/useCarreras.jsx:54-61 | opens the confirmation with the id, current state and name |
| CarrerasApi.CarreraCatalog.ExecuteToggleStatus | src/hooks/useCarreras.jsx:63-82 | PUT to `desactivar` for an active career, `activar` otherwise; success notice and closed modal, or the server message / fallback in the modal |
| CarrerasApi.CarreraCatalog.OpenAddModal | src/hooks/useCarreras.jsx:166-172 | an open add modal with the add form and the modal notice hidden |
| CarrerasApi.CarreraCatalog.OpenEditModal | src/hooks/useCarreras.jsx:174-177 | an open edit modal with the career's edit form |
| CarrerasApi.CarreraCatalog.CloseModal | src/hooks/useCarreras.jsx:179-182 | closes the modal and hides its notice |
| CarrerasApi.CarreraCatalog.HandleSaveCarrera | src/hooks/useCarreras.jsx:84-111 | a missing field: nothing sent and the error notice; else POST or PUT `actualizar/<id>` with the payload, then the created/updated notice or the server message / fallback |
| TiposAulaApi.FilteredTipos | src/hooks/useTiposAula.jsx:62-69 | an empty search gives the whole list; otherwise every type shown matches on name or description, and every such type is shown |
| TiposAulaApi.FoundByNameWithoutDescription | src/hooks/useTiposAula.jsx:66-67 | a type with no description is still found by its own name (the optional chain does not hide it) |
| TiposAulaApi.SaveCheck | src/hooks/useTiposAula.jsx:72-79 | a refusal always carries the name-required message |
| TiposAulaApi.SaveNeedsVisibleName | src/hooks/useTiposAula.jsx:72 | accepted exactly when the name is present and has a character that is not whitespace |
| TiposAulaApi.DeleteRequest | src/hooks/useTiposAula.jsx:115 | a body-less DELETE to `/tipos-aula/eliminar/<id>` |
| TiposAulaApi.DeleteIsNotSave | src/hooks/useTiposAula.jsx:83-115 | a delete request is never the request a save sends |
| TiposAulaApi.TipoAulaCatalog.constructor | src/hooks/useTiposAula.jsx:5-25 | the loaded list, no search (so all shown), hidden notices, a closed add modal |
| TiposAulaApi.TipoAulaCatalog.OpenAddModal | src/hooks/useTiposAula.jsx:135-142 | an open add modal with the empty form and the modal notice hidden |
| TiposAulaApi.TipoAulaCatalog.OpenEditModal | src/hooks/useTiposAula.jsx:144-147 | an open edit modal with a copy of the type |
| TiposAulaApi.TipoAulaCatalog.CloseModal | src/hooks/useTiposAula.jsx:149-152 | closes the modal and hides its notice |
| TiposAulaApi.TipoAulaCatalog.HandleSaveTipo | src/hooks/useTiposAula.jsx:71-110 | a blank name: nothing sent and the error notice; else the whole form POSTed or PUT to `actualizar/<id>`, then the created/updated notice or the server message / fallback |
| TiposAulaApi.TipoAulaCatalog.DeleteTipo | src/hooks/useTiposAula.jsx:112-133 | not confirmed: nothing sent or shown; confirmed: the delete request, then the deleted notice or the server message / fallback on the page |
| CiclosApi.FilteredCiclos | src/hooks/useCiclos.jsx:97-101 | every cycle shown has the lower-case term inside its lower-case name, and every such cycle is shown |
| CiclosApi.EmptySearchKeepsAll | src/hooks/useCiclos.jsx:97-101 | with no guard for an empty term, the empty search still shows every cycle, in order |
| CiclosApi.DatePartOfTimestamp | src/hooks/useCiclos.jsx:110-111 | cutting `day + "T" + time` at the first `T` gives `day` back |
| CiclosApi.DatePartIdempotent | src/hooks/useCiclos.jsx:110-111 | cutting a date that was already cut changes nothing |
| CiclosApi.SaveCheck | src/hooks/useCiclos.jsx:40-42 | accepted exactly when name and both dates are non-empty; the message otherwise |
| CiclosApi.EditForm | src/hooks/useCiclos.jsx:107-114 | the edit form copies id, name and state and holds the date part of both timestamps |
| CiclosApi.TimestampedCycleCanBeResaved | src/hooks/useCiclos.jsx:107-114 | a named cycle with timestamped dates passes the check from its own edit form, with the two days as dates |
| CiclosApi.ActivateRequest | src/hooks/useCiclos.jsx:66 | a body-less PUT to `/ciclos/activar/<id>` |
| CiclosApi.ActivateIsNotEdit | src/hooks/useCiclos.jsx:51-66 | activating never uses the address of an edit |
| CiclosApi.AlertText | src/hooks/useCiclos.jsx:59-69 | the server's message when it has one, else the fallback, so never empty |
| CiclosApi.CicloCatalog.constructor | src/hooks/useCiclos.jsx:5-13 | the loaded list, no search (so all shown), a closed add modal with the empty form |
| CiclosApi.CicloCatalog.OpenAddModal | src/hooks/useCiclos.jsx:103-105 | an open add modal with the empty form |
| CiclosApi.CicloCatalog.OpenEditModal | src/hooks/useCiclos.jsx:107-114 | an open edit modal with the cycle's cut-date edit form |
| CiclosApi.CicloCatalog.CloseModal | src/hooks/useCiclos.jsx:116 | only closes the modal |
| CiclosApi.CicloCatalog.HandleSaveCiclo | src/hooks/useCiclos.jsx:39-61 | a missing field alerts and sends nothing; else the whole form POSTed or PUT to `actualizar/<id>`; success closes the modal, failure alerts the server message or the fallback |
| CiclosApi.CicloCatalog.HandleActivarCiclo | src/hooks/useCiclos.jsx:63-72 | not confirmed: nothing sent and no alert; confirmed: the activate request, and an alert only when it fails |
| Decanos.FilteredDecanos | src/hooks/useDecanos.jsx:77-93 | every dean shown matches the search on first names, last names or e-mail, the state filter and the faculty filter, and every dean matching all three is shown |
| Decanos.FacultyName | src/hooks/useDecanos.jsx:181-196 | absent exactly when no faculty has the id; otherwise the name of a faculty with that id |
| Decanos.SaveCheck | src/hooks/useDecanos.jsx:160-168 | a missing name, last name or faculty gives the first message; only then, adding without an e-mail gives the second; accepted exactly when neither applies |
| Decanos.NewDecano | src/hooks/useDecanos.jsx:171-188 | the added dean has the fresh id, the form's e-mail as `correo`, the form's names and faculty, the looked-up faculty name, and is active |
| Decanos.EditedDecano | src/hooks/useDecanos.jsx:194-197 | an edit changes names, faculty and faculty name, and keeps id, e-mail and state |
| Decanos.SetActivoKeepsIds | src/hooks/useDecanos.jsx:108 | a status change keeps unique ids unique |
| Decanos.AddKeepsIds | src/hooks/useDecanos.jsx:182-189 | appending a dean under a fresh id keeps unique ids unique |
| Decanos.EditorKeepsIds | src/hooks/useDecanos.jsx:195-197 | an edit keeps unique ids unique |
| Decanos.EditForm | src/hooks/useDecanos.jsx:147-153 | the edit form copies the dean and puts `correo` in `email` |
| Decanos.EditRoundTrip | src/hooks/useDecanos.jsx:194-197 | saving an unchanged edit form gives the dean back, with only the faculty name looked up again |
| Decanos.DecanoPanel.constructor | src/hooks/useDecanos.jsx:31-65 | the loaded deans and faculties, no filters, a closed view modal without data, hidden notices |
| Decanos.DecanoPanel.ToggleStatus | src/hooks/useDecanos.jsx:95-102 | opens the confirmation with the id, current state and name; the lists do not change |
| Decanos.DecanoPanel.ExecuteToggleStatus | src/hooks/useDecanos.jsx:104-120 | without modal data nothing changes; otherwise the rows with the modal's id get the opposite of its state, the matching notice shows and the modal closes; unique ids stay unique |
| Decanos.DecanoPanel.OpenAddModal | src/hooks/useDecanos.jsx:139-145 | an open add modal with the empty form |
| Decanos.DecanoPanel.OpenEditModal | src/hooks/useDecanos.jsx:147-153 | an open edit modal with the dean's edit form |
| Decanos.DecanoPanel.CloseModal | src/hooks/useDecanos.jsx:155-158 | closes the modal and hides its notice |
| Decanos.DecanoPanel.HandleSaveDecano | src/hooks/useDecanos.jsx:160-208 | a failed check shows its message and changes nothing; add appends the new dean; edit rewrites the rows with the form's id; the saved notice shows; unique ids stay unique when the fresh id is new |
| DocentesJs.FlipTwice | src/hooks/useDocentes.js:82-84 | flipping the rows of one id keeps unique ids unique, and flipping again gives back the list |
| DocentesJs.ValidateDocente | src/hooks/useDocentes.js:36-40 | a missing name gives the name message; else a missing surname gives the surname message; no message exactly when both are present |
| DocentesJs.FilteredDocentes | src/hooks/useDocentes.js:27-34 | an empty search gives the whole list; otherwise every teacher shown matches on name or surname, and every such teacher is shown |
| DocentesJs.HistoryOf | src/hooks/useDocentes.js:43 | exactly the history entries of that teacher |
| DocentesJs.FromRow | src/hooks/useDocentes.js:93-100 | the imported teacher has the fresh id, the row's names, the row's type or "Tiempo Completo", the parsed load or 40, and is active |
| DocentesJs.HexLoadIsRead | src/hooks/useDocentes.js:98 | a load written "0x10" is read as 16 hours, not replaced by the default 40 |
| DocentesJs.Imported | src/hooks/useDocentes.js:91-103 | at most one teacher per CSV row |
| DocentesJs.NumberedSnoc | src/hooks/useDocentes.js:91-103 | one more valid row, numbered with the next fresh id, extends a numbered import |
| DocentesJs.ImportedAreTheValidRows | src/hooks/useDocentes.js:91-103 | the import holds exactly the rows with names and surnames, in file order, the k-th taking the k-th fresh id |
| DocentesJs.ImportRows | src/hooks/useDocentes.js:88-103 | the `forEach` loop pushes exactly the imported teachers and counts them |
| DocentesJs.ImportKeepsUnique | src/hooks/useDocentes.js:94-106 | appending an import with fresh, distinct ids keeps unique ids unique |
| DocentesJs.DocenteStore.constructor | src/hooks/useDocentes.js:16-25 | the initial list, no search, no history, a closed view modal without data |
| DocentesJs.DocenteStore.SetSearchTerm | src/hooks/useDocentes.js:17 | sets only the search term |
| DocentesJs.DocenteStore.OpenDetailsModal | src/hooks/useDocentes.js:42-47 | the teacher's history and an open details modal showing the teacher |
| DocentesJs.DocenteStore.OpenAddModal | src/hooks/useDocentes.js:49-54 | an open add modal with the default form (full time, load 40, active) |
| DocentesJs.DocenteStore.OpenEditModal | src/hooks/useDocentes.js:56-58 | an open edit modal with a copy of the teacher |
| DocentesJs.DocenteStore.CloseModal | src/hooks/useDocentes.js:60-63 | closes the modal and empties the history |
| DocentesJs.DocenteStore.HandleSaveDocente | src/hooks/useDocentes.js:65-76 | a validation error is alerted and changes nothing; add appends the form with the fresh id, active; edit replaces by the form's id; the modal closes; unique ids stay unique when the fresh id is new |
| DocentesJs.DocenteStore.DeleteDocente | src/hooks/useDocentes.js:78-80 | confirmed: the rows with that id are removed; not confirmed: nothing changes; unique ids stay unique |
| DocentesJs.DocenteStore.ToggleStatus | src/hooks/useDocentes.js:82-84 | flips `activo` on the rows with that id; unique ids stay unique |
| DocentesJs.DocenteStore.HandleImportDocentes | src/hooks/useDocentes.js:87-111 | appends the imported teachers after the list; the alert reports their number, or that none was valid; unique ids stay unique with fresh ids |
| DocentesJsx.FilteredDocentes | src/hooks/useDocentes.jsx:65-80 | every teacher shown matches the search on name or surname, the type filter and the state filter, and every teacher matching all three is shown |
| DocentesJsx.NoFilterShowsAll | src/hooks/useDocentes.jsx:65-80 | with no search and no filter the table shows every teacher, in order |
| DocentesJsx.SaveCheck | src/hooks/useDocentes.jsx:154-157 | accepted exactly when name and surname are non-empty and the load is truthy; the message otherwise |
| DocentesJsx.DataToSave | src/hooks/useDocentes.jsx:159-162 | only the load changes, and it becomes an integer (`parseInt` or 0) |
| DocentesJsx.EditForm | src/hooks/useDocentes.jsx:136-145 | a load strictly equal to 0 is shown as the empty text; any other teacher is copied unchanged |
| DocentesJsx.ZeroLoadCannotBeResaved | src/hooks/useDocentes.jsx:142-154 | a teacher with load 0, opened for editing and saved unchanged, is refused |
| DocentesJsx.NonZeroLoadCanBeResaved | src/hooks/useDocentes.jsx:142-154 | any other teacher that passed the check passes it again after the edit round trip |
| DocentesJsx.DocentePanel.constructor | src/hooks/useDocentes.jsx:16-50 | the loaded list, no search or filters, no history, a closed view modal without data, hidden notices |
| DocentesJsx.DocentePanel.ToggleStatus | src/hooks/useDocentes.jsx:82-100 | not confirmed: nothing changes; confirmed: the rows with that id get the opposite of the status passed in and the matching notice shows; unique ids stay unique |
| DocentesJsx.DocentePanel.OpenDetailsModal | src/hooks/useDocentes.jsx:121-126 | the teacher's history, the modal notice hidden, an open details modal |
| DocentesJsx.DocentePanel.OpenAddModal | src/hooks/useDocentes.jsx:128-134 | an open add modal with the empty-load form |
| DocentesJsx.DocentePanel.OpenEditModal | src/hooks/useDocentes.jsx:136-145 | an open edit modal with the teacher's edit form |
| DocentesJsx.DocentePanel.CloseModal | src/hooks/useDocentes.jsx:147-151 | closes the modal, hides its notice and empties the history |
| DocentesJsx.DocentePanel.HandleSaveDocente | src/hooks/useDocentes.jsx:153-182 | a missing field shows the error notice and changes nothing; add appends the normalised form with the fresh id, active; edit replaces by id; the saved notice shows; unique ids stay unique when the fresh id is new |
| AulasJs.FlipTwice | src/hooks/useAulas.js:86-88 | flipping the rows of one id keeps unique ids unique, and flipping again gives back the list |
| AulasJs.TypeName | src/hooks/useAulas.js:39 | absent exactly when no type's numeric id strictly equals `parseInt` of the room's type id; otherwise the name of such a type |
| AulasJs.SelectedTextFindsType | src/hooks/useAulas.js:39-69 | a type chosen in the form (its id as decimal text) still finds that type's name |
| AulasJs.FilteredAulas | src/hooks/useAulas.js:33-48 | an empty search gives every room; otherwise every room shown matches on name, type name, equipment or location, and every such room is shown |
| AulasJs.ValidateAula | src/hooks/useAulas.js:51-56 | the first failing check in order (blank name, capacity not above 0, no type); no message exactly when all three pass |
| AulasJs.DecimalCapacityGuard | src/hooks/useAulas.js:53 | with a named room, a decimal capacity such as "0.5" or "-0.5" is refused for capacity exactly when it is negative or all its digits are 0 |
| AulasJs.BlankCapacityRefused | src/hooks/useAulas.js:53 | an empty capacity compares as 0 and is refused |
| AulasJs.DataToSave | src/hooks/useAulas.js:69 | only the type id changes, and it becomes `parseInt` of what the form held (a number or NaN) |
| AulasJs.SavedTypeIsNumeric | src/hooks/useAulas.js:69 | a type id given as the decimal text of n is saved as the number n |
| AulasJs.AddFormNeedsName | src/hooks/useAulas.js:91-96 | the untouched add form is refused for its missing name |
| AulasJs.AulaStore.constructor | src/hooks/useAulas.js:22-30 | the initial rooms and types, no search (so all shown), a closed add modal without data |
| AulasJs.AulaStore.SetSearchTerm | src/hooks/useAulas.js:24 | sets only the search term |
| AulasJs.AulaStore.OpenAddModal | src/hooks/useAulas.js:91-96 | an open add modal with the default form (capacity 30, no type, active) |
| AulasJs.AulaStore.OpenEditModal | src/hooks/useAulas.js:98-100 | an open edit modal with a copy of the room |
| AulasJs.AulaStore.CloseModal | src/hooks/useAulas.js:102 | only closes the modal |
| AulasJs.AulaStore.HandleSaveAula | src/hooks/useAulas.js:61-78 | a validation error is alerted and changes nothing; add appends the normalised form with the fresh id, active; edit replaces by id; the modal closes; unique ids stay unique when the fresh id is new |
| AulasJs.AulaStore.DeleteAula | src/hooks/useAulas.js:80-84 | confirmed: the rows with that id are removed; not confirmed: nothing changes; unique ids stay unique |
| AulasJs.AulaStore.ToggleStatus | src/hooks/useAulas.js:86-88 | flips `activo` on the rows with that id; a second toggle gives back the list; unique ids stay unique |
| AulasJsx.FindType | src/hooks/useAulas.jsx:89-125 | absent exactly when no catalogue entry's `id_tipo_aula` strictly equals the key; otherwise the name of such an entry |
| AulasJsx.TypeName | src/hooks/useAulas.jsx:89-125 | the lookup keyed by `parseInt` of the room's type id: absent exactly when no entry matches that number |
| AulasJsx.TypeLabel | src/hooks/useAulas.jsx:88-91 | the type's name when one is found, `---` otherwise |
| AulasJsx.WorkshopNeverFound | src/hooks/useAulas.jsx:3-8 | with the catalogue as written, no type id at all is shown as the workshop |
| AulasJsx.WorkshopFoundByItsId | src/hooks/useAulas.jsx:3-8 | with the fourth entry's id under `id_tipo_aula`, type 4 (number or text) is shown as the workshop |
| AulasJsx.TypeFourIsWorkshop | src/hooks/useAulas.jsx:7 | the corrected catalogue finds the workshop under the number 4 |
| AulasJsx.EquipmentName | src/hooks/useAulas.jsx:66-67 | absent exactly when no equipment id strictly equals `parseInt` of the id; otherwise the name of such equipment |
| AulasJsx.EquipmentNames | src/hooks/useAulas.jsx:65-68 | at most one name per id, every name non-empty and the name of some equipment |
| AulasJsx.AllKnownKeepsOrder | src/hooks/useAulas.jsx:65-68 | when every id names equipment with a non-empty name, the list has exactly one name per id, in the ids' order |
| AulasJsx.KnownHeadIsKept | src/hooks/useAulas.jsx:65-68 | a known first id puts its name in front of the names of the rest |
| AulasJsx.ShiftedNames | src/hooks/useAulas.jsx:65 | the name of the first id followed by the names of the rest is one name per id |
| AulasJsx.FilteredAulas | src/hooks/useAulas.jsx:120-133 | an empty search gives every room; otherwise every room shown matches on name, building, location or type name, and every such room is shown |
| AulasJsx.SaveCheck | src/hooks/useAulas.jsx:136-138 | accepted exactly when name, building and location are non-empty and type and capacity are truthy; the message otherwise |
| AulasJsx.ParseAll | src/hooks/useAulas.jsx:144 | one `parseInt` per equipment id, position by position |
| AulasJsx.DataToSave | src/hooks/useAulas.jsx:140-145 | type and capacity go through `parseInt`, the equipment ids are parsed one by one (or become `[]`), and nothing else changes |
| AulasJsx.MaxId | src/hooks/useAulas.jsx:148 | 0 for no rooms; otherwise an id in use that no room's id exceeds |
| AulasJsx.NextIdIsFresh | src/hooks/useAulas.jsx:148-149 | the largest id plus one is used by no room |
| AulasJsx.FlipTwice | src/hooks/useAulas.jsx:60-62 | flipping the rows of one id keeps unique ids unique, and flipping again gives back the list |
| AulasJsx.AddNextKeepsUnique | src/hooks/useAulas.jsx:148-149 | a room added with the next id keeps unique ids unique |
| AulasJsx.AddFormIsIncomplete | src/hooks/useAulas.jsx:136-161 | the untouched add form is refused |
| AulasJsx.EquipmentModal | src/hooks/useAulas.jsx:64-75 | no modal exactly when the row has no id list; otherwise an open modal with the room's name and its equipment names |
| AulasJsx.AulaCatalog.constructor | src/hooks/useAulas.jsx:41-57 | the initial rooms, the type catalogue as written (workshop id under `id_tipo`) and the equipment catalogue, no search, closed modals |
| AulasJsx.AulaCatalog.ToggleStatus | src/hooks/useAulas.jsx:60-62 | flips `activo` on the rows with that id; a second toggle gives back the list; unique ids stay unique |
| AulasJsx.AulaCatalog.OpenEquipamientoModal | src/hooks/useAulas.jsx:64-75 | shows the room's equipment modal; a row with no id list changes nothing |
| AulasJsx.AulaCatalog.CloseEquipModal | src/hooks/useAulas.jsx:77 | the closed, empty equipment modal |
| AulasJsx.AulaCatalog.OpenAddModal | src/hooks/useAulas.jsx:156-161 | an open add modal with the default form (location Campus, capacity 30, no equipment) |
| AulasJsx.AulaCatalog.OpenEditModal | src/hooks/useAulas.jsx:163 | an open edit modal with a copy of the room |
| AulasJsx.AulaCatalog.CloseModal | src/hooks/useAulas.jsx:164 | only closes the modal |
| AulasJsx.AulaCatalog.HandleSaveAula | src/hooks/useAulas.jsx:135-154 | a missing field is alerted and changes nothing; add appends the normalised form with the largest id plus one, active; edit replaces by id; the modal closes; unique ids always stay unique |
| PlanesJs.FlipTwice | src/hooks/usePlanEstudio.js:40 | flipping the rows of one id keeps unique ids unique, and flipping again gives back the list |
| PlanesJs.CareerName | src/hooks/usePlanEstudio.js:25 | absent exactly when no career has the id; otherwise the name of a career with that id |
| PlanesJs.FilteredPlanes | src/hooks/usePlanEstudio.js:20-27 | an empty search gives every plan; otherwise every plan kept matches on its name or its career's name, and every such plan is kept |
| PlanesJs.SaveCheck | src/hooks/usePlanEstudio.js:30 | accepted exactly when name and career are non-empty; the message otherwise |
| PlanesJs.AddForm | src/hooks/usePlanEstudio.js:42 | the add form holds the current year, no name, no career, and is active |
| PlanesJs.PlanStore.constructor | src/hooks/usePlanEstudio.js:15-18 | the initial plans and careers, no search, a closed add modal without data |
| PlanesJs.PlanStore.SetSearchTerm | src/hooks/usePlanEstudio.js:20-46 | sets the term; the list handed out does not change, so a plan that does not match is still handed out while the filtered list drops it |
| PlanesJs.PlanStore.OpenAddModal | src/hooks/usePlanEstudio.js:42 | an open add modal with the add form for the current year |
| PlanesJs.PlanStore.OpenEditModal | src/hooks/usePlanEstudio.js:43 | an open edit modal with a copy of the plan |
| PlanesJs.PlanStore.CloseModal | src/hooks/usePlanEstudio.js:44 | only closes the modal |
| PlanesJs.PlanStore.HandleSavePlan | src/hooks/usePlanEstudio.js:29-37 | missing data is alerted and changes nothing; add appends the form with the fresh id, active; edit replaces by id; the modal closes; unique ids stay unique when the fresh id is new |
| PlanesJs.PlanStore.DeletePlan | src/hooks/usePlanEstudio.js:39 | confirmed: the rows with that id are removed; not confirmed: nothing changes; unique ids stay unique |
| PlanesJs.PlanStore.ToggleStatus | src/hooks/usePlanEstudio.js:40 | flips `activo` on the rows with that id; a second toggle gives back the list; unique ids stay unique |
| MateriasJs.FlipTwice | src/hooks/useMaterias.js:35 | flipping the rows of one id keeps unique ids unique, and flipping again gives back the list |
| MateriasJs.FilteredMaterias | src/hooks/useMaterias.js:14-21 | an empty search gives every subject; otherwise every subject kept matches on name or code, and every such subject is kept |
| MateriasJs.SaveCheck | src/hooks/useMaterias.js:24 | accepted exactly when name and code are non-empty and `uv <= 0` is false; the message otherwise |
| MateriasJs.DecimalCreditGuard | src/hooks/useMaterias.js:24 | with name and code given, a decimal credit value is refused exactly when it is negative or all its digits are 0 |
| MateriasJs.CreditGuardOnText | src/hooks/useMaterias.js:24 | blank credits compare as 0 and are refused, while non-numeric credits compare as NaN and pass |
| MateriasJs.MateriaStore.constructor | src/hooks/useMaterias.js:10-12 | the initial subjects, no search, a closed add modal without data |
| MateriasJs.MateriaStore.SetSearchTerm | src/hooks/useMaterias.js:14-41 | sets the term; the list handed out does not change, so a subject that does not match is still handed out while the filtered list drops it |
| MateriasJs.MateriaStore.OpenAddModal | src/hooks/useMaterias.js:37 | an open add modal with the default form (4 credits, theory, active) |
| MateriasJs.MateriaStore.OpenEditModal | src/hooks/useMaterias.js:38 | an open edit modal with a copy of the subject |
| MateriasJs.MateriaStore.CloseModal | src/hooks/useMaterias.js:39 | only closes the modal |
| MateriasJs.MateriaStore.HandleSaveMateria | src/hooks/useMaterias.js:23-32 | invalid data is alerted and changes nothing; add appends the form with the fresh id, active; edit replaces by id; the modal closes; unique ids stay unique when the fresh id is new |
| MateriasJs.MateriaStore.DeleteMateria | src/hooks/useMaterias.js:34 | confirmed: the rows with that id are removed; not confirmed: nothing changes; unique ids stay unique |
| MateriasJs.MateriaStore.ToggleStatus | src/hooks/useMaterias.js:35 | flips `activo` on the rows with that id; a second toggle gives back the list; unique ids stay unique |
| CarrerasJs.FlipTwice | src/hooks/useCarreras.js:42 | flipping the rows of one id keeps unique ids unique, and flipping again gives back the list |
| CarrerasJs.FacultyName | src/hooks/useCarreras.js:26 | absent exactly when no faculty has the id; otherwise the name of a faculty with that id |
| CarrerasJs.FilteredCarreras | src/hooks/useCarreras.js:20-28 | an empty search gives every career; otherwise every career kept matches on its name or its faculty's name, and every such career is kept |
| CarrerasJs.FoundByFacultyName | src/hooks/useCarreras.js:26 | a career is found by the lower-case name of the first faculty with its id |
| CarrerasJs.SaveCheck | src/hooks/useCarreras.js:31 | accepted exactly when name and faculty are non-empty; the message otherwise |
| CarrerasJs.CarreraStore.constructor | src/hooks/useCarreras.js:15-18 | the initial careers and faculties, no search, a closed add modal without data |
| CarrerasJs.CarreraStore.SetSearchTerm | src/hooks/useCarreras.js:20-48 | sets the term; the list handed out does not change, so a career that does not match is still handed out while the filtered list drops it |
| CarrerasJs.CarreraStore.OpenAddModal | src/hooks/useCarreras.js:44 | an open add modal with the default form (5 years, active) |
| CarrerasJs.CarreraStore.OpenEditModal | src/hooks/useCarreras.js:45 | an open edit modal with a copy of the career |
| CarrerasJs.CarreraStore.CloseModal | src/hooks/useCarreras.js:46 | only closes the modal |
| CarrerasJs.CarreraStore.HandleSaveCarrera | src/hooks/useCarreras.js:30-39 | missing data is alerted and changes nothing; add appends the form with the fresh id, active; edit replaces by id; the modal closes; unique ids stay unique when the fresh id is new |
| CarrerasJs.CarreraStore.DeleteCarrera | src/hooks/useCarreras.js:41 | confirmed: the rows with that id are removed; not confirmed: nothing changes; unique ids stay unique |
| CarrerasJs.CarreraStore.ToggleStatus | src/hooks/useCarreras.js:42 | flips `activo` on the rows with that id; a second toggle gives back the list; unique ids stay unique |
| PlanesApi.Bound | src/hooks/usePlanEstudio.jsx:182-183 | an empty year filter gives the default bound; otherwise `parseInt` of the text (possibly NaN) |
| PlanesApi.FilteredPlanes | src/hooks/usePlanEstudio.jsx:164-189 | every plan shown matches the search on name or career name, the state filter and the start-year range, and every plan matching all three is shown |
| PlanesApi.DefaultYearRange | src/hooks/usePlanEstudio.jsx:178-185 | with both year filters empty, a plan passes exactly when it has no start year or one between 0 and 9999 |
| PlanesApi.NonNumericBoundExcludesDated | src/hooks/usePlanEstudio.jsx:182-184 | a year filter that is not a number shuts out every dated plan and keeps every undated one |
| PlanesApi.SaveCheck | src/hooks/usePlanEstudio.jsx:86-99 | a missing name or career gives the first message; with both years given and the start not before the end, the second; accepted exactly when neither applies |
| PlanesApi.PayloadOf | src/hooks/usePlanEstudio.jsx:102-109 | career and name copied; an empty description becomes null; each given year becomes 1 January / 31 December of it, a missing one null; `vigente` defaults to true |
| PlanesApi.EditForm | src/hooks/usePlanEstudio.jsx:202-212 | the edit form copies id, career and state, and turns each date into its year or the empty text |
| PlanesApi.DisorderedPlanCannotBeResaved | src/hooks/usePlanEstudio.jsx:91-98 | a plan whose start year is not before its end year is refused from its own edit form |
| PlanesApi.EditPayloadKeepsYears | src/hooks/usePlanEstudio.jsx:106-108 | saving an unchanged edit form sends the plan's own years back, as the first and last day of each, with its state |
| PlanesApi.PlanCatalog.constructor | src/hooks/usePlanEstudio.jsx:5-24 | the loaded plans, no search or filters, hidden notices, a closed add modal with the add form |
| PlanesApi.PlanCatalog.ToggleStatus | src/hooks/usePlanEstudio.jsx:55-62 | opens the confirmation with the id, current state and name |
| PlanesApi.PlanCatalog.ExecuteToggleStatus | src/hooks/usePlanEstudio.jsx:64-83 | PUT to `desactivar` for a current plan, `activar` otherwise; success notice and closed modal, or the server message / fallback in the modal |
| PlanesApi.PlanCatalog.OpenAddModal | src/hooks/usePlanEstudio.jsx:191-200 | an open add modal with the add form and the modal notice hidden |
| PlanesApi.PlanCatalog.OpenEditModal | src/hooks/usePlanEstudio.jsx:202-212 | an open edit modal with the plan's edit form |
| PlanesApi.PlanCatalog.CloseModal | src/hooks/usePlanEstudio.jsx:214-217 | closes the modal and hides its notice |
| PlanesApi.PlanCatalog.HandleSavePlan | src/hooks/usePlanEstudio.jsx:85-124 | a failed guard shows its message and sends nothing; else POST or PUT `actualizar/<id>` with the payload, then the created/updated notice or the server message / fallback |
| MateriasApi.FilteredMaterias | src/hooks/useMaterias.jsx:149-167 | every subject shown matches the search on name or code, the room-type filter and the state filter, and every subject matching all three is shown |
| MateriasApi.NoFilterShowsAll | src/hooks/useMaterias.jsx:149-167 | with no search and no filter every subject is listed, in order |
| MateriasApi.SaveCheck | src/hooks/useMaterias.jsx:96-99 | accepted exactly when name and code are non-empty and plan and cycle are truthy; the message otherwise |
| MateriasApi.PayloadOf | src/hooks/useMaterias.jsx:101-106 | hours become `parseInt` or 0, the cycle `parseInt`, and every other field is sent as typed |
| MateriasApi.LinkField | src/hooks/useMaterias.jsx:192-193 | a truthy link field is kept, anything else becomes the empty text |
| MateriasApi.HoursField | src/hooks/useMaterias.jsx:190-191 | an hour count strictly equal to 0 is shown as the empty text, any other value as it is |
| MateriasApi.EditForm | src/hooks/useMaterias.jsx:182-196 | the edit form copies id, room type and state, blanks zero hours, and takes plan and cycle from the first plan link (or the empty text) |
| MateriasApi.EditKeepsHours | src/hooks/useMaterias.jsx:103-104 | editing and saving a subject unchanged sends its whole-number hours back, 0 included |
| MateriasApi.UnlinkedSubjectNeedsPlan | src/hooks/useMaterias.jsx:184-193 | a subject with no plan link is refused from its edit form until a plan is chosen |
| MateriasApi.MateriaCatalog.constructor | src/hooks/useMaterias.jsx:5-30 | the loaded subjects, no search or filters (so all listed), hidden notices, a closed add modal with the add form |
| MateriasApi.MateriaCatalog.ToggleStatus | src/hooks/useMaterias.jsx:65-72 | opens the confirmation with the id, current state and name |
| MateriasApi.MateriaCatalog.ExecuteToggleStatus | src/hooks/useMaterias.jsx:74-93 | PUT to `desactivar` for an active subject, `activar` otherwise; success notice and closed modal, or the server message / fallback in the modal |
| MateriasApi.MateriaCatalog.OpenAddModal | src/hooks/useMaterias.jsx:169-180 | an open add modal with the empty form and the modal notice hidden |
| MateriasApi.MateriaCatalog.OpenEditModal | src/hooks/useMaterias.jsx:182-196 | an open edit modal with the subject's edit form |
| MateriasApi.MateriaCatalog.CloseModal | src/hooks/useMaterias.jsx:198-201 | closes the modal and hides its notice |
| MateriasApi.MateriaCatalog.HandleSaveMateria | src/hooks/useMaterias.jsx:95-122 | a missing field shows the error and sends nothing; else the normalised payload POSTed or PUT to `actualizar/<id>`, then the created/updated notice or the server message / fallback |
| Common.TrimBlank | src/hooks/useTiposAula.jsx:72 | a text trims to nothing exactly when every character of it is whitespace |
| Common.TrimIdempotent | src/components/common/BotonImportar.jsx:29-37 | trimming a trimmed text changes nothing |
| Common.LowerIdempotent | src/hooks/useFacultades.jsx:127-130 | lower-casing a lower-cased text changes nothing |
| Common.SplitJoin | src/components/common/BotonImportar.jsx:30-33 | the pieces `split` gives, joined with the separator, give back the text |
| Common.SplitPiecesAvoidSeparator | src/hooks/useCiclos.jsx:110-111 | no piece of a split contains the separator |
| Common.StrictEqIsPartialEquivalence | src/hooks/useCarreras.jsx:155 | `===` is symmetric and transitive, holds between equal values, and fails only on NaN against itself |
| Common.ParseIntOr | src/hooks/useMaterias.jsx:103-104 | `parseInt` with a fallback: the parsed number when it is a non-zero number, the fallback for NaN and 0 |
| Common.ParseIntAgreesWithNumber | src/hooks/useAulas.js:53 | on a plain run of digits, `parseInt` and the `Number` conversion of `<=` give the same number, the digits' value |
| Common.ParseIntReadsHex | src/hooks/useDocentes.js:98 | `parseInt` with no radix reads a text "0x" followed by hex digits in base 16 |
| Common.DecimalNotPositive | src/hooks/useAulas.js:53 | a decimal text `d.d` (optionally negative) compares `<= 0` exactly when it is negative or all its digits are 0 |
| Lists.FilterMembers | src/hooks/useFacultades.jsx:125-138 | every element kept comes from the list, and every element of the list that satisfies the predicate is kept |
| Lists.FilterKeepsAll | src/hooks/useMaterias.jsx:149-167 | a predicate true of every element keeps the whole list |
| Lists.FindFirst | src/hooks/useDecanos.jsx:181 | `find` returns the first element satisfying the predicate |

## Left out

- Loading: `fetchData`/`fetch*` loaders, `await`, `Promise.all`, simulated delays and the `loading`/`isLoading` flags of the catalogue hooks. These are I/O. Each API hook starts from its loaded list, given to its constructor.
- Mock catalogues of the in-memory hooks: taken as constructor parameters, not copied as constants. The exception is the `useAulas.jsx` type catalogue, which the workshop finding is about.
- `setTimeout` auto-close after a save: the API hooks keep the modal open after a successful save. The delayed `closeModal` is a timer and is not modelled.
- `handleInputChange` and the plain state setters of the API hooks (`setSearchTerm`, `setFilterFacultad`, `setFilterEstado` and the like): these only assign a field. The filtered lists are modelled as functions of those fields.
- Table column definitions and other JSX rendering, except the timetable cell decision and the availability grid cell.
- Drag-over highlighting through `classList` and the `dataTransfer` payload in the timetable grid: DOM effects.
- React render and closure timing: each handler is one sequential step on the current state.
- `new Date`, `getFullYear` and `toLocaleDateString`. Dates are ISO texts (plan validity dates are kept as their year), and the current year is a parameter.
- Numeric ids turned into address text: URLs are built from the id as text. The empty text stands for an absent id. Fields that a spread `...item` copies, beyond the modelled ones, are left out.
- Timing of notifications and their dismissal: a notice is a field that a handler sets.
- The server-side effect of activating a cycle, which deactivates the others: it happens on the server, not in the hook.
- `console.log`/`console.error` calls, and the logging of `statusCode >= 500` errors.
- Floating-point hours: offered time is summed in whole minutes, not as a float, and the progress percentage and the rounding of the missing hours in the shortfall line are left out. The short-hours notice carries the minimum load and the rounded offered tenths, not the rendered text.
- Availability.RoundToTenth: a time exactly halfway between two tenths (3, 9, 15, … minutes past a tenth) is rounded away from zero. The source sums float hours, and such a sum may sit just below or above the half, so the source may round either way there.
- `toLowerCase` covers the ASCII and Latin-1 letters only. There is no other Unicode case mapping and no normalisation. Strings are sequences of UTF-16 code units only where the password length needs it (`Login.Utf16Length`).
- PlanesApi.EditPayloadKeepsYears: plan dates are kept as their year, and the years are assumed to survive the round trip. The source sends the start as `new Date("YYYY-01-01")`, which is UTC midnight, and reads years back with `getFullYear`, which uses local time; in a time zone west of UTC that start reads as the year before, so the edit form shows it and sends it back. The model does not capture this shift.
- ScheduleGrid.Dispatch: a click on a card's edit icon is modelled as only `onEdit`. The icon sits inside the card, so the click also bubbles to the card's `onView` unless the page's `onEdit` stops propagation; the page's handler is not part of this model.
- Login.LoginScreen.HandleForcePasswordUpdate: with no pending user, the model shows the fallback failure message, not the runtime's `TypeError` text that the source would show.
- DocentesJs.Imported: its own contract states only the bound on the count. The exact contents are stated by `DocentesJs.ImportedAreTheValidRows`.
- TiposAulaApi.SaveCheck: its own contract states only the message. The condition for acceptance is stated by `TiposAulaApi.SaveNeedsVisibleName`.

## Findings

| source | as written | input that shows it | evidently intended | confidence | as-written member | corrected member |
|---|---|---|---|---|---|---|
| src/pages/login/Login.jsx:51-56 | `getUserRole` returns only `{ rol }`, yet the login rejects any user whose `activo` is not truthy | any sign-in whose user is found as a teacher or an administrator: `userRole.activo` is `undefined`, so the user is told they are inactive and signed out | the role lookup carries the matched row's `activo`, and an active user is admitted | not executed | Login.AsWrittenLoginAlwaysRejects | Login.ActiveUserIsAdmitted |
| src/hooks/useAulas.jsx:7 | the fourth classroom type keys its id as `id_tipo`, while the lookup compares `id_tipo_aula` | a classroom of type 4: `find` never matches, so the table shows `---` instead of "Taller de Arquitectura" | the entry is `{ id_tipo_aula: 4, ... }` | not executed | AulasJsx.WorkshopNeverFound | AulasJsx.WorkshopFoundByItsId |
| src/hooks/usePlanEstudio.js:46 | the hook computes `filteredPlanes` but returns `planes` | search term "zzz" with a plan named "Plan 2020": the plan is still handed out | the hook hands out the filtered list | not executed | PlanesJs.PlanStore.SetSearchTerm | PlanesJs.FilteredPlanes |
| src/hooks/useMaterias.js:41 | the hook computes `filteredMaterias` but returns `materias` | search term "zzz" with a subject named "Calculo": the subject is still handed out | the hook hands out the filtered list | not executed | MateriasJs.MateriaStore.SetSearchTerm | MateriasJs.FilteredMaterias |
| src/hooks/useCarreras.js:48 | the hook computes `filteredCarreras` but returns `carreras` | search term "zzz" with a career named "Arquitectura": the career is still handed out | the hook hands out the filtered list | not executed | CarrerasJs.CarreraStore.SetSearchTerm | CarrerasJs.FilteredCarreras |

