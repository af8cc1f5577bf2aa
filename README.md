# Patient import, toggle and listing of the clinic back office

This Dafny project models the patient-management core of a Django clinic
application:

- `pacientes_import`. It reads a spreadsheet of patients. Each data row, from
  row 2 on, is checked for three truthy cells (nombre, apellido, movil): an empty
  cell, an empty text and the number 0 all fail.
  A row that passes is upserted into the patient table by its stripped
  mobile number. The names are stripped and `activo` is forced to true.
  The view keeps three counters (new, updated, errors) and a list of
  "Fila R: ..." messages, of which at most five are shown.
- `paciente_toggle`. It flips `activo` of the patient with a given primary
  key, or reports "Paciente no encontrado".
- `pacientes_lista`. It filters the patient list by state and by a
  case-insensitive search over the names and the mobile number, and counts
  the whole table's active and inactive patients.
- The model rules of home/models.py:
  - the unique mobile number and the `activo` default of `Paciente`;
  - the state choices and defaults of `Cita` and `Notificacion`;
  - `Notificacion.clean`, which refuses a scheduled day before today, and
    `Notificacion.save`, which runs `clean` before writing;
  - the `__str__` of `Paciente`, `NumeroNotificacion` and `Notificacion`.

Modules, one per file:

- `Wrappers` (wrappers.dfy): `Option`, `Result` and `Outcome`.
- `Strings` (strings.dfy): Python's `str.strip` over the exact `str.isspace`
  set, `str()` of integers, zero padding, ASCII lower-casing, substring
  search and splitting.
- `Models` (models.dfy): home/models.py.
- `PatientTable` (patient_table.dfy): the patient table. `Db` is its value
  and `Table` is a class whose methods update it in place. It also holds
  `update_or_create` keyed by `movil` and the toggle.
- `PatientImport` (patient_import.dfy):
  - the row checks;
  - the import loop as a specification function (`ImportRows`) and as an
    imperative method (`ImportWorksheet`) proved against it;
  - message rendering and the five-line display cap.
- `ImportIdempotence` (import_idempotence.dfy): after a first import with no
  failed write, a re-import creates nothing; when no write fails in either
  import, it leaves the table as it was.
- `PatientList` (patient_list.dfy): the listing filters and counts.

The inputs that the code gets from outside are parameters of the model:

- The worksheet is a sequence of rows of cells: `Empty`, `Text` or an integer
  `Number`.
- The storage failures that `update_or_create` may raise are a function from
  the spreadsheet row number to an optional error text.
- "Today" is a date argument of `clean` and `save`.

Three behaviours of the code are worth naming:

- home/views.py defines only the patient import; there is no appointment
  import in it.
- A row with fewer than three cells reaches the generic `except` branch with
  the `IndexError` text "tuple index out of range", and this is what the
  model does.
- A mobile cell holding only whitespace passes the check, because the check
  runs before `strip`. It is then written as the empty mobile number
  (`WhitespaceMobileAccepted`).

## Model

| member | source | states |
|---|---|---|
| Strings.Trim | home/views.py:50-57 | `strip()` removes exactly the leading and trailing whitespace: the result is an infix of the input, everything cut off is whitespace, and the result neither starts nor ends with whitespace |
| Strings.TrimIdempotent | home/views.py:50-57 | stripping a stripped string changes nothing |
| Strings.TrimAllSpace | home/views.py:50 | a string made only of whitespace strips to "" |
| Strings.NatToStringRoundTrip | home/views.py:46 | the decimal rendering of a row number or count reads back as that number and has no leading zero |
| Models.NewPaciente | home/models.py:24-28 | a new patient has the given key, names and mobile number, and `activo` is true by default |
| Models.PacienteStrShowsNames | home/models.py:37-38 | `str(paciente)` (`PacienteStr`) is the first name, one space and the last name, whatever the names hold |
| Models.PacienteStrSplits | home/models.py:37-38 | when the first name has no space, splitting `PacienteStr` at its first space gives back both names |
| Models.ParseEstadoCita | home/models.py:42-47 | exactly the four appointment codes pendiente/confirmada/cancelada/atendida are states; each parses back to the state it names |
| Models.ParseEstadoNotificacion | home/models.py:108-113 | exactly the four notification codes pendiente/enviada/fallida/entregada are states |
| Models.DefaultsArePendiente | home/models.py:42-52 | the default of `Cita.estado` (and of `Notificacion.estado`, line 125) is the "pendiente" choice |
| Models.BeforeIsEarlierDay | home/models.py:144 | `fecha_notificacion < fecha_hoy` (`Before`), comparing dates field by field, agrees with comparing their proleptic Gregorian day numbers, in both directions |
| Models.Clean | home/models.py:137-147 | a refusal always carries the "fechas pasadas" message |
| Models.CleanRejectsPastDaysOnly | home/models.py:137-147 | `clean` refuses if and only if a date is set and its day number is below today's; a date on today is accepted at any hour, and a missing date passes |
| Models.CleanIgnoresTimeOfDay | home/models.py:140-144 | two scheduled times on the same day get the same verdict |
| Models.StampRoundTrip | home/models.py:154 | `strftime('%d/%m/%Y %H:%M')` (`Stamp`) is sixteen characters with fixed separators and reads back as the date and time rendered |
| Models.NewNotificacion | home/models.py:119-128 | a new notification has the given numbers and schedule, `estado` starts at the "pendiente" choice and the error message is empty |
| Models.NotificacionStr | home/models.py:153-154 | a rendering exists exactly when a scheduled date is set |
| Models.NotificacionStrShowsSchedule | home/models.py:153-154 | the rendering is the prefix and recipient number, then " - ", then exactly the stamp of the scheduled time, which reads back as that time |
| Models.NumeroNotificacionStr | home/models.py:77-79 | the rendering starts with the number; it is the number alone exactly when the description is empty, and otherwise the number followed by " - " and the description |
| Models.NumeroNotificacionStrInjective | home/models.py:77-79 | two records with the same number render alike only if their descriptions are equal |
| Models.NotificationStore.Save | home/models.py:149-151 | `save` runs `clean` first: a past date is refused with the `clean` message and nothing is written; a storage error writes nothing; neither refusal touches the rows, the key counter or the recorded save days; otherwise the row is stored under its key, and no stored row is ever scheduled before the day it was saved |
| PatientTable.FindMovil | home/views.py:53-54 | the lookup by mobile number finds a row with that number, and finds none exactly when no row has it |
| PatientTable.FindPk | home/views.py:122 | the lookup by primary key finds a row with that key, and finds none exactly when no row has it |
| PatientTable.Upsert | home/views.py:53-60 | `update_or_create` keeps mobile numbers unique (`UniqueMovil`, the `unique=True` of home/models.py:27) and keys increasing; it creates exactly when the number was absent; the set of numbers gains just this one; one row is added on creation and none otherwise; UpsertEffect places it at the end under the next key |
| PatientTable.UpsertEffect | home/views.py:53-60 | afterwards the row with the number has the new names and is active; every old row keeps its place, key and number, rows with other numbers are unchanged, and a created row is the new patient under the next key |
| PatientTable.UpsertLeavesOneRow | home/views.py:53-60 | afterwards exactly one row carries the mobile number |
| PatientTable.Toggle | home/views.py:119-131 | an unknown key is an error "Paciente no encontrado"; otherwise only the row with that key has `activo` negated, and the table's constraints still hold |
| PatientTable.ToggleTwice | home/views.py:122-124 | toggling the same key twice restores the table |
| PatientTable.Table.UpdateOrCreate | home/views.py:53-60 | the in-place update of the table is `Upsert` of the old state, and its result says whether a row was created |
| PatientTable.Table.ToggleActivo | home/views.py:119-131 | the in-place toggle is `Toggle` of the old state: an unknown key leaves the table unchanged and returns the error, and a success returns `ToggleMessage` of the new value, "Paciente activado correctamente" or "Paciente desactivado correctamente" |
| PatientImport.ParseRow | home/views.py:40-57 | a row passes if and only if it has three cells and all three are truthy (`Truthy`, Python's truth value of `all([...])`); a short row fails with the `IndexError` text; a falsy cell fails with "Faltan datos obligatorios"; the data written are the stripped `str()` of the cells (`CellStr`, with `IntToString` for numbers) |
| Strings.IntToStringInjective | home/views.py:50 | `str()` of an integer cell (`IntToString`) tells distinct integers apart |
| PatientImport.ParsedFieldsAreStripped | home/views.py:50-57 | the fields written are already stripped |
| PatientImport.WhitespaceMobileAccepted | home/views.py:44-50 | a mobile cell of whitespace passes the check and is written as "" |
| PatientImport.RenderErrorShowsRow | home/views.py:46 | each message `RenderError` builds starts with "Fila ", and its row number and reason can be read back |
| PatientImport.Step | home/views.py:39-69 | one row increments exactly one counter; a row is rejected (`Verdict`) by a failed check or by the text of the exception `update_or_create` raises (home/views.py:67-69), and a rejected row appends its error and changes nothing else; an accepted row is upserted, and counts as new if and only if its number was absent, otherwise as updated |
| PatientImport.ImportRows | home/views.py:38-69 | the import keeps the table's constraints, the three counters sum to the number of data rows, and the errors are the rejected rows whatever the table held |
| PatientImport.ErrorRowsInOrder | home/views.py:38 | error rows are spreadsheet row numbers from 2 to the last row, in strictly increasing order |
| PatientImport.ImportGrowsTable | home/views.py:53-60 | an import never removes a mobile number, and the table grows by exactly the number of new patients |
| PatientImport.ImportWritesAcceptedRows | home/views.py:39-69 | the table after the import is the accepted rows upserted in order, so rejected rows leave no trace; new plus updated is the number of accepted rows |
| PatientImport.ErrorsAreRejectedRows | home/views.py:44-69 | every listed error is the spreadsheet number and reason of a rejected row, and every rejected row is listed with its number and reason |
| PatientImport.MissingDataRow | home/views.py:44-47 | a row of three cells with a falsy one adds the error "Faltan datos obligatorios" under its row number and leaves the table and the other counters unchanged |
| PatientImport.UpsertKeepsActive | home/views.py:55-59 | an upsert activates its own mobile number and keeps other numbers' rows active |
| PatientImport.UpsertAllActivates | home/views.py:55-59 | after a batch of upserts every mobile number in the batch has an active row |
| PatientImport.AcceptedRowsAreActive | home/views.py:53-65 | after an import every accepted row's patient is active, so a deactivated patient is reactivated |
| PatientImport.Display | home/views.py:75-79 | the first min(5, n) messages are shown in order; a trailer appears if and only if there are more than five, and it is "... y K errores más" with K = n - 5 |
| PatientImport.MoreErrorsCounts | home/views.py:79 | the trailer `MoreErrors` builds has a count that reads back as the number of messages not shown |
| PatientImport.ImportRow | home/views.py:39-69 | one pass of the loop body: a rejected row leaves the table unchanged and yields its "Fila R: reason" message; an accepted row updates the table to `Upsert` of the old state and yields new or updated as the upsert reports |
| PatientImport.ImportWorksheet | home/views.py:32-69 | the loop updates the table in place to `ImportRows` of the old table, and its counters and messages are that outcome's |
| PatientImport.SummaryInjective | home/views.py:72 | the summary line (`Summary`) determines the three counters: two summaries are equal only when their new, updated and error counts are |
| PatientImport.PacientesImport | home/views.py:72-79 | the messages are the summary line with the three counters, then the capped detail lines |
| ImportIdempotence.FinalKeepsIdentity | home/views.py:53-60 | applying a batch of upserts to one row never changes its key or mobile number, and leaves a row whose number the batch does not mention unchanged |
| ImportIdempotence.FinalForgetsFields | home/views.py:55-59 | once a batch mentions a row's number, the outcome depends only on its key and number |
| ImportIdempotence.FinalIdempotent | home/views.py:53-60 | applying a batch twice to a row is applying it once |
| ImportIdempotence.UpsertAllExisting | home/views.py:53-60 | a batch adds exactly its mobile numbers, and every existing row keeps its place and receives the batch's effect |
| ImportIdempotence.UpsertAllAppended | home/views.py:53-60 | rows a batch appends carry one of its numbers and are unchanged by the batch |
| ImportIdempotence.UpsertAllKnownKeys | home/views.py:53-65 | a batch whose numbers are all present creates no row and leaves the key counter alone |
| ImportIdempotence.UpsertAllIdempotent | home/views.py:53-60 | applying the same batch twice gives the table that applying it once gives |
| ImportIdempotence.AcceptedMovilsParsed | home/views.py:44-69 | the numbers written are among those of rows that pass the checks |
| ImportIdempotence.AcceptedMovilsNoFaults | home/views.py:44-69 | with no storage failure, every row that passes the checks is written |
| ImportIdempotence.KnownRowsCreateNothing | home/views.py:53-65 | importing rows whose numbers are all present reports 0 new |
| ImportIdempotence.ReimportCreatesNothing | home/views.py:53-65 | after a first import with no failed write, importing the same file a second time reports 0 new, whatever fails the second time |
| ImportIdempotence.ReimportIdempotent | home/views.py:38-69 | with no storage failure, a re-import leaves the table unchanged, counts every written row as updated and reports the same errors |
| ImportIdempotence.KeysAfterStep | home/views.py:53-60 | one more row never removes a mobile number from the table |
| ImportIdempotence.KeysGrowAlongRows | home/views.py:53-60 | the set of mobile numbers only grows along the rows |
| ImportIdempotence.RepeatedMobileCountsUpdated | home/views.py:53-65 | a mobile number repeated within one file counts as updated the second time |
| ImportIdempotence.SingleRowExample | home/views.py:38-72 | a complete row on an empty table gives 1 new, 0 updated, 0 errors, and the same file again gives 0 new, 1 updated, 0 errors |
| PatientList.Listing | home/views.py:93-106 | a patient is listed if and only if it is in the table and passes the state filter (`StateMatches`: any non-empty `estado` filters on `activo == (estado == "activo")`) and the search (`SearchMatches`: `icontains` on the first name, the last name or the mobile number) |
| PatientList.ListingNewestFirst | home/models.py:33-34 | the listing has strictly decreasing primary keys: newest first, and no patient twice |
| PatientList.ListingUnfiltered | home/views.py:96-101 | with no state and no search, everyone is listed |
| PatientList.CountActive | home/views.py:111 | the number of active patients, at most the table size; CountsAreFilteredListings ties it to the filtered listing |
| PatientList.CountsPartition | home/views.py:110-112 | active (`CountActive`, `filter(activo=True).count()`) plus inactive (`CountInactive`, `filter(activo=False).count()`) is the total |
| PatientList.CountsAreFilteredListings | home/views.py:96-112 | `activos` is the size of the listing filtered on "activo", and `inactivos` that of the listing filtered on any other non-empty state |
| PatientList.ListView | home/views.py:108-113 | the page lists exactly the matching patients, newest first when the table is well formed; `activos` is the size of the unsearched "activo" listing and `inactivos` that of the "inactivo" listing, whatever the filters; active plus inactive is the total |

## Left out

- Reading the upload and the workbook (`load_workbook`), the missing-file message and the whole-file failure branch are left out. They are I/O, and the rows are an input here.
- `descargar_plantilla_excel` is left out: it is spreadsheet styling and an HTTP response.
- Requests, `messages`, `redirect`, `render` and `login_required` are left out. The import returns its messages as a list of strings.
- URL routing, the admin configuration, the deployment shims, the authentication and registration views, and the demo-data management command are not part of this model.
- `citas_import` and the notification send are routed in home/urls.py, but home/views.py does not define them, so they are not modelled.
- Cells holding floats, dates or booleans are not modelled. `str()` of them is Python's float and date formatting.
- Models.Clean: the `ValidationError` of `clean` is keyed by the field `fecha_programada`; the model returns the bare message, without the field key.
- Why the storage layer raises is not modelled. A failed `update_or_create` is an opaque text keyed by row number, and it writes nothing.
- PatientTable.Table.ToggleActivo: a failure of `paciente.save()` in `paciente_toggle` is not modelled. In the code it escapes the `except Paciente.DoesNotExist` branch, the view fails and nothing is saved; the model's toggle of a known key always succeeds.
- PatientList.SearchMatches: `icontains` is modelled with ASCII case folding only. The database's Unicode case folding of accented letters is not modelled.
- The clock (`timezone.now()`) and time zones are left out. "Today" is a date argument.
- Creation and update timestamps are left out. The listing's `-fecha_creacion` order is modelled as descending primary key, assuming timestamps grow with the key. Primary keys come from a counter that starts at 1.
- `Cita.__str__`, `Area.__str__` and `Mensaje.__str__` are not modelled.
- The fields and foreign keys that none of the modelled code reads are not modelled.
- Django's `save` does not enforce `choices`, so a stored `estado` may be any string. The model types it as one of the four states.
- Models.StampRoundTrip: stated for years 1 to 9999 with a four-digit year. How `%Y` pads years below 1000 depends on the platform's C library.
- ImportIdempotence.ReimportIdempotent: the unchanged table is proved only when no write fails in either run. When the first import has no failed write, a re-import creates nothing whatever fails the second time (ReimportCreatesNothing). A row whose write failed the first time is created by the re-import.
- The model takes no position on concurrent imports or partial rollback across rows.
