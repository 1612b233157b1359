# Checklist to spreadsheet: a verified model

The system is a small Flask application with which a technician fills in an
equipment checklist, such as a PC checklist. The flow is:

1. An initial form stores the asset tag, owner, role and technician in the
   session.
2. An interactive page shows the numbered questions. Each question card has
   three mutually exclusive checkboxes: OK, N/A and PD.
3. Saving fills an Excel template and stamps a provenance line on it. The
   workbook is then written under a sanitised file name.

Apart from the flow, the file service offers a sweep that deletes old
workbooks from the output directory. Saving does not call it; it is a separate
operation for a caller outside the flow to invoke.

This project models the server-side core in Dafny and proves properties of the
model:

- the spreadsheet service;
- the request helpers;
- the file service;
- the checklist routes.

It also models and proves the two client-side rule sets:

- the checklist page's selection state;
- the form validation and date formatting rules.

Modules follow the program's files:

| module | file | what it holds |
|---|---|---|
| `ExcelService` | `excelservice.dfy` | the sheet grid, the `Sheet` class whose fill and stamp methods update it in place, the file name, the whole `generar_excel` pipeline |
| `Helpers` | `helpers.dfy` | the `session_required` gate, `sanitize_filename`, `get_client_ip`, `create_response_data` |
| `FileService` | `fileservice.dfy` | the retention sweep over an `OutputDir` object whose listing it deletes from in place, and `validar_plantilla` |
| `ChecklistRoutes` | `routes.dfy` | `formulario`, `mostrar_checklist` and `guardar_checklist`, over a `Session` object |
| `ChecklistPage` | `checklistpage.dfy` | the page state of `checklist.js` as a `Page` class |
| `FormValidation` | `forms.dfy` | `validateField`, `validateForm` and `formatDate` of `main.js` |
| `Text` | `text.dfy` | the string operations of Python and JavaScript the core relies on |
| `AppConfig` | `appconfig.dfy` | the catalog, the settings and `os.path.join` |
| `Python` | `python.dfy` | Python values and exceptions |
| `Wrappers` | `wrappers.dfy` | `Option` and `Result` |

How the model represents the environment and the data:

- **The environment.** The clock and the configuration are parameters:
  - `datetime.now()` is a `Date`;
  - `time.time()` is an integer;
  - the templates directory, output directory and default validator are a
    `Settings` value.
- **The checklist catalog** is a map from type to its entry.
- **Template workbooks** are a map from each existing template path to its
  active sheet.
- **The output directory** is a map from each name to whether it is a regular
  file and its modification time.
- **The network copy.** Its outcome is the parameter `copied`.

## Model

| member | source | states |
|---|---|---|
| Helpers.SessionRequired | app/utils/helpers.py:12-21 | The view runs iff all four of `activo_fijo`, `propietario`, `cargo` and `tecnico` are session keys; only presence counts, whatever the value. Otherwise the user is redirected to the form of the route's `tipo` (or "pc") with the warning. |
| Helpers.ReplaceEach | app/utils/helpers.py:37-38 | After one `replace(c, "_")` pass per character of `cs`, in order, the length is kept. Every character in `cs` has become `_`, and every other character is unchanged in place. |
| Helpers.Sanitized | app/utils/helpers.py:36-38 | The sanitised name has the same length and no reserved character. Each reserved character is `_`; every other character is unchanged. |
| Helpers.ReplaceEachReserved | app/utils/helpers.py:36-38 | The nine replacement passes, one per reserved character, together give exactly `Sanitized`. |
| Helpers.SanitizeFilename | app/utils/helpers.py:26-40 | The loop over the reserved characters returns `Sanitized(filename)`: same length, no reserved character. |
| Helpers.SanitizedIdempotent | app/utils/helpers.py:36-40 | Sanitising twice is sanitising once. |
| Helpers.SanitizedIdentity | app/utils/helpers.py:36-40 | A name with no reserved character is returned unchanged. |
| Helpers.SanitizedConcat | app/utils/helpers.py:36-38 | Sanitising distributes over concatenation. |
| Helpers.SanitizedCleanPrefix | app/utils/helpers.py:36-38 | A clean prefix survives sanitising the whole name. |
| Helpers.SanitizedCleanSuffix | app/utils/helpers.py:36-38 | A clean suffix (such as ".xlsx") survives sanitising the whole name. |
| Helpers.GetClientIp | app/utils/helpers.py:67-70 | The forwarded address is returned whenever `environ.get` of it is not None. Otherwise `REMOTE_ADDR` is returned, or a KeyError is raised when that is missing too. |
| Helpers.CreateResponseData | app/utils/helpers.py:85-90 | The result always holds `success` and `message`. It holds `data` iff the argument is not None, so falsy data is kept. No other key appears. |
| AppConfig.Join | app/services/excel_service.py:30-32 | `os.path.join` ends with its second argument. An absolute second argument replaces the first; otherwise the result starts with the directory. |
| FileService.FirstFailure | app/services/file_service.py:52-63 | Returns the index of the first listed name that is an expired regular file whose removal fails. Every earlier name is not such a failure. |
| FileService.SweepResult | app/services/file_service.py:47-63 | The sweep removes exactly the expired regular files listed before the first failing removal. It then stops with that name (the single `try` around the loop), or completes. |
| FileService.SweepRemovesExpired | app/services/file_service.py:49-59 | With every entry listed and no removal failing, the sweep completes. Afterwards the directory holds exactly the entries that are not regular files older than `now - dias*86400` (strictly older), and those entries are unchanged. |
| FileService.SweepOnlyRemovesExpired | app/services/file_service.py:52-58 | In every case nothing is added or altered. Every deleted entry was listed and was an expired regular file; newer files and non-regular entries stay. |
| FileService.RetentionExample | app/services/file_service.py:49-59 | With 7 days of retention, a file 8 days old is deleted while one 6 days old is kept. |
| FileService.OutputDir.LimpiarArchivosAntiguos | app/services/file_service.py:38-63 | The in-place loop over the listing leaves the directory and the outcome that `Sweep` defines, with cutoff `now - dias*86400`. |
| FileService.ValidarPlantilla | app/services/file_service.py:78-86 | True iff the type is in the catalog and the path of its template under the templates directory exists. |
| ExcelService.QuestionIdInt | app/services/excel_service.py:65-66 | An integer cell qualifies iff it is positive, and then as itself; 0 and negative integers are skipped. |
| ExcelService.QuestionIdStr | app/services/excel_service.py:65-66 | A text cell qualifies iff it is non-empty and all digits, and then as the value of those digits. |
| ExcelService.QuestionIdExamples | app/services/excel_service.py:65-66 | "007" stands for 7 and "0" for 0. The integers 0 and -3, "" and "12a" do not qualify. |
| ExcelService.FillFromCell | app/services/excel_service.py:62-69 | After the row loop, column 3 of every qualifying row whose number is answered holds that answer. Every other cell (other rows, other columns, rows not answered) is unchanged. |
| ExcelService.FillFromWellFormed | app/services/excel_service.py:62-69 | The row loop writes only within the sheet's rows, so the sheet keeps its shape. |
| ExcelService.Sheet.Load | app/services/excel_service.py:37-38 | The loaded active sheet holds the template's cells and `max_row`. |
| ExcelService.Sheet.LlenarRespuestas | app/services/excel_service.py:58-73 | The in-place row loop leaves `FillFrom` of the old cells, and every cell as `FillFromCell` states. It returns the last row visited, which is `max_row`. |
| ExcelService.FormatDmy | app/services/excel_service.py:78 | `%d/%m/%Y` has ten characters: two-digit day and month and a four-digit year, separated by slashes. The three fields read back as the date's day, month and year. |
| ExcelService.Technician | app/services/excel_service.py:79 | The technician is "Desconocido" only when the key is absent. A present value, None included, is rendered as it is. |
| ExcelService.ValidationTextParts | app/services/excel_service.py:82-86 | The provenance line starts with "Fecha: " and the date. It then has "Técnico: " and the technician at the position after the separator, and ends with "Revisado por: " and the validator. |
| ExcelService.Sheet.AgregarValidacion | app/services/excel_service.py:76-88 | It writes exactly one cell, column 1 of `final_line`, with the provenance line of today's date, the session's technician and the validator. |
| ExcelService.NombreArchivoFails | app/services/excel_service.py:93-97 | Generating the name fails (the AttributeError of `.replace` on None) iff the owner or the role is present as None. |
| ExcelService.NombreArchivoClean | app/services/excel_service.py:99-109 | A generated name has no reserved character and ends in ".xlsx". |
| ExcelService.NombreArchivoShape | app/services/excel_service.py:93-107 | Each part of a generated name is sanitised in place. The fixed words and single spaces stay, and only the owner's and the role's spaces become hyphens. |
| ExcelService.NombreArchivoError | app/services/excel_service.py:93-97 | The only error generating the name can raise is the AttributeError of `.replace`. |
| ExcelService.NombreArchivoPlain | app/services/excel_service.py:93-107 | Asset tag, owner and role values without spaces or reserved characters appear in the name unchanged. |
| ExcelService.NombreArchivoDefaults | app/services/excel_service.py:93-102 | With none of the three keys present, the name uses SinAF, SinPropietario and SinCargo. |
| ExcelService.SanitizedName | app/services/excel_service.py:99-107 | Sanitising the assembled name equals assembling the sanitised parts. |
| ExcelService.SanitizedXlsx | app/services/excel_service.py:101-107 | The ".xlsx" extension survives sanitisation. |
| ExcelService.HyphenatedExample | app/services/excel_service.py:94-96 | "Pepe Pérez" becomes "Pepe-Pérez". |
| ExcelService.NombreArchivoExample | app/services/excel_service.py:91-109 | Asset 35456, Acme PC, owner "Pepe Pérez" and role Developer give "Activo 35456 Checklist Acme PC Pepe-Pérez Developer.xlsx". |
| ExcelService.GenerarExcel | app/services/excel_service.py:11-55 | The method (lookup, template check, load, fill, stamp, name, output path) returns exactly what `Generated` defines. |
| ExcelService.StampedCell | app/services/excel_service.py:41-44 | In the saved sheet, column 1 of the last row holds the provenance line. Column 3 of each other answered row holds its answer, and every other cell is the template's. |
| ExcelService.GeneratedContents | app/services/excel_service.py:41-55 | A generated workbook is the stamped template. It lies in the output directory under the generated name, with today's provenance line. |
| ExcelService.GeneratedAgreesWithValidarPlantilla | app/services/excel_service.py:25-35 | `generar_excel` fails with ValueError or FileNotFoundError before anything is filled exactly when `validar_plantilla` returns False. |
| ChecklistRoutes.StoredSpec | app/routes/checklist.py:26-30 | After the POST, the session holds the four identity fields stripped ("" when missing from the form) and the checklist type. Every other key is kept and no other key appears, so the gate passes afterwards. |
| ChecklistRoutes.Formulario | app/routes/checklist.py:18-40 | An unknown type redirects to the index. A POST stores the identity and redirects to the checklist; a GET renders the form. Only a POST for a known type changes the session. |
| ChecklistRoutes.Enumerated | app/routes/checklist.py:57 | Question `i` of the list is shown as number `i + 1`, and nothing is dropped. |
| ChecklistRoutes.MostrarChecklist | app/routes/checklist.py:43-67 | The steps run in order: the session gate, the unknown-type guard, then the page. The page carries the numbered questions and the query's `mensaje` and `archivo`, each None when absent. |
| ChecklistRoutes.CollectAnswers | app/routes/checklist.py:81-83 | The answer map has keys exactly 1..N. Answer `k` is the form's `pregunta_k`, or "N/A". |
| ChecklistRoutes.AnswerOf | app/routes/checklist.py:83 | Question `k` in 1..N is answered with the form's `pregunta_k` field, or "N/A". |
| ChecklistRoutes.SessionData | app/routes/checklist.py:86-91 | The data passed on holds exactly the four identity keys, each as `session.get` returns it. |
| ChecklistRoutes.GuardarChecklist | app/routes/checklist.py:70-117 | The route answers as `Guardar` defines. A workbook is saved iff the gate passes, the type is known and generation succeeds, and it is then the generated artifact. |
| ChecklistRoutes.GuardarFailsOnlyWithoutTemplate | app/routes/checklist.py:94-117 | In the model, with the session complete and the type known, the redirect goes back to the checklist. It carries `mensaje=error` iff the template is missing. Loading the template and saving the workbook are modelled as never failing. |
| ChecklistRoutes.GuardarSaved | app/routes/checklist.py:94-111 | With the template present, the redirect carries the copy flag and the generated name. |
| ChecklistRoutes.GuardarSuccessName | app/routes/checklist.py:94-111 | On success the flag is "1" iff the copy succeeded, else "0". The file name is the generated one: clean and ending in ".xlsx". |
| ChecklistRoutes.SavedAnswers | app/routes/checklist.py:81-96 | In a saved workbook, each template row numbered with a question in 1..N holds the form's answer or "N/A" in its answer column. This includes the last row, whose first column alone receives the provenance line. |
| ChecklistPage.SetBox | static/js/checklist.js:33 | Setting one box's `checked` flag changes that box only. |
| ChecklistPage.Only | static/js/checklist.js:49-51 | Every box other than the given one is unchecked, and the given one is as it was. |
| ChecklistPage.SelectionOf | static/js/checklist.js:26-32 | A card shows no selection iff no box is checked; otherwise it shows the one checked box. |
| ChecklistPage.CycleReturns | static/js/checklist.js:25-35 | The states cycle None, OK, N/A, PD. Four card clicks return to the start, and every click changes the state. |
| ChecklistPage.Questions | static/js/checklist.js:1 | The question numbers 1..n, n of them. |
| ChecklistPage.SubsetOfQuestions | static/js/checklist.js:97 | A subset of the question numbers 1..n has at most n members. It has exactly n iff it is all of 1..n, that is, iff none is missing. |
| ChecklistPage.AllCompletedIffComplete | static/js/checklist.js:130-134 | With the completed set in sync with the cards, it has one member per question exactly when every card has a box checked. |
| ChecklistPage.Page.constructor | static/js/checklist.js:1-2 | On load no card is checked and the completed set is empty. |
| ChecklistPage.Page.UpdateProgress | static/js/checklist.js:80-97 | The submit button is disabled iff the completed count differs from the number of questions; nothing else changes. |
| ChecklistPage.Page.HandleCheckbox | static/js/checklist.js:43-75 | The card's other boxes are cleared, leaving at most one checked. The question is in the completed set iff the given box is checked, the button state is updated, and the page is back in sync. |
| ChecklistPage.Page.ClickCheckbox | static/js/checklist.js:27-31 | A checkbox click selects that box, or clears the card when it was the one selected. Other cards stay as they were, and the page stays in sync. |
| ChecklistPage.Page.CardClick | static/js/checklist.js:15-38 | A click inside a checkbox option changes nothing. Any other click moves the card one step along the cycle, leaves the other cards alone and keeps the page in sync. |
| ChecklistPage.Page.Submit | static/js/checklist.js:129-140 | Submission is prevented iff some question has no box checked, and the button is left as it was. Otherwise the button is disabled while the form is sent. |
| FormValidation.EmailPatternIffShape | static/js/main.js:156-157 | `^[^\s@]+@[^\s@]+\.[^\s@]+$` matches iff the value has no whitespace and exactly one "@" (not first). The part after the "@" must hold a "." that is neither its first nor its last character. |
| FormValidation.PatternGivesShape | static/js/main.js:156 | A match of the pattern has the e-mail shape. |
| FormValidation.ShapeGivesPattern | static/js/main.js:156 | A value of the e-mail shape matches the pattern, split at its "@" and a "." after it. |
| FormValidation.ValidateField | static/js/main.js:143-184 | The field is valid iff no rule fails: required and empty, a bad e-mail, or too short after trimming. The message is that of the last failing rule. An empty optional field is always valid, and an empty required one gets "Este campo es obligatorio". |
| FormValidation.FieldVerdict | static/js/main.js:135 | The verdict `validateForm` takes from `validateField` is the field's validity. |
| FormValidation.ValidateForm | static/js/main.js:130-141 | Every field is validated, with no short-circuit, and each verdict is recorded in order. The form is valid iff every field is. |
| FormValidation.FormatDateDefault | static/js/main.js:372-382 | The default format gives the two-digit day, the two-digit month (`getMonth() + 1`) and the year, separated by slashes. |
| FormValidation.FormatDateFirstOnly | static/js/main.js:378-381 | Only the first occurrence of a token is replaced: "DD DD" keeps its second "DD". |
| Text.ReplaceChar | app/services/excel_service.py:94-97 | `str.replace` of one character keeps the length, swaps that character everywhere and leaves the rest. |
| Text.ReplaceCharAbsent | app/services/excel_service.py:94-97 | Replacing a character the string does not contain changes nothing. |
| Text.ReplaceCharConcat | app/services/excel_service.py:94-97 | Replacing a character distributes over concatenation. |
| Text.Strip | app/routes/checklist.py:26-29 | `str.strip` returns a slice `s[i..j]` of its input with only Python whitespace before `i` and after `j`. Neither end of the result is Python whitespace. |
| Text.DropLeading | app/routes/checklist.py:26-29 | Only leading whitespace is dropped, and the result starts with a non-space. |
| Text.DropTrailing | app/routes/checklist.py:26-29 | Only trailing whitespace is dropped, and the result ends with a non-space. |
| Text.Trim | static/js/main.js:144 | `String.prototype.trim` returns a slice `s[i..j]` of its input with only JavaScript whitespace before `i` and after `j`. Neither end of the result is JavaScript whitespace. |
| Text.IntToStringIsDigits | app/services/excel_service.py:65 | `str(n).isdigit()` holds iff `n` is not negative. |
| Text.ParseNatToString | app/services/excel_service.py:65-66 | `int(str(n)) == n` for every natural `n`. |
| Text.PadStart | static/js/main.js:374-375 | `padStart` leaves a long enough string alone. Otherwise it pads on the left with the fill character up to the target length, keeping the string as the suffix. |
| Text.Pad2RoundTrip | static/js/main.js:374-375 | A day or month below 100, padded to two characters, is two digits that read back as the number. |
| Text.FindFrom | static/js/main.js:378-381 | The search finds the first occurrence at or after the start, and none when there is none. |
| Text.ReplaceFirstSplit | static/js/main.js:378-381 | `replace` with a string pattern splices the replacement in at the first occurrence. |
| Text.ReplaceFirstAfter | static/js/main.js:378-381 | With no occurrence before the given one, exactly that occurrence is replaced. |
| Text.ReplaceFirstAbsent | static/js/main.js:378-381 | A format without the token is left unchanged. |

## Left out

- `copiar_a_red`: the copy to the network share is file-system and network I/O whose only logic is "an exception gives False". Its result is the parameter `copied` of the save route.
- openpyxl, Flask and logging are replaced by the grid, explicit maps and parameters:
  - `load_workbook` and `save`;
  - `flash`, `render_template`, `redirect` and `url_for`;
  - the log calls.

  The saved workbook is the returned `Artifact`.
- Cells: float, boolean and date cells are not modelled. Their `str()` is never all digits, so the fill skips them just as it skips the modelled non-qualifying cells.
- Digits: Python's `isdigit` also accepts non-ASCII digits, but the model's digits are ASCII `0`-`9`.
- ExcelService.FormatDmy: the date is limited to years 1000-9999, where `%Y` has four digits. Earlier years are not modelled.
- `helpers.format_date` is a bare `strftime` wrapper and is not modelled. `datetime.now`, `time.time` and `new Date(date)` are not modelled either: the date and the time are parameters.
- The sweep's `os.listdir` failing (for example, the directory missing) is not modelled. The listing is a parameter. `os.remove` failing is modelled as the set `denied`.
- The sweep's error handling follows the code, not a per-file "continue on error" description: one `try` wraps the whole loop, so the first failed removal ends the sweep.
- Route order: on the two routes behind `session_required`, the session gate runs before the unknown-type guard, as the decorator order in the code implies. Only `formulario` checks the type first.
- ChecklistRoutes.GuardarFailsOnlyWithoutTemplate: loading the template and saving the workbook are modelled as never failing. In the code the same `except` also catches a template that cannot be read (a corrupt file or a directory at its path) and an output file that cannot be written. Both of those also redirect with `mensaje=error`, which the model does not show.
- `mostrar_checklist` also hands the session object to the template; that rendering is not modelled.
- The catalog module `app/models/checklist_data` is not part of this model. It is a map from type to entry.
- Generated file name: `_generar_nombre_archivo` repeats the sanitising loop of `sanitize_filename`, so both are modelled by `Helpers.Sanitized`.
- ExcelService.NombreArchivoExample: the expected name is stated as a concatenation of its parts rather than as one literal.
- The checklist page:
  - the float progress percentage, the progress bar, the badge and every CSS class change;
  - the auto-redirect and the smooth scroll.

  These are DOM effects without stateable logic.
- Checkbox wiring: the HTML templates are not part of this model. They are taken to call `handleCheckbox` with the card's question number once the browser has toggled the clicked box. Question numbers are integers in the model; in the browser `dataset.question` is a string.
- ChecklistPage.Page.HandleCheckbox: it requires every other card to be in sync with the completed set already, which the page's handlers maintain.
- Form validation:
  - the error display (`showFieldError`, the border classes);
  - the tooltips, animations, toasts, keyboard shortcuts, clipboard and script loading of `main.js`.
- FormValidation.ValidateField: the value's length is counted in Unicode scalar values, not UTF-16 code units, so characters outside the Basic Multilingual Plane count once, not twice.
- Minimum length: `minlength` is taken as an integer attribute. A malformed one that `parseInt` turns into NaN never fails the comparison, which is what an absent one (`None`) gives.
- JavaScript `replace`: its `$` patterns in a replacement string are not modelled. The replacements `formatDate` uses are digits only.
- Application start-up, configuration loading and the index routes are plumbing outside the core.
