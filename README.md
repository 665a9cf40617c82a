# Spaggiari agenda exporter — a Dafny model of its core

The exporter is a small desktop tool. It logs into the Spaggiari school web
portal with a headless Chrome browser and opens the agenda. It asks for the
Excel export of a date range and waits for the download. One copy of it
(brtr.py) then turns the downloaded XML Spreadsheet 2003 file into a JSON list
of records. A standalone copy of that converter is trnsfrm.py. This project
models the logic of three parts with the browser, the file system, the XML
parser and pandas as abstract inputs:

- **The spreadsheet conversion** (`SpreadsheetTransform`, trnsfrm.py and
  brtr.py:41-59):
  - the header is read from the cells that have a `Data` child;
  - the columns outside the ignore list are kept, and `data_inizio` is renamed
    to `data`;
  - each data row is padded with `None` to the header's length and projected
    onto the kept indices;
  - the errors the conversion raises are modelled as `ConvError`.

  A worksheet is given as already-parsed rows of cells. A record is a
  sequence of (column name, optional text) pairs. Both copies of the
  converter compute the same record list from the same rows, so one
  `Transform` models both. Both then open the output file and write the JSON
  text; whether that write can happen is an input (`Sink`), and
  `ConvertAndWrite` is the conversion followed by it. Only the standalone copy
  catches errors and reports them (`XmlXlsToJsonFiltered`). The brtr.py copy
  lets them reach its caller.
- **The download folder** (`DownloadResolver`, brtr.py:76-80 and 139-147):
  - the cleanup loop removes every file it can;
  - after the export, the file with the latest creation time becomes
    `data.xls`, and the first such file wins a tie, as Python's `max` does;
  - the folder is a map from file name to creation time and content;
  - the listings the operating system returns are parameters.
- **The worker run** (`AutomationSteps`, `BrwsWorker`, `BrtrWorker`;
  brws.py:57-165 and brtr.py:70-165). The run is modelled as the trace of
  events it produces: log lines, progress percentages, the `finished` and
  `error` signals, and browser operations.
  - The browser is abstract: `Outcomes` says which steps raise.
  - The ten fallible blocks of the `try` body are `Perform` calls in source
    order. An exception in flight makes the later calls skip, so the first
    failure ends the body.
  - The `except` and `finally` clauses follow.
  - The brtr.py run adds the cleanup, the rename and the conversion. Its
    download folder and the records written to output.json are outputs of
    `BrtrWorker.Run`.
  - In the brtr.py copy, the handler of a failed conversion calls the value
    its `emit` returned, which is `None` (brtr.py:154). It thereby raises
    itself: an `UnboundLocalError` when `latest` was never assigned, and a
    `TypeError` otherwise. The outer `except` catches that exception, so a
    failed conversion ends the run with the error signal and the reset to 0.
    It never reaches `finished`. The model keeps this behaviour as the cause
    `JsonHandlerRaised(latestBound)`. The second `except` at brtr.py:155-156
    can never run.
- **The input check** (`AutomationInput`, brws.py:312-321 and
  brtr.py:256-264). The username and the dates are stripped of whitespace; the
  password is taken as typed. The worker starts only when none of the four is
  empty.

Files:
- wrappers.dfy: `Option` and `Result`.
- spreadsheet_transform.dfy.
- download_resolver.dfy.
- automation_steps.dfy: the steps and the `except` clause shared by both workers, the views of a trace
  and the facts about the opening and the steps.
- brws_worker.dfy.
- brtr_worker.dfy.
- automation_input.dfy.

## Model

| member | source | states |
|---|---|---|
| SpreadsheetTransform.HeaderNames | trnsfrm.py:35-37 | `original_columns` has at most one name per header cell, and one per cell only when every cell has `Data` |
| SpreadsheetTransform.HeaderNamesConcat | trnsfrm.py:35-37 | the names of two runs of header cells side by side are the names of the first run followed by those of the second |
| SpreadsheetTransform.HeaderNamesDropCells | trnsfrm.py:34-37 | the header keeps one name per cell with a `Data` child; every cell contributes its text, when it has `Data`, between the names of the cells before it and those after it, so a cell without `Data` shifts all later names one position left; a header whose cells all have `Data` keeps each text at its own position |
| SpreadsheetTransform.Included | trnsfrm.py:40-45 | `column_indices_to_include` has at most one index per header name, each below the number of names |
| SpreadsheetTransform.FinalColumns | trnsfrm.py:41-51 | `final_columns` has at most one name per header name |
| SpreadsheetTransform.SelectionLength | trnsfrm.py:43-51 | the loop appends one output name for each kept index |
| SpreadsheetTransform.IncludedIncreasing | trnsfrm.py:43-45 | the kept indices are strictly increasing and each is below the number of header names |
| SpreadsheetTransform.IncludedExactly | trnsfrm.py:13-45 | a header position is kept exactly when its name is not in COLUMNS_TO_IGNORE |
| SpreadsheetTransform.FinalNames | trnsfrm.py:20-51 | each output name is the renamed header name at the matching kept index |
| SpreadsheetTransform.ColumnSelection | trnsfrm.py:13-51 | the whole selection: lengths agree, indices are increasing and in bounds, exactly the names outside the ignore list are kept, in header order, with `data_inizio` turned into `data` and every other name unchanged |
| SpreadsheetTransform.SelectColumns | trnsfrm.py:40-51 | the selection loop computes the specified index list and name list, and so has every property of ColumnSelection |
| SpreadsheetTransform.CellTexts | trnsfrm.py:56-57 | a row gives its texts exactly when every cell has `Data`, one text per cell and each the text of its own cell |
| SpreadsheetTransform.CellTextsOfDataRow | trnsfrm.py:56-57 | a row whose cells all have `Data` gives one text per cell, in order |
| SpreadsheetTransform.Padded | trnsfrm.py:60-61 | the padded row is as long as the header, or as the row when it is already longer; its original cells are unchanged and every appended cell is `None` |
| SpreadsheetTransform.PadRow | trnsfrm.py:60-61 | the padding loop gives Padded: original cells unchanged, `None` appended up to the header length, a long row untouched |
| SpreadsheetTransform.Project | trnsfrm.py:64 | `filtered_row_data` has one value per kept index, the padded row's cell at that index, and is only formed when every kept index is inside the padded row |
| SpreadsheetTransform.Records | trnsfrm.py:55-67 | the data rows give one record per row, each with one value per output column, or the error of a cell without `Data` |
| SpreadsheetTransform.Transform | trnsfrm.py:28-67 | a successful conversion had a parsed worksheet with a header row and gives one record per table row after the header; it never fails with an output error |
| SpreadsheetTransform.Convert | trnsfrm.py:28-67 | the conversion steps, header to record list, compute Transform, the function the lemmas below are about |
| SpreadsheetTransform.TransformRecords | trnsfrm.py:55-67 | one record per table row after the header; record i has one pair per kept column; pair j is the output name with the data row's cell at the kept index, or `None` where the row is shorter than the header; cells beyond the header's width never appear |
| SpreadsheetTransform.TransformErrors | trnsfrm.py:28-57 | each error arises exactly from its cause: a missing file, a file that is not XML, no worksheet, no header row, or a data cell without `Data`; the last one aborts the whole conversion |
| SpreadsheetTransform.ShortWorksheets | trnsfrm.py:34-55 | with no row at all the header lookup finds nothing and the conversion fails; a header alone gives an empty record list |
| SpreadsheetTransform.OneDataRow | trnsfrm.py:55-67 | a header and one data row whose cells all have `Data` give exactly one record, read at the kept indices |
| SpreadsheetTransform.DataInizioExample | trnsfrm.py:43-64 | the header `data_inizio, materia, Nota Agenda, aula` with the row `2025-11-01, Matematica, empty, Lab1` yields the single record `data: 2025-11-01` |
| SpreadsheetTransform.DataInizioColumns | trnsfrm.py:13-51 | the selection of that header keeps only index 0, named `data` |
| SpreadsheetTransform.HeaderShiftExample | trnsfrm.py:35-64 | a header cell without `Data` is dropped, so the later names move one position left and read the data cells under the dropped one |
| SpreadsheetTransform.ShiftColumns | trnsfrm.py:35-51 | the selection of the shifted header keeps positions 0 and 1 under their own names |
| SpreadsheetTransform.ConvertAndWrite | trnsfrm.py:71-78 | the output is written exactly when the conversion succeeds and the output can be written, and then holds the records; a conversion error comes first; a missing output directory and a refused write each fail with their own error |
| SpreadsheetTransform.XmlXlsToJsonFiltered | trnsfrm.py:6-85 | every error is caught: the output is written exactly when the conversion succeeds and the output can be written, and then holds its records; the "not found" message appears exactly for a missing input file, or for a missing output directory after a successful conversion; any other error is reported with its cause |
| DownloadResolver.Cleaned | brtr.py:76-80 | after the cleanup exactly the files whose removal raises remain, unchanged |
| DownloadResolver.Cleanup | brtr.py:76-80 | the loop visits every listed file; afterwards exactly the files whose removal raised remain, unchanged |
| DownloadResolver.CleanupEmpties | brtr.py:76-80 | a folder whose files can all be removed is empty after the cleanup |
| DownloadResolver.Newest | brtr.py:143 | the chosen file has a creation time at least that of every listed file, and no earlier file of the listing has the same time, as Python's `max` picks the first maximum |
| DownloadResolver.Replace | brtr.py:145 | after `os.replace` the target holds the source's entry; the source name is gone unless it is the target; every other file is unchanged |
| DownloadResolver.Resolve | brtr.py:140-147 | the rename block either leaves the folder as it was or renames the file `latest` names, which is in the folder, to `data.xls`; a logged error leaves the folder as it was |
| DownloadResolver.ListsEmpty | brtr.py:141-142 | the listing is empty exactly when the folder is |
| DownloadResolver.LatestBound | brtr.py:140-145 | `latest` is assigned exactly when the folder could be listed, is not empty, and the creation times could be read |
| DownloadResolver.RenameErrorWhen | brtr.py:140-147 | a rename error is logged exactly when one of the calls of the block raises; an empty folder is skipped without one |
| DownloadResolver.LatestIsNewest | brtr.py:143 | the renamed file is the listing's first file with the latest creation time, and no file of the folder is newer |
| DownloadResolver.RenamedToData | brtr.py:141-145 | when the block completes on a non-empty folder, `data.xls` holds the newest entry; the old name is gone, replacing any earlier `data.xls`; every other file is unchanged; no error is logged |
| DownloadResolver.UnrenamedUnchanged | brtr.py:140-147 | an empty folder, or a block that raises, leaves the folder as it was |
| DownloadResolver.SingleDownload | brtr.py:141-145 | a folder holding only the export renames it to `data.xls` |
| AutomationSteps.Index | brws.py:86-147 | each step has its own position in the fixed order of the `try` body |
| AutomationSteps.FirstFailure | brws.py:86-147 | the index of the step whose exception ends the body: every earlier step succeeds, and it raises unless it is past the last step |
| AutomationSteps.AllStepsSucceed | brws.py:86-156 | every step runs to completion exactly when no step raises |
| AutomationSteps.Perform | brws.py:86-149 | one statement block keeps the body's state: it is run only while no exception is in flight, and its failure raises the first exception |
| AutomationSteps.Login | brws.py:93-109 | the login blocks keep the body's state through the login button |
| AutomationSteps.Export | brws.py:111-149 | the blocks from the agenda link to the confirmation button keep the body's state |
| AutomationSteps.TryBody | brws.py:63-149 | the body's events are the opening, the successful steps and the failing step's part; the step that raised is the first failing one; the driver exists exactly when Chrome started |
| AutomationSteps.StepTracePercents | brws.py:86-149 | a step reports at most its own checkpoint, and only once it has succeeded |
| AutomationSteps.StepTraceAttempts | brws.py:86-147 | a step attempts its own fallible operation, once |
| AutomationSteps.StepTraceOrdinary | brws.py:35-147 | a step ends nothing; each of its waits is bounded by WAIT_TIMEOUT; each text it types is the worker's input for that field |
| AutomationSteps.StepFillsField | brws.py:130-139 | a date step that succeeds clears its field and then types the worker's date into it |
| AutomationSteps.CheckpointOrder | brws.py:90-149 | the steps report their checkpoints in the order 20, 40, 55, 70, 85, 90, after the opening 10 |
| AutomationSteps.ErrorReportFacts | brws.py:158-161 | the `except` clause, the same in both copies (brtr.py:160-162), signals the error once and reports 0, and does nothing else countable |
| AutomationSteps.OpeningFacts | brws.py:64-66 | the opening reports 10, logs, and touches nothing in the browser |
| AutomationSteps.DonePercents | brws.py:65-149 | the steps that succeeded report, after the opening 10, a prefix of the checkpoints |
| AutomationSteps.DoneAttempts | brws.py:86-147 | the steps that succeeded are attempted in order |
| AutomationSteps.PreludePercents | brws.py:63-149 | up to the first failing step, the run reports 10 and then the checkpoints of the steps before it |
| AutomationSteps.PreludeAttempts | brws.py:86-147 | a failing step stops all later ones: exactly the steps up to and including the first failing one are attempted, in order |
| AutomationSteps.PreludeOrdinary | brws.py:63-149 | up to the first failing step, nothing ends the run or closes the browser, every wait is bounded and every text typed is the worker's |
| AutomationSteps.PreludeDates | brws.py:130-139 | when a date step is reached and succeeds, its field is cleared and then given the worker's date verbatim |
| BrwsWorker.Trace | brws.py:57-165 | a run ends in exactly one terminal signal: `finished` or `error`, never both and never neither |
| BrwsWorker.Run | brws.py:57-165 | the run emits the opening and the steps, then the pause, 100 and `finished` or the error and 0, and closes the browser when the driver exists; it is the trace the lemmas below are about |
| BrwsWorker.ClosingFacts | brws.py:152-156 | after the last step the run reports 100 and finishes once |
| BrwsWorker.TeardownFacts | brws.py:162-165 | the `finally` clause quits the browser once when the driver exists, and otherwise does nothing |
| BrwsWorker.DriverCreated | brws.py:59-86 | the driver exists exactly when starting Chrome did not raise |
| BrwsWorker.SuccessPercents | brws.py:65-155 | when no step raises, the progress values are exactly 10, 20, 40, 55, 70, 85, 90, 100, in that order |
| BrwsWorker.SuccessAttempts | brws.py:86-147 | when no step raises, every step is attempted, in the fixed order |
| BrwsWorker.SuccessFinishes | brws.py:156-161 | when no step raises, `finished` is emitted once and `error` never |
| BrwsWorker.SuccessEnding | brws.py:156-165 | when no step raises, `finished` is followed only by the closing of the browser |
| BrwsWorker.FailurePercents | brws.py:65-161 | when a step raises, the checkpoints of the steps before it are reported, then 0 |
| BrwsWorker.FailureAttempts | brws.py:86-147 | when a step raises, no later step runs |
| BrwsWorker.FailureSignals | brws.py:156-161 | when a step raises, `error` is emitted once and `finished` never |
| BrwsWorker.FailureReported | brws.py:158-161 | when a step raises, the error signal names the first failing step and is followed by 0; nothing before it ends the run |
| BrwsWorker.QuitIffDriverCreated | brws.py:59-165 | `driver.quit()` runs once when the driver was created and never when its creation failed, on both paths |
| BrwsWorker.WaitsAndInputs | brws.py:35-139 | every wait is bounded by WAIT_TIMEOUT 10; every field receives the worker's input for it unchanged |
| BrwsWorker.DatesEntered | brws.py:130-139 | once a date step has succeeded, its field was cleared and then received the worker's date, with no check of the dates' order |
| BrtrWorker.Conversion | brtr.py:150-151 | the conversion block succeeds only when `data.xls` is in the folder after the rename block and output.json can be written; with no `data.xls` it fails with the missing file |
| BrtrWorker.HandleDownload | brtr.py:137-158 | after the last step: the pause, the rename block and the conversion of `data.xls` with the write of output.json; the new folder is the resolved one; the records are written exactly when the conversion and the write succeed |
| BrtrWorker.Trace | brtr.py:70-165 | a run ends in exactly one terminal signal: `finished` or `error`, never both and never neither |
| BrtrWorker.Run | brtr.py:70-165 | the cleanup, the steps, then the download handling or the error report, then the quit; the trace, the final folder and the written records are the functions the lemmas below are about |
| BrtrWorker.ConversionLogFacts | brtr.py:150-162 | the conversion block is three events: on success 100 and then the finished signal, once each; on failure the `JSON error` line, then the error signal raised by the handler itself, then 0 |
| BrtrWorker.HandlingFacts | brtr.py:137-162 | after successful steps the run attempts no step; it reports 100 and finishes when the conversion succeeds, and otherwise signals the error once and reports 0 |
| BrtrWorker.TeardownFacts | brtr.py:163-165 | the `finally` clause quits the browser once when the driver exists, and otherwise does nothing |
| BrtrWorker.RunPercents | brtr.py:83-162 | the progress values are the checkpoints of the steps that succeed, then 100 when every step and the conversion succeed, and 0 otherwise |
| BrtrWorker.SuccessPercents | brtr.py:83-158 | when no step raises and the conversion succeeds, the progress values are exactly 10, 20, 40, 55, 70, 85, 90, 100 |
| BrtrWorker.RunAttempts | brtr.py:97-133 | every step is attempted when none raises, and otherwise exactly those up to and including the first that raises |
| BrtrWorker.FinishesIffConverted | brtr.py:150-162 | `finished` is emitted once exactly when every step and the conversion succeed; otherwise `error` is emitted once |
| BrtrWorker.SuccessEnding | brtr.py:150-165 | when every step and the conversion succeed, the run ends with the conversion's log line, 100, `finished` and the quit, in that order |
| BrtrWorker.FailureReported | brtr.py:160-165 | when a step raises, the error signal names the first failing step and is followed by 0 and then only the teardown; nothing before it ends the run or closes the browser |
| BrtrWorker.ConversionErrorReported | brtr.py:150-165 | a failed conversion after successful steps ends with the `JSON error` log line, the error signal raised by the handler itself, 0 and the quit |
| BrtrWorker.RenameErrorLogged | brtr.py:139-158 | a rename error is only logged: after successful steps the run is the steps' events, the pause, the `Rename error` line, then exactly the conversion block's events, then the quit |
| BrtrWorker.QuitIffDriverCreated | brtr.py:71-165 | the browser is quit once when the driver was created, and never otherwise |
| BrtrWorker.WaitsAndInputs | brtr.py:32-129 | every wait is bounded by WAIT_TIMEOUT; every field receives the worker's input for it unchanged |
| BrtrWorker.NewestConverted | brtr.py:139-151 | when the steps succeed and the rename completes on a non-empty folder, the file converted is the newest one after the pause, and its records are written when the conversion and the write succeed |
| BrtrWorker.FreshDownloadConverted | brtr.py:76-151 | when every old file can be removed and one file is downloaded, that file ends up alone as `data.xls` and is what the conversion reads |
| BrtrWorker.StepFailureKeepsCleaned | brtr.py:76-162 | when a step raises, the folder keeps only the files that could not be removed, and nothing is written |
| BrtrWorker.EmptyFolderUnbound | brtr.py:141-154 | with the folder empty after the pause, `latest` is never assigned and the conversion finds no `data.xls` |
| AutomationInput.TrimLeft | brws.py:314 | what is left is the longest suffix of the input that does not start with whitespace; everything removed is whitespace |
| AutomationInput.TrimRight | brws.py:314 | what is left is the longest prefix of the input that does not end with whitespace; everything removed is whitespace |
| AutomationInput.Strip | brws.py:314-317 | strip never lengthens its input, and what it keeps is empty or starts and ends with a non-whitespace character |
| AutomationInput.StripSlice | brws.py:314-317 | strip keeps a contiguous part of the input, with only whitespace around it |
| AutomationInput.StripEnds | brws.py:314-317 | what strip keeps is empty or starts and ends with a non-whitespace character |
| AutomationInput.StripEmptyIff | brws.py:314-319 | strip gives the empty string exactly when the input is all whitespace |
| AutomationInput.StripIdempotent | brws.py:314-317 | stripping twice is stripping once |
| AutomationInput.StartAutomation | brws.py:312-321 | a refused start shows the warning of its copy: the brws.py text or the brtr.py text |
| AutomationInput.RefusedIff | brws.py:314-321 | the start is refused exactly when the username or a date is all whitespace, or the password is empty |
| AutomationInput.StartedWorker | brtr.py:256-264 | a started worker receives the stripped username and dates, all non-empty and already stripped, and the password exactly as typed |
| AutomationInput.BlankPasswordAccepted | brws.py:315-321 | a password of whitespace only is accepted and passed on unchanged |

## Left out

- The Qt interface is not modelled: styling, layouts, the progress bar animation, the thread wiring, `closeEvent` and `_reset_ui`. The message box is modelled only by its warning text. The log line `start_automation` writes when it starts the worker is left out too. These are presentation and threading glue.
- Selenium is abstract: which step raises is an input, and the texts of its exceptions are not modelled. A step can raise only at its fallible operation: starting Chrome, loading the page, or its wait. The clicks and the typing after a successful wait are taken to succeed.
- `time.sleep(5)` is the event `Settle(5)`; the passing of time is not modelled.
- `DOWNLOAD_DIR` is reduced to its last part, `downloads`. The working directory, `os.makedirs`, and the Chrome download preferences are not modelled. The brws.py line "Downloads will be saved to" therefore carries the relative name.
- BrtrWorker.Run: the cleanup's `os.listdir` outside the `try`, which would end the run with an exception, is not modelled. The contract takes the listing as given.
- `driver.quit()` is taken not to raise.
- The file system is a map from file name to creation time and content, and the listings are parameters. Whether output.json can be opened and written is the input `Sink`; the reason a write fails (permissions, a full disk) is not modelled. The files the browser saves arrive only in a run whose steps all succeed; `Environment.downloads` is added after the pause. output.json is not added to the folder: the written records are a separate output.
- The texts of the exception messages are not modelled. The log lines "Rename error: " and "JSON error: " carry only their prefix. The error signal carries its cause (the failing step, or the handler that raised) instead of the exception's type and message.
- The ElementTree parser and the namespace lookups are not modelled. A file is given as already parsed: not XML, no worksheet, or a worksheet with its header lookup (`.//Row`) and its table rows (`ss:Table/ss:Row`).
- The pandas DataFrame and its JSON text are not modelled: indentation, `force_ascii`, `date_format`, and its refusal of duplicate column names for `orient="records"`. The model stops at the record list the DataFrame is built from.
- The console messages of trnsfrm.py's converter are modelled by the kind of report (`Report`), not by their text.
- The example call at trnsfrm.py:90-94 is left out, as is the optional credential import of both copies.
- brws.test.py is not part of this model. It is a manual browser script that checks nothing and repeats the steps of brws.py.
- The whitespace that `strip()` removes is a written-out set (`Whitespace`, the characters Python's `str.isspace` accepts); Python's Unicode database is not consulted.
