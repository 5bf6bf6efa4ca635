# PSD to PNG converter — a Dafny model

This project models the core of a desktop tool that converts every PSD file
under a folder into a PNG file under a second folder, at the same relative
path. It covers four things:

- **The batch converter** (`PsdConverter`, src/converter.rs):
  - it finds the candidate files with a recursive walk;
  - it mirrors each file's path under the output folder;
  - it decodes each file with the PSD parser first and the generic image decoder only as a fallback;
  - it saves the PNG;
  - it counts successes and failures;
  - it reports progress through a callback.
- **The application state machine** (`PsdToPngApp`, src/main.rs). It holds the two chosen folders, the "converting" flag, the progress and the messages. It applies a frame's UI actions in order. The background thread it starts converts only the top level of the input folder, with its own flat output paths.
- **The UI decisions** (src/ui.rs):
  - how a folder card shortens a long path;
  - which conversion control is shown;
  - which actions a frame pushes, including dropped folders.
- **The error taxonomy** (`AppError`, src/error.rs) and its messages, plus the `anyhow` context chains the converter builds.

The model is split into modules:

- `Basics`: Option/Result, decimal formatting, substring search, ASCII lower-casing.
- `Errors`: `AppError`, contexts, error chains.
- `Paths`: `std::path` on component sequences.
- `Environment`: the outside world as arbitrary functions, plus the `Disk` state.
- `Converter`: the pure specification of a run, plus the `PsdConverter` class proved to follow it.
- `BatchProperties`: what a run promises.
- `Ui` and `App`.

The loops are imperative Dafny. Each loop method is proved equal to a specification function, and the properties are proved as lemmas about that function:

- `convert_folder`, `find_psd_files`;
- the drop loop;
- the action loop;
- the thread's two loops.

The outside world is a parameter: the walk, `read`, the PSD parser, `image::open`, the PNG encoder, `create_dir_all`, the worker's panics, and the user's clicks and dialog results. Progress values are exact fractions (`count / total`) in place of `f32`.

## Model

| member | source | states |
|---|---|---|
| Errors.Display | src/error.rs:3-25 | each variant's message is its fixed template followed by the wrapped text (empty for `NoPsdFilesFound`) |
| Errors.DisplayInjective | src/error.rs:3-25 | two errors with the same message are the same error |
| Errors.TemplatePrefix | src/error.rs:5-24 | every template has at least two characters, and those two name its variant |
| Errors.Contexts | src/converter.rs:100-101 | the chain of messages of a failure is non-empty and starts with its own displayed text, the outermost context |
| Basics.Contains | src/ui.rs:464 | `contains` holds exactly when the needle occurs at some position |
| Basics.Lower | src/converter.rs:161 | lower-casing keeps the length and lowers each ASCII capital |
| Basics.NatToString | src/converter.rs:45 | the decimal text of a count is non-empty, all digits, has no leading zero and reads back as the count |
| Paths.FileName | src/converter.rs:70 | a path has a file name exactly when it is not the root, and it is the last component |
| Paths.StripPrefix | src/converter.rs:48-49 | stripping succeeds exactly when the input root is a prefix; root plus remainder is the file |
| Paths.Parent | src/converter.rs:55 | only the root has no parent, and a path is its parent plus its last component |
| Paths.WithExtension | src/converter.rs:51-52 | only the last component changes, to its stem followed by the new extension |
| Paths.StemAndExtension | src/converter.rs:160 | a file name is its stem, a dot and its extension, and the extension has no dot |
| Paths.Ancestors | src/converter.rs:31-32 | what `create_dir_all` guarantees includes the path itself and the root |
| Environment.Disk.CreateDirAll | src/converter.rs:56-57 | the result is the environment's answer; on success the directory and all its ancestors are added, on failure no directory is; files are untouched |
| Environment.Disk.Write | src/converter.rs:134-135 | a successful save replaces that one path's file and nothing else |
| Environment.ApplyWritesAt | src/converter.rs:134-135 | after a sequence of saves a path holds its last write, and an unwritten path keeps what it had |
| Environment.ApplyWritesIdempotent | src/converter.rs:134-135 | writing the same files again changes nothing |
| Converter.PsdConverter.constructor | src/converter.rs:14-18 | a new converter has no callback and has sent nothing |
| Converter.PsdConverter.SetProgressCallback | src/converter.rs:20-25 | afterwards a callback is installed |
| Converter.PsdConverter.NotifyProgress | src/converter.rs:170-174 | the event reaches the log exactly when a callback is installed |
| Converter.PsdConverter.FindPsdFiles | src/converter.rs:152-168 | the result is `Candidates` of the walk, in walk order |
| Converter.PsdConverter.ProcessFile | src/converter.rs:48-60 | the step is `StepFor`; an abort changes no directory or file; otherwise the output folder chain is created and, on success, the output path holds the image |
| Converter.PsdConverter.ConvertFolder | src/converter.rs:27-90 | result, events sent, directories created and files written are exactly those of `Batch` |
| Converter.PsdConverter.ConvertFound | src/converter.rs:41-89 | once candidates are found, the events sent, folders created, files written and the result are those of `FoundRun` |
| Converter.PsdConverter.Conclude | src/converter.rs:77-89 | an early failure is returned unchanged with no summary; otherwise the summary is sent and the run succeeds, as `Finish` says |
| Converter.PsdConverter.SendSummary | src/converter.rs:77-81 | exactly one event at 1 is sent, carrying `SummaryMessage` of the counts |
| Converter.PsdConverter.ConvertEach | src/converter.rs:41-75 | after the loop the counters, the log and the disk are those of `Progress` over all candidates |
| Converter.PsdConverter.ConvertOne | src/converter.rs:47-74 | one turn of the loop takes the state from `Progress` at `index` to `Progress` at `index + 1` |
| Converter.PsdConverter.RecordStep | src/converter.rs:60-74 | the counters and the log after recording a step are those of `Record` |
| Converter.AbortPersists | src/converter.rs:48-57 | once a `?` has ended the run, the later candidates change nothing |
| BatchProperties.CandidateMembership | src/converter.rs:155-164 | a path is picked exactly when a readable walk item is a regular file at that path with a PSD extension |
| BatchProperties.CandidatesAppend | src/converter.rs:155-165 | candidates keep walk order: two parts of a walk give their candidates in order |
| BatchProperties.PsdNameIff | src/converter.rs:160-161 | a PSD extension means the name ends in a dot and three letters that lower to `psd`, with something before the dot |
| BatchProperties.UpperCaseExtension | src/converter.rs:160-161 | `X.PSD` and `x.Psd` are picked: case does not matter |
| BatchProperties.NotPsdNames | src/converter.rs:160-161 | `.psd` (a name with no extension) and `x.psd.bak` are not picked |
| BatchProperties.OutputMirrorsInput | src/converter.rs:48-52 | the output is the output root plus the relative folders unchanged plus `stem.png` |
| BatchProperties.OutputOutsideInput | src/converter.rs:48-49 | there is no output path exactly when the file is not under the input root |
| BatchProperties.OutputNameOf | src/converter.rs:51-52 | the output keeps the file's stem, has extension `png` and is not itself a candidate |
| BatchProperties.OutputExample | src/converter.rs:48-52 | `in/a/b/x.psd` goes to `out/a/b/x.png` |
| BatchProperties.InputItselfRenamesOutput | src/converter.rs:48-52 | a candidate equal to the input root maps to the output root with extension `png` |
| BatchProperties.ReadFailureFirst | src/converter.rs:108-109 | a read failure is the result whatever the decoders would do |
| BatchProperties.FallbackOnlyAfterParseFailure | src/converter.rs:111-117 | when the PSD parse succeeds, the generic decoder cannot affect the result |
| BatchProperties.FallbackOnParseFailure | src/converter.rs:111-117 | when the parse fails the result is `convert_as_image_file`'s, with its own context on a decode failure |
| BatchProperties.ShortBufferFails | src/converter.rs:125-130 | a parsed document whose pixels do not fit fails with the buffer context and no fallback |
| BatchProperties.SavedDocumentImage | src/converter.rs:119-135 | a saved document image is well formed, has the document's size and its leading RGBA bytes |
| BatchProperties.FileFailureText | src/converter.rs:92-104 | a per-file error text is "Conversion task failed" exactly when the worker panicked, else "Failed to convert PSD to PNG" wrapping the conversion's chain |
| BatchProperties.StepMeaning | src/converter.rs:48-60 | a file aborts the run exactly when it has no relative path or its folder cannot be created; otherwise its outcome is `convert_single_file` at its output path |
| BatchProperties.RecordShape | src/converter.rs:60-74 | one processed file adds one event at `(i+1)/n`, carrying the running count of converted files on success and the file and its failure otherwise, and either one converted file and one write or one error; an abort adds no event |
| BatchProperties.ProgressAbort | src/converter.rs:47-75 | the loop stops with the first abort among the steps |
| BatchProperties.ProgressCounts | src/converter.rs:41-75 | without an abort, the errors are the failed files in order, the writes are the successes in order, and successes plus errors equal the files seen |
| BatchProperties.ProgressEvents | src/converter.rs:45-74 | events are the two 0 events then one per file at `(i+1)/n`; the count falls short only after an abort |
| BatchProperties.StepParentCreated | src/converter.rs:55-60 | a file's step that writes it has created the file's folder |
| BatchProperties.ProgressParents | src/converter.rs:41-74 | when every step creates its file's folder, every file the loop has written lies in a folder it created |
| BatchProperties.WrittenParentsCreated | src/converter.rs:55-60 | every file written lies in a folder already created |
| BatchProperties.BatchParentsCreated | src/converter.rs:55-60 | every file a run writes lies in a folder the run created |
| BatchProperties.FractionOrder | src/converter.rs:63 | `(i+1)/n` lies in [0, 1], grows with `i` and is 1 only at `n` |
| BatchProperties.OutputFolderFailure | src/converter.rs:28-32 | if the output root cannot be created, only the scanning event is sent, nothing is created or written, and the error has that context |
| BatchProperties.NoCandidates | src/converter.rs:31-39 | with no candidates the run fails with `NoPsdFilesFound`, after creating the output root, and writes nothing |
| BatchProperties.BatchOutcome | src/converter.rs:27-90 | a run succeeds exactly when the output root is created, a candidate exists and nothing aborts; then totals, errors, writes and counts add up; otherwise the first abort is the error |
| BatchProperties.SuccessEvents | src/converter.rs:28-81 | a successful run sends `n + 3` events: scanning, found, one per file, then one summary at 1 |
| BatchProperties.SuccessFractions | src/converter.rs:63-81 | progress never decreases, and it is 1 exactly from the last file's event on |
| BatchProperties.AbortEvents | src/converter.rs:48-57 | an aborted run never reports 1, and its progress never decreases |
| BatchProperties.SummaryIff | src/converter.rs:77-81 | the summary says "Successfully converted N files!" exactly when no file failed, and otherwise "Converted N files, M errors occurred" |
| BatchProperties.RunTwice | src/converter.rs:31-58 | running the same conversion twice leaves the same folders and files as once; this holds because a run never reads the disk it writes, so it follows from `ApplyWritesIdempotent` and a set identity |
| Ui.ShownPathAsWritten | src/ui.rs:367-377 | a path string of at most 35 bytes is shown whole; a longer one is `...` plus its last 32 bytes, 35 bytes in all, or a panic exactly when byte `len - 32` is not a character boundary |
| Ui.ShownPathPanics | src/ui.rs:371-372 | the path `/€€€€€€€€€€€€` (37 bytes) makes the folder card panic |
| Ui.ShownPath | src/ui.rs:367-377 | the corrected card text is at most 35 bytes; a long path shows `...` and the suffix from the first character boundary at or after `len - 32` |
| Ui.ShownPathAgrees | src/ui.rs:367-377 | whenever the code as written does not panic, the corrected text equals it |
| Ui.ShownPathKeepsMost | src/ui.rs:371-372 | on a UTF-8 string the corrected cut still shows at least 32 bytes |
| Ui.NoFolderLabel | src/ui.rs:377 | without a folder the card shows "No folder selected" |
| Ui.FolderLabelFits | src/ui.rs:420-430 | a card never shows more than 35 bytes, and a short path is shown whole |
| Ui.ControlPrecedence | src/ui.rs:463-516 | converting beats a completed status, which beats ready, which beats guidance; the start button appears exactly when both folders are set, nothing runs and the status lacks "completed" |
| Ui.GuidanceNamesMissing | src/ui.rs:506-511 | the guidance names exactly the missing folders and never says "Ready to convert" |
| Ui.DroppedDirectoriesMembers | src/ui.rs:301-309 | a drop pushes `SetInputFolder(p)` exactly for dropped paths that are directories |
| Ui.DroppedDirectoriesAppend | src/ui.rs:302-308 | dropped directories are pushed in drop order |
| Ui.FrameStartsLast | src/ui.rs:78-83 | a frame asks for a start exactly when both folders are set, nothing runs, the status lacks "completed" and the button is clicked; the start request comes after any folder change |
| Ui.ActionBuffer.Push | src/ui.rs:502 | an action is appended to the frame's actions |
| Ui.AppUI.constructor | src/ui.rs:24-28 | the drag state starts cleared |
| Ui.AppUI.RenderFolderSelection | src/ui.rs:330-459 | the cards show `FolderLabel` of each folder, and the pushed actions are the folders picked, input first |
| Ui.AppUI.RenderConversionControls | src/ui.rs:461-518 | the control is `ConversionControl`, and `StartConversion` is pushed exactly when the start button is shown and clicked |
| Ui.AppUI.RenderDragDropArea | src/ui.rs:277-328 | `hovered` becomes the area's hover flag; the dropped directories are pushed in order, then the folder picked by clicking |
| Ui.AppUI.Render | src/ui.rs:30-106 | the frame pushes `FrameActions`: the folder cards' actions, then the start request |
| App.SelectionEffects | src/main.rs:112-132 | choosing a folder sets it, clears the error, sets the status and leaves the other folder, the flag and the progress alone |
| App.StartEffects | src/main.rs:134-194 | a job starts exactly when both folders are set, with those folders, and the state becomes converting at 0 with "Starting conversion..."; otherwise only the error becomes "Please select both input and output folders" |
| App.ProgressUpdateEffects | src/main.rs:197-200 | only progress and status change |
| App.CompletionEffects | src/main.rs:202-208 | the conversion stops and the message is shown; it becomes the error only on failure |
| App.LastChoiceWins | src/main.rs:79-91 | after a frame each folder is the last one chosen in it, or unchanged |
| App.DispatchAppend | src/main.rs:79-91 | applying two action lists in turn is applying their concatenation |
| App.SelectionsKeepFolders | src/main.rs:81-86 | folder actions start nothing, never clear a folder and leave no error |
| App.FrameNeverReportsMissingFolders | src/main.rs:75-91 | a UI frame never raises the missing-folders error; it starts one job exactly when it asked to start, with the folders as the frame leaves them |
| App.PicksThenStart | src/main.rs:79-91 | folder picks followed by a start request, with both folders already chosen, start one job with the folders as the picks leave them; without the request no job starts |
| App.FlatCandidatesListed | src/main.rs:152-161 | every file the thread converts is a listed name in the input folder with a PSD extension |
| App.FlatCandidatesComplete | src/main.rs:152-161 | every listed name in the input folder with a PSD extension is converted |
| App.FlatCandidateMembership | src/main.rs:152-161 | the thread converts exactly the listed names in the input folder with a PSD extension, whether or not they are files |
| App.FlatWriteMeaning | src/main.rs:168-181 | one file's conversion writes its image at its flat output path exactly when it succeeds |
| App.FlatWritesFrom | src/main.rs:168-182 | every file the thread writes comes from one of its files |
| App.FlatOutputInFolder | src/main.rs:169-171 | a flat output path is a `png` file directly in the output folder |
| App.FlatAgreesAtTopLevel | src/main.rs:169-171 | for a top-level file whose stem has no dot, the thread writes where `convert_folder` does |
| App.FlatDropsInnerExtension | src/main.rs:169-171 | for `x.v1.psd`, `convert_folder` writes `x.v1.png` but the thread writes `x.png` |
| App.PsdToPngApp.constructor | src/main.rs:100-109 | the initial state has no folders, is not converting, progress 0, status "Ready to convert PSD files to PNG", no error |
| App.PsdToPngApp.SetInputFolder | src/main.rs:112-121 | the new state is `SelectInput` of the old |
| App.PsdToPngApp.SetOutputFolder | src/main.rs:123-132 | the new state is `SelectOutput` of the old |
| App.PsdToPngApp.StartConversion | src/main.rs:134-195 | new state and job are `Start` of the old state |
| App.PsdToPngApp.UpdateProgress | src/main.rs:197-200 | the new state is `ProgressUpdate` of the old |
| App.PsdToPngApp.ConversionComplete | src/main.rs:202-208 | the new state is `Completion` of the old |
| App.PsdToPngApp.ApplyActions | src/main.rs:79-91 | state and jobs after the loop are `Dispatch` of the old state and the actions |
| App.PsdToPngApp.Update | src/main.rs:66-91 | a frame renders with the current fields and then dispatches what it pushed; the UI object is kept |
| App.ListPsdFiles | src/main.rs:152-161 | the collected files are `FlatCandidates` of the listing |
| App.UntilPanic | src/main.rs:145-182 | the thread gets through the longest prefix of its files with no panicking conversion: it stops at the first panic, or converts every file when none panics |
| App.UntilPanicExact | src/main.rs:145-182 | any panic-free prefix that ends the list or stops at a panicking file is exactly the files the thread gets through |
| App.ConvertFlatFile | src/main.rs:169-182 | one turn of the thread's loop adds the file's `FlatWrite` to the writes applied so far; no folder is created |
| App.ConvertFlat | src/main.rs:168-182 | the disk ends with the writes of the files before the first panicking conversion applied in order; no folder is created |
| App.ConvertInBackground | src/main.rs:145-191 | the disk ends with `BackgroundWrites` applied: each listed PSD file's image up to the first panic, returned errors ignored; nothing happens when the input is missing or cannot be listed |

## Left out

- Rendering: panels, theme, colours, spacing, `setup_theme` and `setup_custom_styles` in src/ui.rs and src/main.rs. These are presentation only.
- The unused `render_drag_drop_area`, `render_folder_selection`, `render_progress_bar` and `render_status_messages` are not modelled. `render` never calls them.
- `render_modern_drag_drop_area` is modelled even though `render` does not call it.
- `render_modern_progress_and_status` is not modelled; it only displays values.
- Native folder dialogs: their result is an `Option<Path>` parameter. Hover, clicks and dropped files are parameters too, and so is each dropped path's `is_dir()`.
- The `static mut` timers in `update` are not modelled. They depend on the wall clock. 3 seconds after the first converting frame they stop the conversion, clear the folders and set the completion message. The 5-second reset of the status sits inside `if self.is_converting` (src/main.rs:30, 57-62), so it never runs after a completion; it runs on a frame of the next conversion, where it replaces that conversion's status with "Ready to convert PSD files to PNG".
- The no-op `static mut` blocks in the folder setters and `main()` are not modelled either.
- Concurrency:
  - `tokio::task::spawn_blocking(...).await` is a direct call. Whether `convert_psd_to_png_sync` panics on a file is the `workerPanic` parameter. The same parameter decides where the `start_conversion` thread stops.
  - `std::thread::spawn` is modelled as the job value `start_conversion` returns; `ConvertInBackground` runs a job on its own.
  - The unused `Arc<Mutex<PsdConverter>>` field is left out.
- Image libraries: `Psd::from_bytes`, `rgba()`, `image::open` and `save_with_format` are arbitrary functions. `ImageBuffer::from_raw` succeeds exactly when the buffer holds at least `width * height * 4` bytes.
- Filesystem order: the walk and the directory listing are inputs in whatever order the system gives. Paths are sequences of normal components, so `..`, `.` and separators inside names are not modelled.
- Converter.PsdConverter.ProcessFile: a failed save is modelled as leaving the output path's file as it was. `save_with_format` (src/converter.rs:134-135, 146-147) creates and truncates the file before encoding, so an encoder error or a write failing part-way may leave an empty or partial file, replacing a PNG of an earlier run. The image library's behaviour is not part of this model.
- Converter.PsdConverter.ConvertFolder: its `disk.files` postcondition rests on the same reading of a failed save; the files a failing save may truncate are not stated.
- App.ConvertFlat: the same; a failed save in the thread is modelled as leaving the file as it was. A panic is modelled as happening before anything is saved.
- Ui.FolderLabel: uses the corrected cut `ShownPath`, so where src/ui.rs:371-372 and 424-425 panic, the model gives a label.
- Ui.AppUI.RenderFolderSelection: shows `FolderLabel`, so a card whose slice panics in the source is drawn and its pick pushed.
- Ui.AppUI.Render: through `RenderFolderSelection`, a frame that panics in the source completes in the model and pushes its actions.
- Disk.CreateDirAll: a failing `create_dir_all` is modelled as creating nothing, although the real call may have created some ancestors before it failed.
- Basics.Lower: only ASCII letters are lowered. Unicode `to_lowercase` is not modelled, but no non-ASCII character lowers to `p`, `s` or `d`, so which files are picked is unchanged.
- Progress values are exact fractions, not `f32`. `update_progress` takes a real number.
- Both the error diagnostics loop (`eprintln!`) in `convert_folder` and `main`'s logger are left out as output only.
- `PsdConverter` events carry a structured `Message`. `MessageText` gives the string the callback receives.
- Failures are kept as values, and `Text` gives the `to_string()` the converter records. The message of `strip_prefix` is a fixed placeholder.

Where the code may surprise a caller, the model follows the code:

- A zero-area document is not rejected by the converter (src/converter.rs:125-135): it goes to the PNG encoder, whose answer, an arbitrary function here, decides whether it is saved.
- A pixel buffer longer than `width * height * 4` is accepted and its leading bytes are saved.
- With no candidates, the output root has already been created (`NoCandidates`).
- A missing input folder yields an error item from the walk, which is skipped. The run then ends with `NoPsdFilesFound`; no separate "directory not found" condition exists.
- A successful run sends two events at 1: the last file's and the summary (`SuccessFractions`).
- Only `convert_single_file` failures are per-file. A failing `strip_prefix` or output subdirectory ends the whole run (`StepMeaning`, `AbortEvents`).
- The recorded error text is the outermost context only, e.g. "Failed to convert PSD to PNG" (`FileFailureText`).
- The thread that `start_conversion` spawns is a second conversion path:
  - it looks only at the input folder's top level;
  - it does not check that an entry is a file;
  - it drops a second extension (`FlatDropsInnerExtension`);
  - it ignores every returned error, but a panic in a conversion ends the thread, and the files after it are not converted (`UntilPanic`).

## Findings

| source | as written | input that shows it | evidently intended | confidence | as-written member | corrected member |
|---|---|---|---|---|---|---|
| src/ui.rs:371-372 (and 424-425) | a path string longer than 35 bytes is sliced at byte `len - 32`, which panics when that byte is inside a multi-byte character | a folder `/€€€€€€€€€€€€` (37 bytes; byte 5 is the middle of the second `€`) | show `...` and the end of the path, cut at a character boundary | high for the panic; not executed | Ui.ShownPathAsWritten, Ui.ShownPathPanics | Ui.ShownPath, Ui.ShownPathAgrees, Ui.ShownPathKeepsMost, Ui.FolderLabelFits |
