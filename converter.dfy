/** The batch converter (`PsdConverter`, src/converter.rs): find the PSD files
    under an input folder, convert each one to PNG under the output folder at
    the same relative path, and report progress through a callback.

    The pure part (which files are candidates, where each one goes, how one
    file is decoded, and what a whole run does) is given by functions; the
    class `PsdConverter` runs the loop and is proved to do what `Batch`
    says. */
module Converter {
  import opened Basics
  import opened Paths
  import opened Errors
  import opened Environment

  /** One call of the progress callback: a fraction and a message (the
      callback receives the message as `MessageText(message)`). */
  datatype Event = Event(progress: Fraction, message: Message)

  /** A progress fraction as a count over a total: the loop reports
      `(index + 1) as f32 / total_files as f32`, the fixed values 0 and 1
      are 0/1 and 1/1; `Value` is the number the callback receives. */
  datatype Fraction = Fraction(count: nat, total: nat)

  const Zero := Fraction(0, 1)
  const One := Fraction(1, 1)

  function Value(f: Fraction): real
  {
    if f.total == 0 then 0.0 else f.count as real / f.total as real
  }

  // ---------------------------------------------------------------- candidates

  /** A path whose extension, lower-cased, is exactly `psd`. */
  predicate HasPsdExtension(p: Path)
  {
    match Extension(p)
    case None => false
    case Some(e) => Lower(e) == "psd"
  }

  /** An item of the walk that `find_psd_files` keeps: a readable entry that
      is a regular file with a PSD extension. */
  predicate IsCandidate(w: Walked)
  {
    w.Entry? && w.kind == RegularFile && HasPsdExtension(w.path)
  }

  /** The paths `find_psd_files` collects, in walk order. */
  function Candidates(walk: seq<Walked>): seq<Path>
  {
    if walk == [] then []
    else (if IsCandidate(walk[0]) then [walk[0].path] else []) + Candidates(walk[1..])
  }

  // ---------------------------------------------------------------- output paths

  /** The output file for `file`: its path relative to `input`, placed under
      `output`, with the extension replaced by `png`; `None` when `file` does
      not lie under `input` (`strip_prefix` fails). */
  function OutputPathFor(input: Path, output: Path, file: Path): Option<Path>
  {
    match StripPrefix(file, input)
    case None => None
    case Some(rel) => Some(WithExtension(Join(output, rel), "png"))
  }

  // ---------------------------------------------------------------- one file

  /** `ImageBuffer::from_raw(width, height, rgba)` succeeds when the buffer
      holds at least `width * height` RGBA pixels. */
  predicate BufferFits(doc: PsdDocument)
  {
    doc.width * doc.height * 4 <= |doc.rgba|
  }

  /** The image an RGBA buffer of a document stands for; it is saved from the
      first `width * height * 4` bytes. */
  function PsdRaster(doc: PsdDocument): Raster
    requires BufferFits(doc)
  {
    Raster(doc.width, doc.height, doc.rgba[..doc.width * doc.height * 4])
  }

  /** `save_with_format(output, Png)` of `img`: the saved image, or the
      failure with its context. */
  function Save(env: Env, output: Path, img: Raster): Result<Raster, Failure>
  {
    match env.savePng(output, img)
    case Some(t) => Err(Context(SavePng, Some(Library(t))))
    case None => Ok(img)
  }

  /** `convert_as_image_file`: the generic decoder on the file, then save. */
  function ConvertAsImageFile(env: Env, input: Path, output: Path): Result<Raster, Failure>
  {
    match env.openImage(input)
    case Err(t) => Err(Context(OpenImage, Some(Library(t))))
    case Ok(img) => Save(env, output, img)
  }

  /** `convert_psd_to_png_sync`: read the file, parse it as a PSD document
      and save its flattened image; only when the parse fails, fall back to
      the generic decoder. The result is the image written to `output`. */
  function ConvertPsdToPngSync(env: Env, input: Path, output: Path): Result<Raster, Failure>
  {
    match env.read(input)
    case Err(t) => Err(Context(ReadFile, Some(Library(t))))
    case Ok(bytes) =>
      match env.parsePsd(bytes)
      case None => ConvertAsImageFile(env, input, output)
      case Some(doc) =>
        if !BufferFits(doc) then Err(Context(CreateBuffer, None))
        else Save(env, output, PsdRaster(doc))
  }

  /** `convert_single_file`: the conversion run on a worker and awaited; a
      panicking worker and a failed conversion each get their own context. */
  function ConvertSingleFile(env: Env, input: Path, output: Path): Result<Raster, Failure>
  {
    match env.workerPanic(input)
    case Some(t) => Err(Context(TaskFailed, Some(Library(t))))
    case None =>
      match ConvertPsdToPngSync(env, input, output)
      case Ok(img) => Ok(img)
      case Err(f) => Err(Context(ConvertFailed, Some(f)))
  }

  // ---------------------------------------------------------------- messages

  const StripPrefixText := "prefix not found"

  /** The progress messages `convert_folder` sends, by the `format!` that
      builds each; `MessageText` is the string the callback receives. */
  datatype Message =
    | Scanning
    | Found(total: nat)
    | Converted(converted: nat, total: nat)
    | FileError(file: Path, failure: Failure)
    | AllConverted(converted: nat)
    | SomeFailed(converted: nat, errorCount: nat)

  /** The file's name as shown in a message (`file_name().unwrap()`); every
      candidate has one. */
  function NameOf(p: Path): string
  {
    match FileName(p)
    case None => ""
    case Some(n) => n
  }

  function MessageText(m: Message): string
  {
    match m
    case Scanning => "Scanning for PSD files..."
    case Found(n) => "Found " + NatToString(n) + " PSD files to convert"
    case Converted(c, n) => "Converted " + NatToString(c) + "/" + NatToString(n) + " files"
    case FileError(file, f) => "Error converting " + NameOf(file) + ": " + Text(f)
    case AllConverted(c) => "Successfully converted " + NatToString(c) + " files!"
    case SomeFailed(c, e) => "Converted " + NatToString(c) + " files, " + NatToString(e) + " errors occurred"
  }

  /** The closing message of a run with `converted` successes and
      `errorCount` failures. */
  function SummaryMessage(converted: nat, errorCount: nat): Message
  {
    if errorCount == 0 then AllConverted(converted) else SomeFailed(converted, errorCount)
  }

  // ---------------------------------------------------------------- the loop

  /** What the loop body does with one candidate before recording anything:
      either a failure that ends the whole run (`?` on `strip_prefix` or on
      creating the output subdirectory), or the output path, the directories
      created for it and the outcome of converting it. */
  datatype Step =
    | Abort(failure: Failure)
    | Processed(target: Path, created: set<Path>, outcome: Result<Raster, Failure>)

  function StepFor(env: Env, input: Path, output: Path, file: Path): Step
  {
    match OutputPathFor(input, output, file)
    case None => Abort(Context(RelativePath, Some(Library(StripPrefixText))))
    case Some(target) =>
      match Parent(target)
      case None => Processed(target, {}, ConvertSingleFile(env, file, target))
      case Some(dir) =>
        match env.createDirAll(dir)
        case Some(t) => Abort(Context(CreateSubdir, Some(Library(t))))
        case None => Processed(target, Ancestors(dir), ConvertSingleFile(env, file, target))
  }

  /** The state the loop carries: the running count, the failures recorded
      so far, the progress events sent, the directories created, the files
      written, and the failure that ended the run early, if any. */
  datatype Tally = Tally(
    converted: nat,
    errors: seq<(Path, Failure)>,
    events: seq<Event>,
    created: set<Path>,
    written: seq<(Path, Raster)>,
    aborted: Option<Failure>)

  /** What the loop body records for candidate `i` of `n`, `file`, once its
      step is known; nothing happens after the run has been ended. */
  function Record(t: Tally, i: nat, n: nat, file: Path, step: Step): Tally
    requires i < n
  {
    if t.aborted.Some? then t
    else
      var fraction := Fraction(i + 1, n);
      match step
      case Abort(f) => t.(aborted := Some(f))
      case Processed(target, dirs, Ok(img)) =>
        t.(converted := t.converted + 1,
           events := t.events + [Event(fraction, Converted(t.converted + 1, n))],
           created := t.created + dirs,
           written := t.written + [(target, img)])
      case Processed(_, dirs, Err(f)) =>
        t.(errors := t.errors + [(file, f)],
           events := t.events + [Event(fraction, FileError(file, f))],
           created := t.created + dirs)
  }

  /** The step of each candidate, in order. */
  function Steps(env: Env, input: Path, output: Path, files: seq<Path>): (steps: seq<Step>)
    ensures |steps| == |files|
  {
    if files == [] then []
    else Steps(env, input, output, files[..|files| - 1]) + [StepFor(env, input, output, files[|files| - 1])]
  }

  /** The state after the loop body has recorded the steps of the first `k`
      candidates. */
  function Progress(files: seq<Path>, steps: seq<Step>, k: nat, start: Tally): Tally
    requires k <= |files| == |steps|
    decreases k
  {
    if k == 0 then start else Record(Progress(files, steps, k - 1, start), k - 1, |files|, files[k - 1], steps[k - 1])
  }

  /** What a successful run has tallied when it sends its summary: how many
      files there were, how many were converted, and the failures as
      (file, message) pairs; `convert_folder` itself returns `Ok(())`. */
  datatype Summary = Summary(total: nat, converted: nat, errors: seq<(Path, Failure)>)

  /** Everything one run of `convert_folder` does: the events sent to the
      callback, the directories created, the files written, the result. */
  datatype Run = Run(
    events: seq<Event>,
    created: set<Path>,
    written: seq<(Path, Raster)>,
    outcome: Result<Summary, Failure>)

  /** The loop's state before its first turn: the two events already sent. */
  function StartTally(total: nat): Tally
  {
    Tally(0, [], [Event(Zero, Scanning), Event(Zero, Found(total))], {}, [], None)
  }

  /** `convert_folder(input, output)`. */
  function Batch(env: Env, input: Path, output: Path): Run
  {
    match env.createDirAll(output)
    case Some(t) =>
      Run([Event(Zero, Scanning)], {}, [], Err(Context(CreateOutputDir, Some(Library(t)))))
    case None =>
      var files := Candidates(env.walk(input));
      if |files| == 0 then
        Run([Event(Zero, Scanning)], Ancestors(output), [], Err(Raised(NoPsdFilesFound)))
      else
        FoundRun(output, files, Steps(env, input, output, files))
  }

  /** The part of `convert_folder` after candidates were found, given the
      step of each: the loop over them, then `Finish`. */
  function FoundRun(output: Path, files: seq<Path>, steps: seq<Step>): Run
    requires 0 < |files| == |steps|
  {
    Finish(output, |files|, Progress(files, steps, |files|, StartTally(|files|)))
  }

  /** How a run over `total` candidates ends once the loop has left the
      tally `t`: the early failure, or the summary at progress 1. */
  function Finish(output: Path, total: nat, t: Tally): Run
  {
    match t.aborted
    case Some(f) => Run(t.events, Ancestors(output) + t.created, t.written, Err(f))
    case None =>
      Run(t.events + [Event(One, SummaryMessage(t.converted, |t.errors|))], Ancestors(output) + t.created, t.written,
          Ok(Summary(total, t.converted, t.errors)))
  }

  /** Once the run has been ended early, the remaining candidates change nothing. */
  lemma {:induction false} AbortPersists(files: seq<Path>, steps: seq<Step>, k: nat, m: nat, start: Tally)
    requires k <= m <= |files| == |steps|
    requires Progress(files, steps, k, start).aborted.Some?
    ensures Progress(files, steps, m, start) == Progress(files, steps, k, start)
    decreases m - k
  {
    if m > k {
      AbortPersists(files, steps, k, m - 1, start);
      RecordAborted(Progress(files, steps, m - 1, start), m - 1, |files|, files[m - 1], steps[m - 1]);
    }
  }

  /** A run that has been ended records nothing more. */
  lemma RecordAborted(t: Tally, i: nat, n: nat, file: Path, step: Step)
    requires i < n && t.aborted.Some?
    ensures Record(t, i, n, file, step) == t
  {
  }

  /** The step recorded for candidate `i` is the one its loop body computes. */
  lemma {:induction false} StepsAt(env: Env, input: Path, output: Path, files: seq<Path>, i: nat)
    requires i < |files|
    ensures Steps(env, input, output, files)[i] == StepFor(env, input, output, files[i])
    decreases |files|
  {
    if i < |files| - 1 {
      var init := files[..|files| - 1];
      StepsAt(env, input, output, init, i);
      assert init[i] == files[i];
    }
  }

  /** What recording a step adds to the directories and the writes. */
  lemma RecordEffects(t: Tally, i: nat, n: nat, file: Path, step: Step)
    requires i < n && t.aborted.None?
    ensures Record(t, i, n, file, step).created == t.created + (if step.Processed? then step.created else {})
    ensures Record(t, i, n, file, step).written ==
            t.written + (if step.Processed? && step.outcome.Ok? then [(step.target, step.outcome.value)] else [])
  {
  }

  lemma {:induction false} CandidatesSnoc(walk: seq<Walked>, w: Walked)
    ensures Candidates(walk + [w]) == Candidates(walk) + (if IsCandidate(w) then [w.path] else [])
    decreases |walk|
  {
    if walk == [] {
      assert [w][1..] == [];
    } else {
      assert (walk + [w])[1..] == walk[1..] + [w];
      CandidatesSnoc(walk[1..], w);
    }
  }

  // ---------------------------------------------------------------- the class

  lemma UnionAssociates(a: set<Path>, b: set<Path>, c: set<Path>)
    ensures (a + b) + c == a + (b + c)
  {
  }

  /** The events a callback receives from a sequence of notifications:
      all of them if one is installed, none otherwise. */
  function Delivered(installed: bool, events: seq<Event>): seq<Event>
  {
    if installed then events else []
  }

  class PsdConverter {
    /** Whether a progress callback is installed (`progress_callback.is_some()`). */
    var hasCallback: bool
    /** Every event the installed callback has received, in order. */
    var log: seq<Event>

    constructor ()
      ensures !hasCallback && log == []
    {
      hasCallback, log := false, [];
    }

    method SetProgressCallback()
      modifies this
      ensures hasCallback && log == old(log)
    {
      hasCallback := true;
    }

    /** `notify_progress`: the event reaches the callback if there is one. */
    method NotifyProgress(progress: Fraction, message: Message)
      modifies this`log
      ensures log == old(log) + Delivered(hasCallback, [Event(progress, message)])
    {
      if hasCallback {
        log := log + [Event(progress, message)];
      }
    }

    /** `find_psd_files`: the candidates of the walk from `root`, in order. */
    method FindPsdFiles(env: Env, root: Path) returns (psdFiles: seq<Path>)
      ensures psdFiles == Candidates(env.walk(root))
    {
      var walk := env.walk(root);
      psdFiles := [];
      for i := 0 to |walk|
        invariant psdFiles == Candidates(walk[..i])
      {
        CandidatesSnoc(walk[..i], walk[i]);
        assert walk[..i + 1] == walk[..i] + [walk[i]];
        if walk[i].Entry? && walk[i].kind == RegularFile {
          var ext := Extension(walk[i].path);
          if ext.Some? && Lower(ext.value) == "psd" {
            psdFiles := psdFiles + [walk[i].path];
          }
        }
      }
      assert walk[..|walk|] == walk;
    }

    /** The body of the loop in `convert_folder` for one candidate up to the
        point where its outcome is recorded: derive the output path, create
        its directory, convert the file. An `Abort` leaves the disk as it
        was; otherwise the directories are created and, on success, the
        output file holds the converted image. */
    method ProcessFile(env: Env, disk: Disk, input: Path, output: Path, psdFile: Path) returns (step: Step)
      modifies disk
      ensures step == StepFor(env, input, output, psdFile)
      ensures step.Abort? ==> disk.dirs == old(disk.dirs) && disk.files == old(disk.files)
      ensures step.Processed? ==> disk.dirs == old(disk.dirs) + step.created
      ensures step.Processed? ==>
        disk.files == if step.outcome.Ok? then old(disk.files)[step.target := step.outcome.value] else old(disk.files)
    {
      var relativePath := StripPrefix(psdFile, input);
      if relativePath.None? {
        return Abort(Context(RelativePath, Some(Library(StripPrefixText))));
      }

      var outputFile := WithExtension(Join(output, relativePath.value), "png");

      var created: set<Path> := {};
      var parent := Parent(outputFile);
      if parent.Some? {
        var err := disk.CreateDirAll(env, parent.value);
        if err.Some? {
          return Abort(Context(CreateSubdir, Some(Library(err.value))));
        }
        created := Ancestors(parent.value);
      }

      var outcome := ConvertSingleFile(env, psdFile, outputFile);
      if outcome.Ok? {
        disk.Write(outputFile, outcome.value);
      }
      return Processed(outputFile, created, outcome);
    }

    /** `convert_folder(input, output)`: what it sends to the callback, what
        it creates and writes, and what it returns are those of `Batch`. */
    method ConvertFolder(env: Env, disk: Disk, input: Path, output: Path) returns (r: Result<(), Failure>)
      modifies this`log, disk
      ensures r == match Batch(env, input, output).outcome
                   case Ok(_) => Ok(())
                   case Err(f) => Err(f)
      ensures log == old(log) + Delivered(hasCallback, Batch(env, input, output).events)
      ensures disk.dirs == old(disk.dirs) + Batch(env, input, output).created
      ensures disk.files == ApplyWrites(old(disk.files), Batch(env, input, output).written)
    {
      NotifyProgress(Zero, Scanning);

      var err := disk.CreateDirAll(env, output);
      if err.Some? {
        return Err(Context(CreateOutputDir, Some(Library(err.value))));
      }

      var psdFiles := FindPsdFiles(env, input);
      if |psdFiles| == 0 {
        return Err(Raised(NoPsdFilesFound));
      }
      r := ConvertFound(env, disk, input, output, psdFiles, Steps(env, input, output, psdFiles), old(log), old(disk.dirs));
    }

    /** `convert_folder` once candidates were found: the total is
        announced, the loop runs, and the summary is sent unless the loop
        was ended early; the result is `FoundRun`. */
    method ConvertFound(env: Env, disk: Disk, input: Path, output: Path, psdFiles: seq<Path>,
                        ghost steps: seq<Step>, ghost log0: seq<Event>, ghost dirs0: set<Path>)
      returns (r: Result<(), Failure>)
      requires |psdFiles| > 0 && steps == Steps(env, input, output, psdFiles)
      requires log == log0 + Delivered(hasCallback, [Event(Zero, Scanning)])
      requires disk.dirs == dirs0 + Ancestors(output)
      modifies this`log, disk
      ensures r == match FoundRun(output, psdFiles, steps).outcome
                   case Ok(_) => Ok(())
                   case Err(f) => Err(f)
      ensures log == log0 + Delivered(hasCallback, FoundRun(output, psdFiles, steps).events)
      ensures disk.dirs == dirs0 + FoundRun(output, psdFiles, steps).created
      ensures disk.files == ApplyWrites(old(disk.files), FoundRun(output, psdFiles, steps).written)
    {
      var totalFiles := |psdFiles|;
      NotifyProgress(Zero, Found(totalFiles));

      var convertedCount, errors, aborted := ConvertEach(env, disk, input, output, psdFiles, steps, log0);
      ghost var t := Progress(psdFiles, steps, totalFiles, StartTally(totalFiles));
      UnionAssociates(dirs0, Ancestors(output), t.created);
      r := Conclude(output, totalFiles, convertedCount, errors, aborted, t, log0);
    }

    /** The end of `convert_folder` once the loop has stopped with tally
        `t`: the early failure is returned as it is; otherwise the summary
        is sent and the run succeeds. The result is `Finish`. */
    method Conclude(ghost output: Path, ghost total: nat, convertedCount: nat, errors: seq<(Path, Failure)>,
                    aborted: Option<Failure>, ghost t: Tally, ghost log0: seq<Event>)
      returns (r: Result<(), Failure>)
      requires aborted == t.aborted && convertedCount == t.converted && errors == t.errors
      requires log == log0 + Delivered(hasCallback, t.events)
      modifies this`log
      ensures r == match Finish(output, total, t).outcome
                   case Ok(_) => Ok(())
                   case Err(f) => Err(f)
      ensures log == log0 + Delivered(hasCallback, Finish(output, total, t).events)
    {
      if aborted.Some? {
        return Err(aborted.value);
      }
      SendSummary(convertedCount, |errors|);
      ghost var summary := Event(One, SummaryMessage(convertedCount, |errors|));
      if hasCallback {
        assert (log0 + t.events) + [summary] == log0 + (t.events + [summary]);
      }
      return Ok(());
    }

    /** The closing notification of `convert_folder`: the summary of the
        successes and failures, at progress 1. */
    method SendSummary(convertedCount: nat, errorCount: nat)
      modifies this`log
      ensures log == old(log) + Delivered(hasCallback, [Event(One, SummaryMessage(convertedCount, errorCount))])
    {
      if errorCount == 0 {
        NotifyProgress(One, AllConverted(convertedCount));
      } else {
        NotifyProgress(One, SomeFailed(convertedCount, errorCount));
      }
    }

    /** The `for` loop of `convert_folder` over the candidates, from the
        state the run is in once they are found: afterwards the callback has
        received, the disk holds, and the loop hands back what `Progress`
        says for all of them. */
    method ConvertEach(env: Env, disk: Disk, input: Path, output: Path, psdFiles: seq<Path>, ghost steps: seq<Step>,
                       ghost log0: seq<Event>)
      returns (convertedCount: nat, errors: seq<(Path, Failure)>, aborted: Option<Failure>)
      requires |psdFiles| > 0 && steps == Steps(env, input, output, psdFiles)
      requires log == log0 + Delivered(hasCallback, StartTally(|psdFiles|).events)
      modifies this`log, disk
      ensures var t := Progress(psdFiles, steps, |psdFiles|, StartTally(|psdFiles|));
        && aborted == t.aborted
        && convertedCount == t.converted && errors == t.errors
        && log == log0 + Delivered(hasCallback, t.events)
        && disk.dirs == old(disk.dirs) + t.created
        && disk.files == ApplyWrites(old(disk.files), t.written)
    {
      var totalFiles := |psdFiles|;
      convertedCount, errors, aborted := 0, [], None;
      ghost var dirs0 := disk.dirs;
      ghost var files0 := disk.files;
      ghost var start := StartTally(totalFiles);
      assert ApplyWrites(files0, []) == files0;

      for index := 0 to totalFiles
        invariant aborted.None? && Progress(psdFiles, steps, index, start).aborted.None?
        invariant convertedCount == Progress(psdFiles, steps, index, start).converted
        invariant errors == Progress(psdFiles, steps, index, start).errors
        invariant log == log0 + Delivered(hasCallback, Progress(psdFiles, steps, index, start).events)
        invariant disk.dirs == dirs0 + Progress(psdFiles, steps, index, start).created
        invariant disk.files == ApplyWrites(files0, Progress(psdFiles, steps, index, start).written)
      {
        convertedCount, errors, aborted :=
          ConvertOne(env, disk, input, output, psdFiles, steps, index, start, log0, dirs0, files0, convertedCount, errors);
        if aborted.Some? {
          AbortPersists(psdFiles, steps, index + 1, totalFiles, start);
          return;
        }
      }
    }

    /** One turn of the loop body for candidate `index`: it takes the run
        from `Progress` at `index` to `Progress` at `index + 1`. */
    method ConvertOne(env: Env, disk: Disk, input: Path, output: Path, psdFiles: seq<Path>, ghost steps: seq<Step>, index: nat,
                      ghost start: Tally, ghost log0: seq<Event>, ghost dirs0: set<Path>, ghost files0: map<Path, Raster>,
                      convertedCount: nat, errors: seq<(Path, Failure)>)
      returns (convertedCount': nat, errors': seq<(Path, Failure)>, aborted: Option<Failure>)
      requires index < |psdFiles| && steps == Steps(env, input, output, psdFiles)
      requires var t := Progress(psdFiles, steps, index, start);
        && t.aborted.None?
        && convertedCount == t.converted && errors == t.errors
        && log == log0 + Delivered(hasCallback, t.events)
        && disk.dirs == dirs0 + t.created
        && disk.files == ApplyWrites(files0, t.written)
      modifies this`log, disk
      ensures var t := Progress(psdFiles, steps, index + 1, start);
        && aborted == t.aborted
        && convertedCount' == t.converted && errors' == t.errors
        && log == log0 + Delivered(hasCallback, t.events)
        && disk.dirs == dirs0 + t.created
        && disk.files == ApplyWrites(files0, t.written)
    {
      ghost var t := Progress(psdFiles, steps, index, start);
      var psdFile := psdFiles[index];
      var step := ProcessFile(env, disk, input, output, psdFile);
      StepsAt(env, input, output, psdFiles, index);
      RecordEffects(t, index, |psdFiles|, psdFile, step);
      if step.Processed? && step.outcome.Ok? {
        ApplyWritesSnoc(files0, t.written, step.target, step.outcome.value);
      }
      convertedCount', errors', aborted := RecordStep(step, index, |psdFiles|, psdFile, t, log0, convertedCount, errors);
    }

    /** The recording half of the loop body: count the success or record the
        failure, and tell the callback; an `Abort` is handed back instead. */
    method RecordStep(step: Step, index: nat, totalFiles: nat, psdFile: Path, ghost t: Tally, ghost log0: seq<Event>,
                      convertedCount: nat, errors: seq<(Path, Failure)>)
      returns (convertedCount': nat, errors': seq<(Path, Failure)>, aborted: Option<Failure>)
      requires index < totalFiles && t.aborted.None?
      requires convertedCount == t.converted && errors == t.errors
      requires log == log0 + Delivered(hasCallback, t.events)
      modifies this`log
      ensures var t' := Record(t, index, totalFiles, psdFile, step);
        && aborted == t'.aborted
        && convertedCount' == t'.converted && errors' == t'.errors
        && log == log0 + Delivered(hasCallback, t'.events)
    {
      var fraction := Fraction(index + 1, totalFiles);
      convertedCount', errors', aborted := convertedCount, errors, None;
      match step {
        case Abort(f) =>
          aborted := Some(f);
        case Processed(_, _, Ok(_)) =>
          convertedCount' := convertedCount + 1;
          NotifyProgress(fraction, Converted(convertedCount', totalFiles));
        case Processed(_, _, Err(e)) =>
          errors' := errors + [(psdFile, e)];
          NotifyProgress(fraction, FileError(psdFile, e));
      }
    }
  }
}
