/** What a run of `convert_folder` promises, proved about the functions that
    `PsdConverter` is shown to follow: which files are picked, where their
    images go, in which order the decoders are tried, how the loop counts,
    what it reports and when it stops early. */
module BatchProperties {
  import opened Basics
  import opened Paths
  import opened Errors
  import opened Environment
  import opened Converter

  // ---------------------------------------------------------------- candidates

  /** A path is picked exactly when some item of the walk is a regular file
      at that path with a PSD extension. */
  lemma {:induction false} CandidateMembership(walk: seq<Walked>, p: Path)
    ensures p in Candidates(walk) <==> exists i :: 0 <= i < |walk| && IsCandidate(walk[i]) && walk[i].path == p
    decreases |walk|
  {
    if walk != [] {
      CandidateMembership(walk[1..], p);
      if p in Candidates(walk[1..]) {
        var i :| 0 <= i < |walk[1..]| && IsCandidate(walk[1..][i]) && walk[1..][i].path == p;
        assert walk[i + 1] == walk[1..][i];
      }
      if exists i :: 0 <= i < |walk| && IsCandidate(walk[i]) && walk[i].path == p {
        var i :| 0 <= i < |walk| && IsCandidate(walk[i]) && walk[i].path == p;
        if i > 0 {
          assert walk[1..][i - 1] == walk[i];
        }
      }
    }
  }

  /** The picked files keep the walk's order: picking from two parts of a
      walk is picking from each part in turn. */
  lemma {:induction false} CandidatesAppend(a: seq<Walked>, b: seq<Walked>)
    ensures Candidates(a + b) == Candidates(a) + Candidates(b)
    decreases |a|
  {
    if a == [] {
      assert a + b == b;
    } else {
      var head := if IsCandidate(a[0]) then [a[0].path] else [];
      assert (a + b)[0] == a[0];
      assert (a + b)[1..] == a[1..] + b;
      assert Candidates(a) == head + Candidates(a[1..]);
      assert Candidates(a + b) == head + Candidates(a[1..] + b);
      CandidatesAppend(a[1..], b);
      assert head + (Candidates(a[1..]) + Candidates(b)) == (head + Candidates(a[1..])) + Candidates(b);
    }
  }

  /** A file name has a PSD extension exactly when it is at least five
      characters long and ends in a dot followed by `p`, `s`, `d` in either
      case; a name that is only `.psd` has no extension at all. */
  lemma PsdNameIff(p: Path)
    ensures HasPsdExtension(p) <==>
      |p| > 0 && |p[|p| - 1]| >= 5 && p[|p| - 1][|p[|p| - 1]| - 4] == '.' &&
      Lower(p[|p| - 1][|p[|p| - 1]| - 3..]) == "psd"
  {
    if |p| > 0 {
      var name := p[|p| - 1];
      if |name| >= 5 && name[|name| - 4] == '.' && Lower(name[|name| - 3..]) == "psd" {
        var tail := name[|name| - 3..];
        forall j | |name| - 4 < j < |name| ensures name[j] != '.' {
          assert LowerChar(tail[j - (|name| - 3)]) == "psd"[j - (|name| - 3)];
        }
        LastDotAfter(name, |name| - 4);
      }
      if HasPsdExtension(p) {
        var i := LastDot(name).value;
        assert |Lower(name[i + 1..])| == 3;
      }
    }
  }

  /** The extension test ignores case. */
  lemma UpperCaseExtension()
    ensures HasPsdExtension(["in", "X.PSD"]) && HasPsdExtension(["in", "x.Psd"])
  {
    PsdNameIff(["in", "X.PSD"]);
    PsdNameIff(["in", "x.Psd"]);
    assert Lower("PSD") == "psd";
    assert Lower("Psd") == "psd";
  }

  /** A name that is only an extension, or whose last extension is another,
      is not picked. */
  lemma NotPsdNames()
    ensures !HasPsdExtension(["in", ".psd"]) && !HasPsdExtension(["in", "x.psd.bak"])
  {
    PsdNameIff(["in", ".psd"]);
    PsdNameIff(["in", "x.psd.bak"]);
    assert Lower("bak") != "psd" by { assert Lower("bak")[0] == 'b'; }
  }

  // ---------------------------------------------------------------- output paths

  /** A file strictly below the input folder goes to the same relative place
      below the output folder, its extension replaced by `png`. */
  lemma OutputMirrorsInput(input: Path, output: Path, file: Path)
    requires |file| > |input| && file[..|input|] == input
    ensures OutputPathFor(input, output, file) ==
            Some(output + file[|input|..|file| - 1] + [StemOf(file[|file| - 1]) + ".png"])
  {
    var rel := file[|input|..];
    assert rel[..|rel| - 1] == file[|input|..|file| - 1];
    var joined := output + rel;
    assert joined[..|joined| - 1] == output + rel[..|rel| - 1];
    assert joined[|joined| - 1] == file[|file| - 1];
    var stem := StemOf(file[|file| - 1]);
    assert stem + "." + "png" == stem + ".png";
  }

  /** No output path exists for a file outside the input folder. */
  lemma OutputOutsideInput(input: Path, output: Path, file: Path)
    ensures OutputPathFor(input, output, file).None? <==> !(|input| <= |file| && file[..|input|] == input)
  {
  }

  /** The output file of a file strictly below the input folder keeps its
      stem, has the extension `png`, and so is never itself a candidate. */
  lemma OutputNameOf(input: Path, output: Path, file: Path)
    requires |file| > |input| && file[..|input|] == input && |file[|file| - 1]| > 0
    ensures var target := OutputPathFor(input, output, file).value;
      && FileStem(target) == FileStem(file)
      && Extension(target) == Some("png")
      && !HasPsdExtension(target)
  {
    OutputMirrorsInput(input, output, file);
    var stem := StemOf(file[|file| - 1]);
    StemAndExtension(file[|file| - 1]);
    SplitOfDotted(stem, "png");
    assert Lower("png") != "psd" by { assert Lower("png")[1] == 'n'; }
  }

  /** The mirroring on a concrete file. */
  lemma OutputExample()
    ensures OutputPathFor(["in"], ["out"], ["in", "a", "b", "x.psd"]) == Some(["out", "a", "b", "x.png"])
  {
    OutputMirrorsInput(["in"], ["out"], ["in", "a", "b", "x.psd"]);
    SplitOfDotted("x", "psd");
    assert "x.psd" == "x" + "." + "psd";
    assert ["in", "a", "b", "x.psd"][1..3] == ["a", "b"];
    assert "x" + ".png" == "x.png";
    assert ["out"] + ["a", "b"] + ["x.png"] == ["out", "a", "b", "x.png"];
  }

  /** A candidate that is the input path itself (the walk starts at a file)
      has an empty relative path; its output is the output path with its
      last component renamed. */
  lemma InputItselfRenamesOutput(input: Path, output: Path)
    ensures OutputPathFor(input, output, input) == Some(WithExtension(output, "png"))
  {
    assert input[|input|..] == [];
    assert output + [] == output;
  }

  // ---------------------------------------------------------------- one file

  /** A file that cannot be read fails with the read context whatever the
      decoders would have done: reading comes first. */
  lemma ReadFailureFirst(env: Env, env': Env, input: Path, output: Path)
    requires env.read(input).Err? && env'.read(input) == env.read(input)
    ensures ConvertPsdToPngSync(env, input, output) == ConvertPsdToPngSync(env', input, output)
    ensures ConvertPsdToPngSync(env, input, output) == Err(Context(ReadFile, Some(Library(env.read(input).error))))
  {
  }

  /** The generic decoder is consulted only when the PSD parser rejects the
      bytes: with a parsed document, changing `image::open` changes
      nothing. */
  lemma FallbackOnlyAfterParseFailure(env: Env, env': Env, input: Path, output: Path)
    requires env.read(input).Ok? && env.parsePsd(env.read(input).value).Some?
    requires env'.read == env.read && env'.parsePsd == env.parsePsd && env'.savePng == env.savePng
    ensures ConvertPsdToPngSync(env, input, output) == ConvertPsdToPngSync(env', input, output)
  {
  }

  /** When the parser rejects the bytes, the result is that of the generic
      decoder. */
  lemma FallbackOnParseFailure(env: Env, input: Path, output: Path)
    requires env.read(input).Ok? && env.parsePsd(env.read(input).value).None?
    ensures ConvertPsdToPngSync(env, input, output) == ConvertAsImageFile(env, input, output)
    ensures env.openImage(input).Err? ==> ConvertPsdToPngSync(env, input, output).error.note == OpenImage
  {
  }

  /** A parsed document whose pixel data is too short fails with the buffer
      context and nothing is saved: the fallback is not tried. */
  lemma ShortBufferFails(env: Env, input: Path, output: Path)
    requires env.read(input).Ok? && env.parsePsd(env.read(input).value).Some?
    requires !BufferFits(env.parsePsd(env.read(input).value).value)
    ensures ConvertPsdToPngSync(env, input, output) == Err(Context(CreateBuffer, None))
  {
  }

  /** What is saved from a parsed document is a well-formed image of the
      document's size, made of the start of its pixel data. */
  lemma SavedDocumentImage(env: Env, input: Path, output: Path)
    requires env.read(input).Ok? && env.parsePsd(env.read(input).value).Some?
    requires ConvertPsdToPngSync(env, input, output).Ok?
    ensures var doc := env.parsePsd(env.read(input).value).value;
      var img := ConvertPsdToPngSync(env, input, output).value;
      && WellFormed(img) && img.width == doc.width && img.height == doc.height
      && img.pixels == doc.rgba[..|img.pixels|]
  {
  }

  /** A failed file's recorded message is always one of two: the worker
      failed, or the conversion did; the cause is only in the chain below. */
  lemma FileFailureText(env: Env, input: Path, output: Path)
    requires ConvertSingleFile(env, input, output).Err?
    ensures var f := ConvertSingleFile(env, input, output).error;
      && f.Context? && f.source.Some?
      && (Text(f) == "Conversion task failed" <==> env.workerPanic(input).Some?)
      && (Text(f) == "Failed to convert PSD to PNG" <==> env.workerPanic(input).None?)
      && (env.workerPanic(input).None? ==>
            Contexts(f) == ["Failed to convert PSD to PNG"] + Contexts(ConvertPsdToPngSync(env, input, output).error))
  {
    var f := ConvertSingleFile(env, input, output).error;
    assert NoteText(TaskFailed)[0] != NoteText(ConvertFailed)[0];
  }

  // ---------------------------------------------------------------- one step

  /** A candidate ends the run exactly when its output path cannot be
      derived or its output subdirectory cannot be created; otherwise its
      conversion is attempted at its output path, and a failed conversion is
      recorded rather than ending the run. */
  lemma StepMeaning(env: Env, input: Path, output: Path, file: Path)
    ensures var step := StepFor(env, input, output, file);
      var target := OutputPathFor(input, output, file);
      && (step.Abort? <==>
            target.None? || (|target.value| > 0 && env.createDirAll(target.value[..|target.value| - 1]).Some?))
      && (step.Processed? ==>
            step.target == target.value && step.outcome == ConvertSingleFile(env, file, step.target))
  {
  }

  // ---------------------------------------------------------------- reference definitions

  /** The failure that ends the run early, if any: that of the first step
      that is an `Abort`. */
  function FirstAbort(steps: seq<Step>): Option<Failure>
  {
    if steps == [] then None
    else
      var before := FirstAbort(steps[..|steps| - 1]);
      if before.Some? then before
      else match steps[|steps| - 1]
        case Abort(f) => Some(f)
        case Processed(_, _, _) => None
  }

  /** The files whose conversion fails, each with its failure, in order. */
  function Failures(files: seq<Path>, steps: seq<Step>): seq<(Path, Failure)>
    requires |files| == |steps|
  {
    if files == [] then []
    else
      Failures(files[..|files| - 1], steps[..|steps| - 1]) +
      match steps[|steps| - 1]
      case Processed(_, _, Err(f)) => [(files[|files| - 1], f)]
      case _ => []
  }

  /** The images written, each at its output path, in order. */
  function Writes(steps: seq<Step>): seq<(Path, Raster)>
  {
    if steps == [] then []
    else
      Writes(steps[..|steps| - 1]) +
      match steps[|steps| - 1]
      case Processed(target, _, Ok(img)) => [(target, img)]
      case _ => []
  }

  /** What recording one step does to a tally that has not ended. */
  lemma RecordShape(t: Tally, i: nat, n: nat, file: Path, step: Step)
    requires i < n && t.aborted.None?
    ensures var r := Record(t, i, n, file, step);
      && r.aborted == (if step.Abort? then Some(step.failure) else None)
      && (step.Abort? ==> r.events == t.events)
      && (step.Processed? ==> r.events == t.events + [Event(Fraction(i + 1, n),
            if step.outcome.Ok? then Converted(t.converted + 1, n) else FileError(file, step.outcome.error))])
      && r.errors == t.errors + (if step.Processed? && step.outcome.Err? then [(file, step.outcome.error)] else [])
      && r.written == t.written + (if step.Processed? && step.outcome.Ok? then [(step.target, step.outcome.value)] else [])
      && r.converted == t.converted + (if step.Processed? && step.outcome.Ok? then 1 else 0)
  {
  }

  /** The run ends early exactly when, and with the failure with which, the
      reference definition says. */
  lemma {:induction false} ProgressAbort(files: seq<Path>, steps: seq<Step>, k: nat, start: Tally)
    requires k <= |files| == |steps| && start.aborted.None?
    ensures Progress(files, steps, k, start).aborted == FirstAbort(steps[..k])
    decreases k
  {
    if k == 0 {
      assert steps[..0] == [];
    } else {
      ProgressAbort(files, steps, k - 1, start);
      var t0 := Progress(files, steps, k - 1, start);
      assert steps[..k][..k - 1] == steps[..k - 1];
      if t0.aborted.Some? {
        RecordAborted(t0, k - 1, |files|, files[k - 1], steps[k - 1]);
      } else {
        RecordShape(t0, k - 1, |files|, files[k - 1], steps[k - 1]);
      }
    }
  }

  /** Until the run ends, every candidate is converted or recorded as
      failed, and the failures and writes are those of the reference
      definitions. */
  lemma {:induction false} ProgressCounts(files: seq<Path>, steps: seq<Step>, k: nat, output: Path)
    requires k <= |files| == |steps|
    requires Progress(files, steps, k, StartTally(|files|)).aborted.None?
    ensures var t := Progress(files, steps, k, StartTally(|files|));
      && t.errors == Failures(files[..k], steps[..k])
      && t.written == Writes(steps[..k])
      && t.converted == |t.written|
      && t.converted + |t.errors| == k
    decreases k
  {
    var start := StartTally(|files|);
    if k == 0 {
      assert files[..0] == [] && steps[..0] == [];
    } else {
      var t0 := Progress(files, steps, k - 1, start);
      assert t0.aborted.None?;
      ProgressCounts(files, steps, k - 1, output);
      assert files[..k][..k - 1] == files[..k - 1];
      assert steps[..k][..k - 1] == steps[..k - 1];
      RecordShape(t0, k - 1, |files|, files[k - 1], steps[k - 1]);
    }
  }

  /** The events after `k` candidates: scanning and found, then one per
      candidate recorded, at its position over the total; one per candidate
      exactly while the run has not ended. */
  lemma {:induction false} ProgressEvents(files: seq<Path>, steps: seq<Step>, k: nat, output: Path)
    requires k <= |files| == |steps|
    ensures var t := Progress(files, steps, k, StartTally(|files|));
      && 2 <= |t.events| <= k + 2
      && t.events[0] == Event(Zero, Scanning) && t.events[1] == Event(Zero, Found(|files|))
      && (forall i :: 2 <= i < |t.events| ==> t.events[i].progress == Fraction(i - 1, |files|))
      && (t.aborted.None? <==> |t.events| == k + 2)
    decreases k
  {
    if k > 0 {
      ProgressEvents(files, steps, k - 1, output);
      var t0 := Progress(files, steps, k - 1, StartTally(|files|));
      if t0.aborted.Some? {
        RecordAborted(t0, k - 1, |files|, files[k - 1], steps[k - 1]);
      } else {
        RecordShape(t0, k - 1, |files|, files[k - 1], steps[k - 1]);
      }
    }
  }

  /** Every file written so far lies in a folder created so far. */
  predicate ParentsCreated(written: seq<(Path, Raster)>, created: set<Path>)
  {
    forall i :: 0 <= i < |written| && |written[i].0| > 0 ==> written[i].0[..|written[i].0| - 1] in created
  }

  /** A step that writes a file creates that file's folder. */
  predicate WritesInCreated(step: Step)
  {
    step.Processed? && step.outcome.Ok? && |step.target| > 0 ==>
      step.target[..|step.target| - 1] in step.created
  }

  lemma StepParentCreated(env: Env, input: Path, output: Path, file: Path)
    ensures WritesInCreated(StepFor(env, input, output, file))
  {
    var step := StepFor(env, input, output, file);
    if step.Processed? && step.outcome.Ok? && |step.target| > 0 {
      var dir := step.target[..|step.target| - 1];
      assert Parent(step.target) == Some(dir);
      assert dir in Ancestors(dir);
    }
  }

  /** Recording a step that created its file's folder keeps every written
      file's folder created. */
  lemma RecordKeepsParents(t: Tally, i: nat, n: nat, file: Path, step: Step)
    requires i < n && ParentsCreated(t.written, t.created) && WritesInCreated(step)
    ensures var r := Record(t, i, n, file, step); ParentsCreated(r.written, r.created)
  {
    if t.aborted.Some? {
      RecordAborted(t, i, n, file, step);
    } else {
      RecordEffects(t, i, n, file, step);
      var r := Record(t, i, n, file, step);
      forall k | 0 <= k < |r.written| && |r.written[k].0| > 0
        ensures r.written[k].0[..|r.written[k].0| - 1] in r.created
      {
        if k < |t.written| {
          assert r.written[k] == t.written[k];
        } else {
          assert r.written[k].0 == step.target;
        }
      }
    }
  }

  /** Steps that each create their file's folder leave every written file's
      folder created. */
  lemma {:induction false} ProgressParents(files: seq<Path>, steps: seq<Step>, k: nat, start: Tally)
    requires k <= |files| == |steps| && ParentsCreated(start.written, start.created)
    requires forall j :: 0 <= j < k ==> WritesInCreated(steps[j])
    ensures var t := Progress(files, steps, k, start); ParentsCreated(t.written, t.created)
    decreases k
  {
    if k > 0 {
      ProgressParents(files, steps, k - 1, start);
      RecordKeepsParents(Progress(files, steps, k - 1, start), k - 1, |files|, files[k - 1], steps[k - 1]);
    }
  }

  /** Every written file's folder has been created by then. */
  lemma WrittenParentsCreated(env: Env, input: Path, output: Path, files: seq<Path>, k: nat)
    requires k <= |files|
    ensures var t := Progress(files, Steps(env, input, output, files), k, StartTally(|files|));
      ParentsCreated(t.written, t.created)
  {
    var steps := Steps(env, input, output, files);
    forall j | 0 <= j < k
      ensures WritesInCreated(steps[j])
    {
      StepsAt(env, input, output, files, j);
      StepParentCreated(env, input, output, files[j]);
    }
    ProgressParents(files, steps, k, StartTally(|files|));
  }

  // ---------------------------------------------------------------- fractions

  /** A count over the total is a fraction between 0 and 1 that reaches 1
      exactly at the total, and a larger count gives a larger fraction. */
  lemma FractionOrder(a: nat, b: nat, n: nat)
    requires 0 < n && a <= b <= n
    ensures 0.0 <= Value(Fraction(a, n)) <= Value(Fraction(b, n)) <= 1.0
    ensures Value(Fraction(a, n)) == 1.0 <==> a == n
  {
    var m := n as real;
    assert Value(Fraction(a, n)) == a as real / m && Value(Fraction(b, n)) == b as real / m;
    DivideMonotone(0.0, a as real, m);
    DivideMonotone(a as real, b as real, m);
    DivideMonotone(b as real, m, m);
    DivideExact(a as real, m);
    assert m / m == 1.0;
  }

  lemma DivideMonotone(p: real, q: real, m: real)
    requires 0.0 < m && p <= q
    ensures p / m <= q / m
  {
  }

  lemma DivideExact(p: real, m: real)
    requires 0.0 < m
    ensures (p / m) * m == p
  {
  }

  // ---------------------------------------------------------------- one run

  /** An output folder that cannot be created ends the run before anything
      else: one event, nothing created, nothing written. */
  lemma OutputFolderFailure(env: Env, input: Path, output: Path)
    requires env.createDirAll(output).Some?
    ensures var r := Batch(env, input, output);
      && r.events == [Event(Zero, Scanning)] && r.created == {} && r.written == []
      && r.outcome == Err(Context(CreateOutputDir, Some(Library(env.createDirAll(output).value))))
  {
  }

  /** A folder with no PSD file in it fails with `NoPsdFilesFound`, after
      the output folder has been created, and nothing is written. */
  lemma NoCandidates(env: Env, input: Path, output: Path)
    requires env.createDirAll(output).None? && Candidates(env.walk(input)) == []
    ensures var r := Batch(env, input, output);
      && r.outcome == Err(Raised(NoPsdFilesFound))
      && Text(r.outcome.error) == "No PSD files found in the selected folder"
      && r.created == Ancestors(output) && r.written == []
      && r.events == [Event(Zero, Scanning)]
  {
  }

  /** A run succeeds exactly when the output folder can be created, some
      candidate is found and no candidate ends the run; then every candidate
      is either converted or recorded as failed, and the failures and writes
      are those of the reference definitions. Otherwise a run that got to
      the candidates fails with the first one that ended it. */
  lemma BatchOutcome(env: Env, input: Path, output: Path)
    ensures var files := Candidates(env.walk(input));
      var steps := Steps(env, input, output, files);
      var r := Batch(env, input, output);
      && (r.outcome.Ok? <==> env.createDirAll(output).None? && |files| > 0 && FirstAbort(steps).None?)
      && (r.outcome.Ok? ==>
            && r.outcome.value.total == |files|
            && r.outcome.value.errors == Failures(files, steps)
            && r.written == Writes(steps)
            && r.outcome.value.converted == |r.written|
            && r.outcome.value.converted + |r.outcome.value.errors| == |files|)
      && (env.createDirAll(output).None? && |files| > 0 && FirstAbort(steps).Some? ==>
            r.outcome == Err(FirstAbort(steps).value))
  {
    var files := Candidates(env.walk(input));
    var steps := Steps(env, input, output, files);
    if env.createDirAll(output).None? && |files| > 0 {
      ProgressAbort(files, steps, |files|, StartTally(|files|));
      assert files[..|files|] == files && steps[..|steps|] == steps;
      if FirstAbort(steps).None? {
        ProgressCounts(files, steps, |files|, output);
      }
    }
  }

  /** The events of a successful run: scanning and found at 0, one per
      candidate at its position over the total, then the summary at 1. */
  lemma SuccessEvents(env: Env, input: Path, output: Path)
    requires Batch(env, input, output).outcome.Ok?
    ensures var n := |Candidates(env.walk(input))|;
      var ev := Batch(env, input, output).events;
      var s := Batch(env, input, output).outcome.value;
      && |ev| == n + 3
      && ev[0] == Event(Zero, Scanning) && ev[1] == Event(Zero, Found(n))
      && (forall i :: 2 <= i < n + 2 ==> ev[i].progress == Fraction(i - 1, n))
      && ev[n + 2] == Event(One, SummaryMessage(s.converted, |s.errors|))
  {
    var files := Candidates(env.walk(input));
    ProgressEvents(files, Steps(env, input, output, files), |files|, output);
  }

  /** In a successful run the fractions never decrease, and exactly the
      last two events (the last candidate's and the summary) report 1. */
  lemma SuccessFractions(env: Env, input: Path, output: Path)
    requires Batch(env, input, output).outcome.Ok?
    ensures var n := |Candidates(env.walk(input))|;
      var ev := Batch(env, input, output).events;
      && (forall i, j :: 0 <= i <= j < |ev| ==> Value(ev[i].progress) <= Value(ev[j].progress))
      && (forall i :: 0 <= i < |ev| ==> (Value(ev[i].progress) == 1.0 <==> i >= n + 1))
  {
    var n := |Candidates(env.walk(input))|;
    var ev := Batch(env, input, output).events;
    SuccessEvents(env, input, output);
    FractionValues(ev, n, n + 2);
  }

  /** The values of a sequence of events that starts with two at 0, has
      one at `i - 1` over `n` at each position `i` from 2 to `m`, and
      possibly ends with one at 1. */
  lemma FractionValues(ev: seq<Event>, n: nat, m: nat)
    requires 0 < n && 2 <= m <= n + 2 && m <= |ev| <= m + 1
    requires ev[0].progress == Zero && ev[1].progress == Zero
    requires forall i :: 2 <= i < m ==> ev[i].progress == Fraction(i - 1, n)
    requires |ev| == m + 1 ==> ev[m].progress == One
    ensures forall i :: 0 <= i < |ev| ==> 0.0 <= Value(ev[i].progress) <= 1.0
    ensures forall i :: 0 <= i < |ev| ==> (Value(ev[i].progress) == 1.0 <==> (i == m || (i == m - 1 && m == n + 2)))
    ensures forall i, j :: 0 <= i <= j < |ev| ==> Value(ev[i].progress) <= Value(ev[j].progress)
  {
    forall i | 0 <= i < |ev|
      ensures 0.0 <= Value(ev[i].progress) <= 1.0
      ensures Value(ev[i].progress) == 1.0 <==> (i == m || (i == m - 1 && m == n + 2))
    {
      if 2 <= i < m {
        FractionOrder(i - 1, i - 1, n);
      }
    }
    forall i, j | 0 <= i <= j < |ev| ensures Value(ev[i].progress) <= Value(ev[j].progress) {
      if 2 <= i && j < m {
        FractionOrder(i - 1, j - 1, n);
      } else if 2 <= i < m {
        FractionOrder(i - 1, i - 1, n);
      } else if 2 <= j < m {
        FractionOrder(j - 1, j - 1, n);
      }
    }
  }

  /** A run that ends early never reports a fraction of 1: the candidate
      that ended it and those after it produce no event. */
  lemma AbortEvents(env: Env, input: Path, output: Path)
    requires env.createDirAll(output).None? && |Candidates(env.walk(input))| > 0
    requires FirstAbort(Steps(env, input, output, Candidates(env.walk(input)))).Some?
    ensures var ev := Batch(env, input, output).events;
      && (forall i :: 0 <= i < |ev| ==> Value(ev[i].progress) < 1.0)
      && (forall i, j :: 0 <= i <= j < |ev| ==> Value(ev[i].progress) <= Value(ev[j].progress))
  {
    var files := Candidates(env.walk(input));
    var steps := Steps(env, input, output, files);
    var n := |files|;
    ProgressAbort(files, steps, n, StartTally(n));
    ProgressEvents(files, steps, n, output);
    assert steps[..n] == steps;
    var ev := Batch(env, input, output).events;
    FractionValues(ev, n, |ev|);
  }

  /** The closing message says "Successfully" exactly when no file failed. */
  lemma SummaryIff(converted: nat, errorCount: nat)
    ensures (MessageText(SummaryMessage(converted, errorCount)) ==
             "Successfully converted " + NatToString(converted) + " files!") <==> errorCount == 0
    ensures errorCount > 0 ==>
      MessageText(SummaryMessage(converted, errorCount)) ==
        "Converted " + NatToString(converted) + " files, " + NatToString(errorCount) + " errors occurred"
  {
    if errorCount > 0 {
      assert MessageText(SummaryMessage(converted, errorCount))[0] == 'C';
    }
  }

  /** Every file a run writes lies in a folder the run created. */
  lemma BatchParentsCreated(env: Env, input: Path, output: Path)
    ensures ParentsCreated(Batch(env, input, output).written, Batch(env, input, output).created)
  {
    var files := Candidates(env.walk(input));
    if env.createDirAll(output).None? && |files| > 0 {
      WrittenParentsCreated(env, input, output, files, |files|);
    }
  }

  /** Running the same conversion twice leaves the disk as one run does. */
  lemma RunTwice(env: Env, input: Path, output: Path, dirs: set<Path>, files: map<Path, Raster>)
    ensures var r := Batch(env, input, output);
      && (dirs + r.created) + r.created == dirs + r.created
      && ApplyWrites(ApplyWrites(files, r.written), r.written) == ApplyWrites(files, r.written)
  {
    ApplyWritesIdempotent(files, Batch(env, input, output).written);
  }
}
