/** The application (`PsdToPngApp`, src/main.rs): the folders chosen, whether
    a conversion runs, the progress and the messages shown; the actions a
    frame collects are applied in order, and starting a conversion hands the
    two folders to a background thread that converts the PSD files found
    directly in the input folder.

    The transitions are functions on `AppState`; the class `PsdToPngApp`
    holds the same fields and each of its methods is proved to make the
    corresponding transition. */
module App {
  import opened Basics
  import opened Paths
  import opened Environment
  import opened Converter
  import opened Ui

  /** What `start_conversion` hands to its background thread. */
  datatype Job = Job(input: Path, output: Path)

  /** The fields of `PsdToPngApp` the application logic reads and writes;
      `progress` is the `f32` as a real number. */
  datatype AppState = AppState(
    inputFolder: Option<Path>,
    outputFolder: Option<Path>,
    isConverting: bool,
    progress: real,
    statusMessage: string,
    errorMessage: Option<string>)

  const ReadyText := "Ready to convert PSD files to PNG"
  const InputSelectedText := "Input folder selected"
  const OutputSelectedText := "Output folder selected"
  const StartingText := "Starting conversion..."
  const MissingFoldersText := "Please select both input and output folders"

  // ---------------------------------------------------------------- transitions

  /** `PsdToPngApp::new`. */
  function Initial(): AppState
  {
    AppState(None, None, false, 0.0, ReadyText, None)
  }

  /** `set_input_folder`. */
  function SelectInput(s: AppState, p: Path): AppState
  {
    s.(inputFolder := Some(p), errorMessage := None, statusMessage := InputSelectedText)
  }

  /** `set_output_folder`. */
  function SelectOutput(s: AppState, p: Path): AppState
  {
    s.(outputFolder := Some(p), errorMessage := None, statusMessage := OutputSelectedText)
  }

  /** The state after some actions, and the background jobs they started,
      in order. */
  datatype Outcome = Outcome(state: AppState, jobs: seq<Job>)

  /** `start_conversion`: with both folders chosen, mark the conversion as
      running and start a job; otherwise only report what is missing. */
  function Start(s: AppState): Outcome
  {
    if s.inputFolder.Some? && s.outputFolder.Some? then
      Outcome(s.(isConverting := true, progress := 0.0, statusMessage := StartingText, errorMessage := None),
              [Job(s.inputFolder.value, s.outputFolder.value)])
    else
      Outcome(s.(errorMessage := Some(MissingFoldersText)), [])
  }

  /** `update_progress`. */
  function ProgressUpdate(s: AppState, progress: real, message: string): AppState
  {
    s.(progress := progress, statusMessage := message)
  }

  /** `conversion_complete`. */
  function Completion(s: AppState, success: bool, message: string): AppState
  {
    s.(isConverting := false, statusMessage := message,
       errorMessage := if success then s.errorMessage else Some(message))
  }

  /** One action of a frame. */
  function Apply(s: AppState, a: UiAction): Outcome
  {
    match a
    case SetInputFolder(p) => Outcome(SelectInput(s, p), [])
    case SetOutputFolder(p) => Outcome(SelectOutput(s, p), [])
    case StartConversion => Start(s)
  }

  /** The actions of a frame applied in the order they were pushed. */
  function Dispatch(s: AppState, actions: seq<UiAction>): Outcome
  {
    if actions == [] then Outcome(s, [])
    else
      var before := Dispatch(s, actions[..|actions| - 1]);
      var last := Apply(before.state, actions[|actions| - 1]);
      Outcome(last.state, before.jobs + last.jobs)
  }

  lemma DispatchSnoc(s: AppState, actions: seq<UiAction>, a: UiAction)
    ensures Dispatch(s, actions + [a]) ==
      Outcome(Apply(Dispatch(s, actions).state, a).state, Dispatch(s, actions).jobs + Apply(Dispatch(s, actions).state, a).jobs)
  {
    assert (actions + [a])[..|actions|] == actions;
  }

  // ---------------------------------------------------------------- properties of one transition

  /** Choosing a folder sets it, clears the error, reports the choice and
      touches nothing else. */
  lemma SelectionEffects(s: AppState, p: Path)
    ensures var t := SelectInput(s, p);
      t.inputFolder == Some(p) && t.errorMessage.None? && t.statusMessage == InputSelectedText &&
      t.outputFolder == s.outputFolder && t.isConverting == s.isConverting && t.progress == s.progress
    ensures var t := SelectOutput(s, p);
      t.outputFolder == Some(p) && t.errorMessage.None? && t.statusMessage == OutputSelectedText &&
      t.inputFolder == s.inputFolder && t.isConverting == s.isConverting && t.progress == s.progress
  {
  }

  /** A job is started exactly when both folders are chosen, and it gets
      those folders; without them only the error message changes. */
  lemma StartEffects(s: AppState)
    ensures var r := Start(s);
      (r.jobs != [] <==> s.inputFolder.Some? && s.outputFolder.Some?) &&
      (r.jobs != [] ==> r.jobs == [Job(s.inputFolder.value, s.outputFolder.value)] &&
                        r.state.isConverting && r.state.progress == 0.0 &&
                        r.state.statusMessage == StartingText && r.state.errorMessage.None?) &&
      (r.jobs == [] ==> r.state == s.(errorMessage := Some(MissingFoldersText))) &&
      r.state.inputFolder == s.inputFolder && r.state.outputFolder == s.outputFolder
  {
  }

  /** A progress update changes the progress and the status only. */
  lemma ProgressUpdateEffects(s: AppState, progress: real, message: string)
    ensures var t := ProgressUpdate(s, progress, message);
      t.progress == progress && t.statusMessage == message &&
      t.(progress := s.progress, statusMessage := s.statusMessage) == s
  {
  }

  /** Completion stops the conversion and shows the message; the message
      becomes the error only on failure, and a success keeps the old one. */
  lemma CompletionEffects(s: AppState, success: bool, message: string)
    ensures var t := Completion(s, success, message);
      !t.isConverting && t.statusMessage == message &&
      (t.errorMessage == Some(message) <==> !success || s.errorMessage == Some(message)) &&
      (success ==> t.errorMessage == s.errorMessage) &&
      t.inputFolder == s.inputFolder && t.outputFolder == s.outputFolder && t.progress == s.progress
  {
  }

  // ---------------------------------------------------------------- properties of a frame

  /** The folder the last `SetInputFolder` of a sequence chooses. */
  function LastInputChoice(actions: seq<UiAction>): Option<Path>
  {
    if actions == [] then None
    else if actions[|actions| - 1].SetInputFolder? then Some(actions[|actions| - 1].path)
    else LastInputChoice(actions[..|actions| - 1])
  }

  /** The folder the last `SetOutputFolder` of a sequence chooses. */
  function LastOutputChoice(actions: seq<UiAction>): Option<Path>
  {
    if actions == [] then None
    else if actions[|actions| - 1].SetOutputFolder? then Some(actions[|actions| - 1].path)
    else LastOutputChoice(actions[..|actions| - 1])
  }

  /** Actions are applied in order: the last choice of each folder wins, and
      a folder nobody chose stays as it was. */
  lemma {:induction false} LastChoiceWins(s: AppState, actions: seq<UiAction>)
    ensures Dispatch(s, actions).state.inputFolder ==
      if LastInputChoice(actions).Some? then LastInputChoice(actions) else s.inputFolder
    ensures Dispatch(s, actions).state.outputFolder ==
      if LastOutputChoice(actions).Some? then LastOutputChoice(actions) else s.outputFolder
    decreases |actions|
  {
    if actions != [] {
      LastChoiceWins(s, actions[..|actions| - 1]);
    }
  }

  /** Dispatching two sequences one after the other is dispatching both. */
  lemma {:induction false} DispatchAppend(s: AppState, a1: seq<UiAction>, a2: seq<UiAction>)
    ensures var r1 := Dispatch(s, a1);
      var r2 := Dispatch(r1.state, a2);
      Dispatch(s, a1 + a2) == Outcome(r2.state, r1.jobs + r2.jobs)
    decreases |a2|
  {
    var r1 := Dispatch(s, a1);
    if a2 == [] {
      assert a1 + a2 == a1;
    } else {
      var init := a2[..|a2| - 1];
      var a := a2[|a2| - 1];
      assert a1 + a2 == (a1 + init) + [a];
      assert a2 == init + [a];
      DispatchAppend(s, a1, init);
      DispatchSnoc(s, a1 + init, a);
      DispatchSnoc(r1.state, init, a);
      var r2 := Dispatch(r1.state, init);
      var last := Apply(r2.state, a);
      assert (r1.jobs + r2.jobs) + last.jobs == r1.jobs + (r2.jobs + last.jobs);
    }
  }

  /** Choosing folders starts nothing, never clears a folder, keeps the
      conversion state and leaves no error message. */
  lemma {:induction false} SelectionsKeepFolders(s: AppState, actions: seq<UiAction>)
    requires forall i :: 0 <= i < |actions| ==> !actions[i].StartConversion?
    ensures var t := Dispatch(s, actions).state;
      Dispatch(s, actions).jobs == [] && t.isConverting == s.isConverting &&
      (s.inputFolder.Some? ==> t.inputFolder.Some?) && (s.outputFolder.Some? ==> t.outputFolder.Some?) &&
      (actions != [] ==> t.errorMessage.None?)
    decreases |actions|
  {
    if actions != [] {
      SelectionsKeepFolders(s, actions[..|actions| - 1]);
    }
  }

  /** Folder picks followed, when `start` holds, by a start request: the
      job starts exactly when requested, with the folders as the picks
      leave them, provided the folders were chosen before the picks. */
  lemma PicksThenStart(s: AppState, inputPick: Option<Path>, outputPick: Option<Path>, start: bool)
    requires start ==> s.inputFolder.Some? && s.outputFolder.Some? && !s.isConverting
    ensures var actions := PickedFolders(inputPick, outputPick) + (if start then [StartConversion] else []);
      var r := Dispatch(s, actions);
      (StartConversion in actions <==> start) &&
      (r.jobs != [] <==> start) &&
      (r.jobs != [] ==> r.state.inputFolder.Some? && r.state.outputFolder.Some? && r.state.isConverting &&
                        r.jobs == [Job(r.state.inputFolder.value, r.state.outputFolder.value)]) &&
      (actions != [] ==> r.state.errorMessage.None?)
  {
    var picked := PickedFolders(inputPick, outputPick);
    var starts: seq<UiAction> := if start then [StartConversion] else [];
    assert StartConversion !in picked;
    SelectionsKeepFolders(s, picked);
    DispatchAppend(s, picked, starts);
    var r0 := Dispatch(s, picked);
    if start {
      DispatchSnoc(r0.state, [], StartConversion);
      assert [] + [StartConversion] == starts;
      assert Dispatch(r0.state, starts) == Start(r0.state);
      StartEffects(r0.state);
      assert (picked + starts)[|picked|] == StartConversion;
    } else {
      assert picked + starts == picked;
    }
  }

  /** What a frame of the user interface asks for is always possible: a
      frame never raises the missing-folders error. It starts a job exactly
      when the start button was shown and clicked, and then with the folders
      as the frame leaves them; any action clears the error message. */
  lemma FrameNeverReportsMissingFolders(s: AppState, inputPick: Option<Path>, outputPick: Option<Path>, startClicked: bool)
    ensures var actions := FrameActions(s.inputFolder, s.outputFolder, s.isConverting, s.statusMessage,
                                        inputPick, outputPick, startClicked);
      var r := Dispatch(s, actions);
      (r.jobs != [] <==> StartConversion in actions) &&
      (r.jobs != [] ==> r.state.inputFolder.Some? && r.state.outputFolder.Some? && r.state.isConverting &&
                        r.jobs == [Job(r.state.inputFolder.value, r.state.outputFolder.value)]) &&
      (actions != [] ==> r.state.errorMessage.None?)
  {
    var start := ConversionControl(s.inputFolder, s.outputFolder, s.isConverting, s.statusMessage) == StartButton &&
                 startClicked;
    ControlPrecedence(s.inputFolder, s.outputFolder, s.isConverting, s.statusMessage);
    PicksThenStart(s, inputPick, outputPick, start);
  }

  // ---------------------------------------------------------------- the background thread

  /** The files the thread converts: the readable entries directly in the
      input folder whose extension, lower-cased, is `psd`, in listing order.
      Unlike `find_psd_files` it neither descends into folders nor checks
      that an entry is a regular file. */
  function FlatCandidates(input: Path, entries: seq<Listed>): seq<Path>
  {
    if entries == [] then []
    else
      var last := entries[|entries| - 1];
      FlatCandidates(input, entries[..|entries| - 1]) +
      (if last.Named? && HasPsdExtension(input + [last.name]) then [input + [last.name]] else [])
  }

  /** The thread's output file: the input file's stem joined to the output
      folder, then its extension set to `png`, which also cuts the stem at a
      dot of its own. */
  function FlatOutputPath(output: Path, file: Path): Path
  {
    var stem := match FileStem(file) case Some(t) => [t] case None => [];
    WithExtension(Join(output, stem), "png")
  }

  /** What converting one file leaves in the output folder: its image, if
      the conversion succeeds. */
  function FlatWrite(env: Env, output: Path, file: Path): seq<(Path, Raster)>
  {
    var target := FlatOutputPath(output, file);
    match ConvertPsdToPngSync(env, file, target)
    case Ok(img) => [(target, img)]
    case Err(_) => []
  }

  /** The writes of converting `files` in order. */
  function FlatWrites(env: Env, output: Path, files: seq<Path>): seq<(Path, Raster)>
  {
    if files == [] then []
    else FlatWrites(env, output, files[..|files| - 1]) + FlatWrite(env, output, files[|files| - 1])
  }

  /** No file of `files` makes its conversion panic. */
  predicate NoPanic(env: Env, files: seq<Path>)
  {
    forall j :: 0 <= j < |files| ==> env.workerPanic(files[j]).None?
  }

  /** The files the thread gets through: a panic while converting a file
      ends the thread, so every file from the first panicking one on is
      never converted. */
  function UntilPanic(env: Env, files: seq<Path>): (r: seq<Path>)
    ensures |r| <= |files| && r == files[..|r|]
    ensures NoPanic(env, r)
    ensures |r| < |files| ==> env.workerPanic(files[|r|]).Some?
  {
    if files == [] || env.workerPanic(files[0]).Some? then []
    else [files[0]] + UntilPanic(env, files[1..])
  }

  /** The files the thread writes, in order. Nothing happens when the input
      folder does not exist or cannot be listed. */
  function BackgroundWrites(env: Env, job: Job): seq<(Path, Raster)>
  {
    if !env.pathExists(job.input) then []
    else
      match env.readDir(job.input)
      case None => []
      case Some(entries) => FlatWrites(env, job.output, UntilPanic(env, FlatCandidates(job.input, entries)))
  }

  lemma NoPanicSnoc(env: Env, files: seq<Path>, i: nat)
    requires i < |files| && NoPanic(env, files[..i]) && env.workerPanic(files[i]).None?
    ensures NoPanic(env, files[..i + 1])
  {
    assert forall j :: 0 <= j < i ==> files[..i + 1][j] == files[..i][j];
  }

  /** The thread gets through exactly the files before the first panicking
      one: a prefix without panics that ends the list or stops at a panic
      is the one `UntilPanic` gives. */
  lemma UntilPanicExact(env: Env, files: seq<Path>, i: nat)
    requires i <= |files| && NoPanic(env, files[..i])
    requires i == |files| || env.workerPanic(files[i]).Some?
    ensures UntilPanic(env, files) == files[..i]
  {
  }

  /** Every path the thread converts is a listed name in the input folder
      with a PSD extension. */
  lemma {:induction false} FlatCandidatesListed(input: Path, entries: seq<Listed>, p: Path)
    requires p in FlatCandidates(input, entries)
    ensures exists name :: Named(name) in entries && p == input + [name] && HasPsdExtension(p)
    decreases |entries|
  {
    var init := entries[..|entries| - 1];
    var last := entries[|entries| - 1];
    assert entries == init + [last];
    var added := if last.Named? && HasPsdExtension(input + [last.name]) then [input + [last.name]] else [];
    assert FlatCandidates(input, entries) == FlatCandidates(input, init) + added;
    if p in FlatCandidates(input, init) {
      FlatCandidatesListed(input, init, p);
      var name :| Named(name) in init && p == input + [name] && HasPsdExtension(p);
      assert Named(name) in entries;
    } else {
      assert p in added;
      assert Named(last.name) == last && last in entries;
      assert p == input + [last.name];
    }
  }

  /** Every listed name in the input folder with a PSD extension is
      converted. */
  lemma {:induction false} FlatCandidatesComplete(input: Path, entries: seq<Listed>, name: string)
    requires Named(name) in entries && HasPsdExtension(input + [name])
    ensures input + [name] in FlatCandidates(input, entries)
    decreases |entries|
  {
    var init := entries[..|entries| - 1];
    var last := entries[|entries| - 1];
    assert entries == init + [last];
    var added := if last.Named? && HasPsdExtension(input + [last.name]) then [input + [last.name]] else [];
    assert FlatCandidates(input, entries) == FlatCandidates(input, init) + added;
    assert Named(name) in init + [last];
    if Named(name) in init {
      FlatCandidatesComplete(input, init, name);
    } else {
      assert Named(name) == last;
      assert input + [name] in added;
    }
  }

  /** A path is converted by the thread exactly when it is a listed name in
      the input folder with a PSD extension. */
  lemma FlatCandidateMembership(input: Path, entries: seq<Listed>, p: Path)
    ensures p in FlatCandidates(input, entries) <==>
      exists name :: Named(name) in entries && p == input + [name] && HasPsdExtension(p)
  {
    if p in FlatCandidates(input, entries) {
      FlatCandidatesListed(input, entries, p);
    }
    if exists name :: Named(name) in entries && p == input + [name] && HasPsdExtension(p) {
      var name :| Named(name) in entries && p == input + [name] && HasPsdExtension(p);
      FlatCandidatesComplete(input, entries, name);
    }
  }

  /** What one conversion writes: the image it produced, at the flat
      output path, and only when it succeeds. */
  lemma FlatWriteMeaning(env: Env, output: Path, file: Path, w: (Path, Raster))
    ensures w in FlatWrite(env, output, file) <==>
      w.0 == FlatOutputPath(output, file) && ConvertPsdToPngSync(env, file, w.0) == Ok(w.1)
  {
  }

  /** Every file the thread writes comes from converting one of its files. */
  lemma {:induction false} FlatWritesFrom(env: Env, output: Path, files: seq<Path>, i: nat)
    requires i < |FlatWrites(env, output, files)|
    ensures exists j :: 0 <= j < |files| && FlatWrites(env, output, files)[i] in FlatWrite(env, output, files[j])
    decreases |files|
  {
    var init := files[..|files| - 1];
    var before := FlatWrites(env, output, init);
    var last := FlatWrite(env, output, files[|files| - 1]);
    assert FlatWrites(env, output, files) == before + last;
    if i < |before| {
      FlatWritesFrom(env, output, init, i);
      var j :| 0 <= j < |init| && before[i] in FlatWrite(env, output, init[j]);
      assert init[j] == files[j];
    } else {
      assert FlatWrites(env, output, files)[i] == last[i - |before|];
    }
  }

  /** The flat output path of a file is a `png` file directly in the output
      folder. */
  lemma FlatOutputInFolder(output: Path, file: Path)
    requires |file| > 0 && file[|file| - 1] != ""
    ensures Parent(FlatOutputPath(output, file)) == Some(output)
    ensures Extension(FlatOutputPath(output, file)) == Some("png")
  {
    var name := file[|file| - 1];
    var stem := StemOf(name);
    var r := FlatOutputPath(output, file);
    assert r == output + [StemOf(stem) + "." + "png"];
    StemAndExtension(name);
    StemAndExtension(stem);
    assert '.' !in "png";
    SplitOfDotted(StemOf(stem), "png");
  }

  /** For a file directly in the input folder whose stem has no dot, the
      thread writes where `convert_folder` does. */
  lemma FlatAgreesAtTopLevel(input: Path, output: Path, name: string)
    requires '.' !in StemOf(name)
    ensures OutputPathFor(input, output, input + [name]) == Some(FlatOutputPath(output, input + [name]))
  {
    var file := input + [name];
    assert file[..|input|] == input && file[|input|..] == [name];
    var stem := StemOf(name);
    assert forall k :: 0 <= k < |stem| ==> stem[k] != '.';
  }

  /** The two mappings part for a name with two dots: `convert_folder`
      writes `x.v1.png`, the thread `x.png`. */
  lemma FlatDropsInnerExtension()
    ensures OutputPathFor(["in"], ["out"], ["in", "x.v1.psd"]) == Some(["out", "x.v1.png"])
    ensures FlatOutputPath(["out"], ["in", "x.v1.psd"]) == ["out", "x.png"]
  {
    assert "x.v1" + "." + "psd" == "x.v1.psd";
    assert "x" + "." + "v1" == "x.v1";
    assert "x.v1" + "." + "png" == "x.v1.png";
    assert "x" + "." + "png" == "x.png";
    SplitOfDotted("x.v1", "psd");
    SplitOfDotted("x", "v1");
    var file: Path := ["in", "x.v1.psd"];
    assert file[..1] == ["in"] && file[1..] == ["x.v1.psd"];
    assert StemOf("x.v1.psd") == "x.v1";
    assert StemOf("x.v1") == "x";
    assert StripPrefix(file, ["in"]) == Some(["x.v1.psd"]);
    assert Join(["out"], ["x.v1.psd"]) == ["out", "x.v1.psd"];
    var joined: Path := ["out", "x.v1.psd"];
    assert joined[..1] == ["out"];
    assert WithExtension(joined, "png") == ["out"] + ["x.v1.png"] == ["out", "x.v1.png"];
    assert OutputPathFor(["in"], ["out"], file) == Some(WithExtension(joined, "png"));
  }

  // ---------------------------------------------------------------- the class

  class PsdToPngApp {
    var ui: AppUI
    var inputFolder: Option<Path>
    var outputFolder: Option<Path>
    var isConverting: bool
    var progress: real
    var statusMessage: string
    var errorMessage: Option<string>

    function State(): AppState
      reads this
    {
      AppState(inputFolder, outputFolder, isConverting, progress, statusMessage, errorMessage)
    }

    /** `PsdToPngApp::new`. */
    constructor ()
      ensures State() == Initial() && fresh(ui)
    {
      ui := new AppUI();
      inputFolder, outputFolder := None, None;
      isConverting, progress := false, 0.0;
      statusMessage, errorMessage := ReadyText, None;
    }

    method SetInputFolder(path: Path)
      modifies this
      ensures State() == SelectInput(old(State()), path) && ui == old(ui)
    {
      inputFolder := Some(path);
      errorMessage := None;
      statusMessage := InputSelectedText;
    }

    method SetOutputFolder(path: Path)
      modifies this
      ensures State() == SelectOutput(old(State()), path) && ui == old(ui)
    {
      outputFolder := Some(path);
      errorMessage := None;
      statusMessage := OutputSelectedText;
    }

    /** `start_conversion`: the job returned is the background thread it
        spawns. */
    method StartConversion() returns (job: Option<Job>)
      modifies this
      ensures Start(old(State())) == Outcome(State(), if job.Some? then [job.value] else []) && ui == old(ui)
    {
      if inputFolder.Some? && outputFolder.Some? {
        isConverting := true;
        progress := 0.0;
        statusMessage := StartingText;
        errorMessage := None;
        job := Some(Job(inputFolder.value, outputFolder.value));
      } else {
        errorMessage := Some(MissingFoldersText);
        job := None;
      }
    }

    method UpdateProgress(newProgress: real, message: string)
      modifies this
      ensures State() == ProgressUpdate(old(State()), newProgress, message) && ui == old(ui)
    {
      progress := newProgress;
      statusMessage := message;
    }

    method ConversionComplete(success: bool, message: string)
      modifies this
      ensures State() == Completion(old(State()), success, message) && ui == old(ui)
    {
      isConverting := false;
      statusMessage := message;
      if !success {
        errorMessage := Some(message);
      }
    }

    /** The loop over a frame's actions in `update`. */
    method ApplyActions(actions: seq<UiAction>) returns (jobs: seq<Job>)
      modifies this
      ensures Dispatch(old(State()), actions) == Outcome(State(), jobs) && ui == old(ui)
    {
      jobs := [];
      for i := 0 to |actions|
        invariant Dispatch(old(State()), actions[..i]) == Outcome(State(), jobs) && ui == old(ui)
      {
        assert actions[..i + 1] == actions[..i] + [actions[i]];
        DispatchSnoc(old(State()), actions[..i], actions[i]);
        match actions[i]
        case SetInputFolder(path) =>
          SetInputFolder(path);
        case SetOutputFolder(path) =>
          SetOutputFolder(path);
        case StartConversion =>
          var job := StartConversion();
          if job.Some? {
            jobs := jobs + [job.value];
          }
      }
      assert actions[..|actions|] == actions;
    }

    /** `update` without its timers: render a frame with the current fields,
        then apply the actions it collected. What the user does in the frame
        (folders picked in the Browse dialogs, a click on the start button)
        is given. */
    method Update(inputPick: Option<Path>, outputPick: Option<Path>, startClicked: bool) returns (jobs: seq<Job>)
      modifies this
      ensures Outcome(State(), jobs) == Dispatch(old(State()),
        FrameActions(old(inputFolder), old(outputFolder), old(isConverting), old(statusMessage),
                     inputPick, outputPick, startClicked))
      ensures ui == old(ui)
    {
      var buffer := new ActionBuffer();
      var _, _, _ := ui.Render(inputFolder, outputFolder, isConverting, statusMessage,
                               inputPick, outputPick, startClicked, buffer);
      assert buffer.actions ==
        FrameActions(inputFolder, outputFolder, isConverting, statusMessage, inputPick, outputPick, startClicked);
      jobs := ApplyActions(buffer.actions);
    }
  }

  /** The thread's listing of the input folder: the PSD files it will
      convert. */
  method ListPsdFiles(input: Path, entries: seq<Listed>) returns (psdFiles: seq<Path>)
    ensures psdFiles == FlatCandidates(input, entries)
  {
    psdFiles := [];
    for i := 0 to |entries|
      invariant psdFiles == FlatCandidates(input, entries[..i])
    {
      assert entries[..i + 1][..i] == entries[..i];
      if entries[i].Named? {
        var path := input + [entries[i].name];
        var ext := Extension(path);
        if ext.Some? && Lower(ext.value) == "psd" {
          psdFiles := psdFiles + [path];
        }
      }
    }
    assert entries[..|entries|] == entries;
  }

  /** One turn of the thread's loop: convert `file` to its flat output
      path and save the image when the conversion succeeds. */
  method ConvertFlatFile(env: Env, disk: Disk, output: Path, file: Path,
                         ghost files0: map<Path, Raster>, ghost before: seq<(Path, Raster)>)
    requires disk.files == ApplyWrites(files0, before)
    modifies disk
    ensures disk.files == ApplyWrites(files0, before + FlatWrite(env, output, file))
    ensures disk.dirs == old(disk.dirs)
  {
    var outputFile := FlatOutputPath(output, file);
    var outcome := ConvertPsdToPngSync(env, file, outputFile);
    if outcome.Ok? {
      assert FlatWrite(env, output, file) == [(outputFile, outcome.value)];
      ApplyWritesSnoc(files0, before, outputFile, outcome.value);
      disk.Write(outputFile, outcome.value);
    } else {
      assert FlatWrite(env, output, file) == [];
      assert before + [] == before;
    }
  }

  /** The thread's conversion loop: each file in turn, failures ignored,
      until a conversion panics and ends the thread. */
  method ConvertFlat(env: Env, disk: Disk, output: Path, psdFiles: seq<Path>)
    modifies disk
    ensures disk.files == ApplyWrites(old(disk.files), FlatWrites(env, output, UntilPanic(env, psdFiles)))
    ensures disk.dirs == old(disk.dirs)
  {
    var i := 0;
    while i < |psdFiles| && env.workerPanic(psdFiles[i]).None?
      invariant i <= |psdFiles| && NoPanic(env, psdFiles[..i])
      invariant disk.files == ApplyWrites(old(disk.files), FlatWrites(env, output, psdFiles[..i]))
      invariant disk.dirs == old(disk.dirs)
    {
      NoPanicSnoc(env, psdFiles, i);
      assert psdFiles[..i + 1][..i] == psdFiles[..i];
      ghost var before := FlatWrites(env, output, psdFiles[..i]);
      assert FlatWrites(env, output, psdFiles[..i + 1]) == before + FlatWrite(env, output, psdFiles[i]);
      ConvertFlatFile(env, disk, output, psdFiles[i], old(disk.files), before);
      i := i + 1;
    }
    UntilPanicExact(env, psdFiles, i);
  }

  /** The body of the thread `start_conversion` spawns: list the input
      folder, collect its PSD files and convert each to its flat output
      path, ignoring every returned error; a panic ends the thread. */
  method ConvertInBackground(env: Env, disk: Disk, job: Job)
    modifies disk
    ensures disk.files == ApplyWrites(old(disk.files), BackgroundWrites(env, job))
    ensures disk.dirs == old(disk.dirs)
  {
    if !env.pathExists(job.input) {
      return;
    }
    var listing := env.readDir(job.input);
    if listing.None? {
      return;
    }
    var psdFiles := ListPsdFiles(job.input, listing.value);
    if psdFiles == [] {
      return;
    }
    ConvertFlat(env, disk, job.output, psdFiles);
  }
}
