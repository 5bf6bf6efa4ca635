/** The decisions embedded in the user interface (src/ui.rs): what each
    folder card shows, which conversion control is shown, and which actions
    a frame pushes for the application to apply. Widgets, layout and colours
    are not modelled; what the user does in a frame (hovering, clicking,
    picking a folder in a dialog, dropping files) arrives as parameters. */
module Ui {
  import opened Basics
  import opened Paths
  import opened Environment

  /** `UiAction`: what a frame asks the application to do. */
  datatype UiAction =
    | SetInputFolder(path: Path)
    | SetOutputFolder(path: Path)
    | StartConversion

  // ---------------------------------------------------------------- UTF-8

  /** The number of bytes UTF-8 spends on a character. */
  function Utf8Width(c: char): nat
  {
    var cp := c as int;
    if cp < 0x80 then 1 else if cp < 0x800 then 2 else if cp < 0x1_0000 then 3 else 4
  }

  /** A byte that continues a multi-byte character. */
  predicate IsContinuation(b: byte)
  {
    0x80 <= b < 0xC0
  }

  /** The UTF-8 encoding of one character: a leading byte followed by its
      continuation bytes. */
  function EncodeChar(c: char): (bs: seq<byte>)
    ensures |bs| == Utf8Width(c)
    ensures !IsContinuation(bs[0])
    ensures forall j :: 1 <= j < |bs| ==> IsContinuation(bs[j])
  {
    var cp := c as int;
    if cp < 0x80 then [cp as byte]
    else if cp < 0x800 then [(0xC0 + cp / 0x40) as byte, (0x80 + cp % 0x40) as byte]
    else if cp < 0x1_0000 then
      [(0xE0 + cp / 0x1000) as byte, (0x80 + cp / 0x40 % 0x40) as byte, (0x80 + cp % 0x40) as byte]
    else
      [(0xF0 + cp / 0x4_0000) as byte, (0x80 + cp / 0x1000 % 0x40) as byte,
       (0x80 + cp / 0x40 % 0x40) as byte, (0x80 + cp % 0x40) as byte]
  }

  /** The bytes of a Rust `String` holding `s`. */
  function Utf8(s: string): seq<byte>
  {
    if s == [] then [] else EncodeChar(s[0]) + Utf8(s[1..])
  }

  /** `str::is_char_boundary`: the start, the end, or a position holding
      the first byte of a character. */
  predicate IsCharBoundary(bs: seq<byte>, i: nat)
  {
    i == 0 || i == |bs| || (i < |bs| && !IsContinuation(bs[i]))
  }

  lemma {:induction false} Utf8Append(a: string, b: string)
    ensures Utf8(a + b) == Utf8(a) + Utf8(b)
    decreases |a|
  {
    if a == [] {
      assert a + b == b;
    } else {
      assert (a + b)[0] == a[0] && (a + b)[1..] == a[1..] + b;
      Utf8Append(a[1..], b);
      assert Utf8(a + b) == EncodeChar(a[0]) + Utf8(a[1..] + b);
      assert Utf8(a) == EncodeChar(a[0]) + Utf8(a[1..]);
    }
  }

  /** A string whose characters all take `w` bytes takes `w` bytes each. */
  lemma {:induction false} Utf8UniformLength(s: string, w: nat)
    requires forall i :: 0 <= i < |s| ==> Utf8Width(s[i]) == w
    ensures |Utf8(s)| == w * |s|
    decreases |s|
  {
    if s != [] {
      var t := s[1..];
      forall i | 0 <= i < |t|
        ensures Utf8Width(t[i]) == w
      {
        assert t[i] == s[i + 1];
      }
      Utf8UniformLength(t, w);
      assert Utf8(s) == EncodeChar(s[0]) + Utf8(t);
      assert |s| == |t| + 1;
      MultiplySuccessor(w, |t|);
    }
  }

  lemma MultiplySuccessor(w: nat, n: nat)
    ensures w * (n + 1) == w + w * n
  {
  }

  /** In an encoded string at most three bytes in a row are not character
      boundaries: one of `k .. k + 3` is one. */
  lemma {:induction false} Utf8BoundaryNear(s: string, k: nat)
    requires k <= |Utf8(s)|
    ensures exists j :: k <= j <= k + 3 && IsCharBoundary(Utf8(s), j)
    decreases |s|
  {
    var bs := Utf8(s);
    if k == 0 || k == |bs| {
      assert IsCharBoundary(bs, k);
    } else {
      var e := EncodeChar(s[0]);
      var rest := Utf8(s[1..]);
      assert bs == e + rest;
      if k < |e| {
        assert IsCharBoundary(bs, |e|) by {
          if |e| < |bs| {
            assert s[1..] != [];
            assert rest == EncodeChar(s[1..][0]) + Utf8(s[1..][1..]);
            assert bs[|e|] == rest[0];
          }
        }
      } else {
        Utf8BoundaryNear(s[1..], k - |e|);
        var j' :| k - |e| <= j' <= k - |e| + 3 && IsCharBoundary(rest, j');
        assert IsCharBoundary(bs, j' + |e|) by {
          if j' < |rest| {
            assert bs[j' + |e|] == rest[j'];
          }
        }
      }
    }
  }

  // ---------------------------------------------------------------- folder cards

  /** The bytes of `"..."`. */
  const Ellipsis: seq<byte> := [0x2E, 0x2E, 0x2E]

  /** What a folder card shows for a path string, as the code is written: a
      string of at most 35 bytes as it is, a longer one as `...` followed by
      the slice from byte `len - 32`. Slicing a `String` at a byte that is
      not a character boundary panics; that is `None` here. */
  function ShownPathAsWritten(text: seq<byte>): (r: Option<seq<byte>>)
    ensures |text| <= 35 ==> r == Some(text)
    ensures |text| > 35 ==> (r.Some? <==> IsCharBoundary(text, |text| - 32))
    ensures |text| > 35 && r.Some? ==>
      |r.value| == 35 && r.value[..3] == Ellipsis && text[|text| - 32..] == r.value[3..]
  {
    if |text| > 35 then
      if IsCharBoundary(text, |text| - 32) then Some(Ellipsis + text[|text| - 32..]) else None
    else Some(text)
  }

  /** A path of one component made of twelve three-byte characters: its
      string is 37 bytes long and byte 5 is the middle of the second `€`, so
      the card for it panics. */
  lemma ShownPathPanics(euros: string)
    requires euros == "€€€€€€€€€€€€"
    ensures ShownPathAsWritten(Utf8(PathText([euros]))).None?
  {
    var p: Path := [euros];
    assert p[1..] == [];
    assert Components(p) == "/" + euros + Components(p[1..]);
    assert PathText(p) == "/" + euros;
    Utf8Append("/", euros);
    assert Utf8("/") == [0x2F];
    EuroWidths(euros);
    Utf8UniformLength(euros, 3);
    var tail := euros[1..];
    assert tail[0] == euros[1];
    var e := Utf8(euros);
    assert e == EncodeChar(euros[0]) + Utf8(tail);
    assert Utf8(tail) == EncodeChar(tail[0]) + Utf8(tail[1..]);
    var bs := Utf8(PathText(p));
    assert bs == [0x2F] + e;
    assert |bs| == 37;
    assert bs[5] == EncodeChar(euros[1])[1];
  }

  lemma EuroWidths(euros: string)
    requires euros == "€€€€€€€€€€€€"
    ensures |euros| == 12 && forall i :: 0 <= i < |euros| ==> Utf8Width(euros[i]) == 3
  {
  }

  /** The first character boundary at or after `i`. */
  function NextBoundary(bs: seq<byte>, i: nat): (j: nat)
    requires i <= |bs|
    ensures i <= j <= |bs| && IsCharBoundary(bs, j)
    ensures forall k :: i <= k < j ==> !IsCharBoundary(bs, k)
    decreases |bs| - i
  {
    if IsCharBoundary(bs, i) then i else NextBoundary(bs, i + 1)
  }

  /** What a folder card shows for a path string when the cut is moved to the
      next character boundary: at most 35 bytes, ending with a suffix of the
      string that begins a character. */
  function ShownPath(text: seq<byte>): (r: seq<byte>)
    ensures |text| <= 35 ==> r == text
    ensures |text| > 35 ==> 3 <= |r| <= 35 && r[..3] == Ellipsis
    ensures |text| > 35 ==> var cut := |text| - (|r| - 3);
      text[cut..] == r[3..] && IsCharBoundary(text, cut) &&
      forall k :: |text| - 32 <= k < cut ==> !IsCharBoundary(text, k)
  {
    if |text| > 35 then Ellipsis + text[NextBoundary(text, |text| - 32)..] else text
  }

  /** Whenever the code as written does not panic, the corrected cut shows
      the same bytes. */
  lemma ShownPathAgrees(text: seq<byte>)
    requires ShownPathAsWritten(text).Some?
    ensures ShownPath(text) == ShownPathAsWritten(text).value
  {
  }

  /** On the encoding of a string the corrected cut drops at most three more
      bytes than the intended one: a long path shows at least 32 bytes. */
  lemma ShownPathKeepsMost(s: string)
    requires |Utf8(s)| > 35
    ensures 32 <= |ShownPath(Utf8(s))| <= 35
  {
    var text := Utf8(s);
    Utf8BoundaryNear(s, |text| - 32);
  }

  /** The label `"No folder selected"`. */
  const NoFolderText := "No folder selected"

  /** Each character's code as one byte: the UTF-8 form of an ASCII string. */
  function AsciiBytes(s: string): (bs: seq<byte>)
    ensures |bs| == |s|
  {
    seq(|s|, i requires 0 <= i < |s| => (s[i] as int % 0x100) as byte)
  }

  /** An ASCII string is stored as its character codes, one byte each. */
  lemma {:induction false} Utf8Ascii(s: string)
    requires forall i :: 0 <= i < |s| ==> s[i] as int < 0x80
    ensures Utf8(s) == AsciiBytes(s)
    decreases |s|
  {
    if s != [] {
      assert forall i :: 0 <= i < |s[1..]| ==> s[1..][i] == s[i + 1];
      Utf8Ascii(s[1..]);
      assert AsciiBytes(s) == [AsciiBytes(s)[0]] + AsciiBytes(s[1..]);
    }
  }

  /** The text of a folder card: its path shortened, or the placeholder. */
  function FolderLabel(folder: Option<Path>): seq<byte>
  {
    match folder
    case None => AsciiBytes(NoFolderText)
    case Some(p) => ShownPath(Utf8(PathText(p)))
  }

  /** Without a folder the card holds the bytes of `"No folder selected"`. */
  lemma NoFolderLabel(s: string)
    requires s == NoFolderText
    ensures FolderLabel(None) == Utf8(s)
  {
    assert forall i :: 0 <= i < |s| ==> s[i] as int < 0x80;
    Utf8Ascii(s);
  }

  /** No folder card shows more than 35 bytes; a short path is shown whole. */
  lemma FolderLabelFits(folder: Option<Path>)
    ensures |FolderLabel(folder)| <= 35
    ensures folder.Some? && |Utf8(PathText(folder.value))| <= 35 ==>
      FolderLabel(folder) == Utf8(PathText(folder.value))
  {
  }

  // ---------------------------------------------------------------- conversion control

  /** The control shown below the folder cards. */
  datatype Control =
    | ConvertingButton
    | FinishedButton
    | StartButton
    | GuidanceLabel(text: string)

  /** The guidance for the folders still missing. */
  function GuidanceText(inputSet: bool, outputSet: bool): string
  {
    match (inputSet, outputSet)
    case (false, false) => "Select input and output folders"
    case (false, true) => "Select input folder"
    case (true, false) => "Select output folder"
    case (true, true) => "Ready to convert"
  }

  /** The control `render_modern_conversion_controls` shows. */
  function ConversionControl(input: Option<Path>, output: Option<Path>, isConverting: bool, status: string): Control
  {
    var canConvert := input.Some? && output.Some? && !isConverting;
    var hasCompleted := Contains(status, "completed");
    if isConverting then ConvertingButton
    else if hasCompleted then FinishedButton
    else if canConvert then StartButton
    else GuidanceLabel(GuidanceText(input.Some?, output.Some?))
  }

  /** Converting beats a completed status, which beats being ready, which
      beats the guidance; the start button appears exactly when both folders
      are chosen, nothing is running and the status does not mention
      completion. */
  lemma ControlPrecedence(input: Option<Path>, output: Option<Path>, isConverting: bool, status: string)
    ensures var c := ConversionControl(input, output, isConverting, status);
      (c == ConvertingButton <==> isConverting) &&
      (c == FinishedButton <==> !isConverting && Contains(status, "completed")) &&
      (c == StartButton <==> input.Some? && output.Some? && !isConverting && !Contains(status, "completed")) &&
      (c.GuidanceLabel? <==> !isConverting && !Contains(status, "completed") && (input.None? || output.None?))
  {
  }

  /** The guidance names exactly the folders that are missing; its fourth
      text, "Ready to convert", is never shown. */
  lemma GuidanceNamesMissing(input: Option<Path>, output: Option<Path>, isConverting: bool, status: string)
    requires ConversionControl(input, output, isConverting, status).GuidanceLabel?
    ensures var t := ConversionControl(input, output, isConverting, status).text;
      t != "Ready to convert" &&
      (t == "Select input and output folders" <==> input.None? && output.None?) &&
      (t == "Select input folder" <==> input.None? && output.Some?) &&
      (t == "Select output folder" <==> input.Some? && output.None?)
  {
  }

  // ---------------------------------------------------------------- dropped files

  /** The actions a drop pushes: `SetInputFolder` for each dropped item with
      a path that is a directory, in drop order. */
  function DroppedDirectories(dropped: seq<Option<Path>>, isDir: Path -> bool): seq<UiAction>
  {
    if dropped == [] then []
    else
      var last := dropped[|dropped| - 1];
      DroppedDirectories(dropped[..|dropped| - 1], isDir) +
      (if last.Some? && isDir(last.value) then [SetInputFolder(last.value)] else [])
  }

  /** A drop sets the input folder to exactly the dropped directories. */
  lemma {:induction false} DroppedDirectoriesMembers(dropped: seq<Option<Path>>, isDir: Path -> bool, a: UiAction)
    ensures a in DroppedDirectories(dropped, isDir) <==>
      a.SetInputFolder? && Some(a.path) in dropped && isDir(a.path)
    decreases |dropped|
  {
    if dropped != [] {
      var init := dropped[..|dropped| - 1];
      DroppedDirectoriesMembers(init, isDir, a);
      assert dropped == init + [dropped[|dropped| - 1]];
    }
  }

  /** Two drops push what each pushes, in order. */
  lemma {:induction false} DroppedDirectoriesAppend(d1: seq<Option<Path>>, d2: seq<Option<Path>>, isDir: Path -> bool)
    ensures DroppedDirectories(d1 + d2, isDir) == DroppedDirectories(d1, isDir) + DroppedDirectories(d2, isDir)
    decreases |d2|
  {
    if d2 == [] {
      assert d1 + d2 == d1;
    } else {
      var init := d2[..|d2| - 1];
      assert (d1 + d2)[..|d1 + d2| - 1] == d1 + init;
      DroppedDirectoriesAppend(d1, init, isDir);
    }
  }

  // ---------------------------------------------------------------- a frame

  /** The actions of the folder cards' Browse buttons: the folder picked in
      each dialog, if one was. */
  function PickedFolders(inputPick: Option<Path>, outputPick: Option<Path>): seq<UiAction>
  {
    (if inputPick.Some? then [SetInputFolder(inputPick.value)] else []) +
    (if outputPick.Some? then [SetOutputFolder(outputPick.value)] else [])
  }

  /** Everything one frame of `render` pushes, in order: first the folder
      cards, then the conversion control. */
  function FrameActions(input: Option<Path>, output: Option<Path>, isConverting: bool, status: string,
                        inputPick: Option<Path>, outputPick: Option<Path>, startClicked: bool): seq<UiAction>
  {
    PickedFolders(inputPick, outputPick) +
    (if ConversionControl(input, output, isConverting, status) == StartButton && startClicked
     then [StartConversion] else [])
  }

  /** A frame asks to start a conversion only when the start button is shown
      and clicked, and then as its last action, after any folder changes. */
  lemma FrameStartsLast(input: Option<Path>, output: Option<Path>, isConverting: bool, status: string,
                        inputPick: Option<Path>, outputPick: Option<Path>, startClicked: bool)
    ensures var acts := FrameActions(input, output, isConverting, status, inputPick, outputPick, startClicked);
      (StartConversion in acts <==>
        startClicked && input.Some? && output.Some? && !isConverting && !Contains(status, "completed")) &&
      forall i :: 0 <= i < |acts| - 1 ==> !acts[i].StartConversion?
  {
    ControlPrecedence(input, output, isConverting, status);
  }

  /** The vector of actions a frame collects. */
  class ActionBuffer {
    var actions: seq<UiAction>

    constructor ()
      ensures actions == []
    {
      actions := [];
    }

    method Push(a: UiAction)
      modifies this
      ensures actions == old(actions) + [a]
    {
      actions := actions + [a];
    }
  }

  /** `AppUI`: the drag-and-drop area's state. */
  class AppUI {
    var hovered: bool
    var dragOver: bool

    constructor ()
      ensures !hovered && !dragOver
    {
      hovered, dragOver := false, false;
    }

    /** `render_modern_folder_selection`: the two cards' texts and the
        folders picked through their Browse buttons. */
    method RenderFolderSelection(input: Option<Path>, output: Option<Path>, inputPick: Option<Path>, outputPick: Option<Path>,
                                 buffer: ActionBuffer)
      returns (inputLabel: seq<byte>, outputLabel: seq<byte>)
      modifies buffer
      ensures inputLabel == FolderLabel(input) && outputLabel == FolderLabel(output)
      ensures buffer.actions == old(buffer.actions) + PickedFolders(inputPick, outputPick)
    {
      inputLabel := FolderLabel(input);
      if inputPick.Some? {
        buffer.Push(SetInputFolder(inputPick.value));
      }
      outputLabel := FolderLabel(output);
      if outputPick.Some? {
        buffer.Push(SetOutputFolder(outputPick.value));
      }
    }

    /** `render_modern_conversion_controls`: the control shown, and the start
        request when its button is clicked. */
    method RenderConversionControls(input: Option<Path>, output: Option<Path>, isConverting: bool, status: string,
                                    clicked: bool, buffer: ActionBuffer)
      returns (control: Control)
      modifies buffer
      ensures control == ConversionControl(input, output, isConverting, status)
      ensures buffer.actions == old(buffer.actions) + (if control == StartButton && clicked then [StartConversion] else [])
    {
      var canConvert := input.Some? && output.Some? && !isConverting;
      var hasCompleted := Contains(status, "completed");
      if isConverting {
        control := ConvertingButton;
      } else if hasCompleted {
        control := FinishedButton;
      } else if canConvert {
        control := StartButton;
        if clicked {
          buffer.Push(StartConversion);
        }
      } else {
        control := GuidanceLabel(GuidanceText(input.Some?, output.Some?));
      }
    }

    /** `render_modern_drag_drop_area`: remember whether the area is
        hovered, push the dropped directories, then the folder picked by
        clicking the area. */
    method RenderDragDropArea(areaHovered: bool, dropped: seq<Option<Path>>, isDir: Path -> bool, pick: Option<Path>,
                              buffer: ActionBuffer)
      modifies this, buffer
      ensures hovered == areaHovered && dragOver == old(dragOver)
      ensures buffer.actions == old(buffer.actions) + DroppedDirectories(dropped, isDir) +
        (if pick.Some? then [SetInputFolder(pick.value)] else [])
    {
      if areaHovered {
        hovered := true;
      } else {
        hovered := false;
      }
      for i := 0 to |dropped|
        invariant hovered == areaHovered && dragOver == old(dragOver)
        invariant buffer.actions == old(buffer.actions) + DroppedDirectories(dropped[..i], isDir)
      {
        assert dropped[..i + 1][..i] == dropped[..i];
        if dropped[i].Some? && isDir(dropped[i].value) {
          buffer.Push(SetInputFolder(dropped[i].value));
        }
      }
      assert dropped[..|dropped|] == dropped;
      if pick.Some? {
        buffer.Push(SetInputFolder(pick.value));
      }
    }

    /** `render`: the folder cards, then the conversion control; the
        progress bar and status lines only display values. */
    method Render(input: Option<Path>, output: Option<Path>, isConverting: bool, status: string,
                  inputPick: Option<Path>, outputPick: Option<Path>, startClicked: bool, buffer: ActionBuffer)
      returns (inputLabel: seq<byte>, outputLabel: seq<byte>, control: Control)
      modifies buffer
      ensures inputLabel == FolderLabel(input) && outputLabel == FolderLabel(output)
      ensures control == ConversionControl(input, output, isConverting, status)
      ensures buffer.actions ==
        old(buffer.actions) + FrameActions(input, output, isConverting, status, inputPick, outputPick, startClicked)
    {
      inputLabel, outputLabel := RenderFolderSelection(input, output, inputPick, outputPick, buffer);
      control := RenderConversionControls(input, output, isConverting, status, startClicked, buffer);
    }
  }
}
