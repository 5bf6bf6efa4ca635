/** The parts of `std::path` the converter relies on, on paths given as their
    sequence of components: `file_name`, `extension`, `file_stem`,
    `strip_prefix`, `join`, `parent` and `with_extension`. */
module Paths {
  import opened Basics

  /** A path as its components below the filesystem root, outermost first
      (`/in/a/x.psd` is `["in", "a", "x.psd"]`; the root itself is `[]`).
      Components are normal names: not empty, not `.` or `..`, without a
      separator. */
  type Path = seq<string>

  /** `Path::file_name`: the last component. */
  function FileName(p: Path): (r: Option<string>)
    ensures r.Some? <==> |p| > 0
    ensures r.Some? ==> r.value == p[|p| - 1]
  {
    if |p| == 0 then None else Some(p[|p| - 1])
  }

  /** The index of the last `.` in a name, if it has one. */
  function LastDot(name: string): (r: Option<nat>)
    ensures r.Some? ==> r.value < |name| && name[r.value] == '.'
    ensures r.Some? ==> forall j :: r.value < j < |name| ==> name[j] != '.'
    ensures r.None? ==> forall j :: 0 <= j < |name| ==> name[j] != '.'
  {
    if |name| == 0 then None
    else if name[|name| - 1] == '.' then Some(|name| - 1)
    else LastDot(name[..|name| - 1])
  }

  /** The extension of a file name, split off at its last `.`; a name whose
      only `.` is its first character (`.psd`) has none. */
  function ExtensionOf(name: string): Option<string>
  {
    match LastDot(name)
    case None => None
    case Some(i) => if i == 0 then None else Some(name[i + 1..])
  }

  /** The stem of a file name: all of it but the extension and its dot. */
  function StemOf(name: string): string
  {
    match LastDot(name)
    case None => name
    case Some(i) => if i == 0 then name else name[..i]
  }

  /** Stem and extension are a split of the name: putting them back together
      gives the name, a stem is never empty for a non-empty name, and an
      extension contains no dot. */
  lemma StemAndExtension(name: string)
    ensures ExtensionOf(name).None? ==> StemOf(name) == name
    ensures ExtensionOf(name).Some? ==> name == StemOf(name) + "." + ExtensionOf(name).value
    ensures ExtensionOf(name).Some? ==> '.' !in ExtensionOf(name).value
    ensures |name| > 0 ==> |StemOf(name)| > 0
  {
    match LastDot(name)
    case None =>
    case Some(i) =>
      if i > 0 {
        assert name == name[..i] + "." + name[i + 1..];
        var e := name[i + 1..];
        forall j | 0 <= j < |e| ensures e[j] != '.' {
          assert e[j] == name[i + 1 + j];
        }
      }
  }

  /** Conversely, appending `.ext` to a non-empty stem gives a name with that
      stem and extension, as long as the extension has no dot of its own. */
  lemma SplitOfDotted(stem: string, ext: string)
    requires |stem| > 0 && '.' !in ext
    ensures LastDot(stem + "." + ext) == Some(|stem|)
    ensures ExtensionOf(stem + "." + ext) == Some(ext)
    ensures StemOf(stem + "." + ext) == stem
  {
    var name := stem + "." + ext;
    LastDotAfter(name, |stem|);
  }

  /** A dot at `i` with none after it is the last dot. */
  lemma {:induction false} LastDotAfter(name: string, i: nat)
    requires i < |name| && name[i] == '.'
    requires forall j :: i < j < |name| ==> name[j] != '.'
    ensures LastDot(name) == Some(i)
    decreases |name|
  {
    if i < |name| - 1 {
      var init := name[..|name| - 1];
      assert init[i] == '.';
      LastDotAfter(init, i);
    }
  }

  /** `Path::extension`. */
  function Extension(p: Path): Option<string>
  {
    match FileName(p)
    case None => None
    case Some(name) => ExtensionOf(name)
  }

  /** `Path::file_stem`. */
  function FileStem(p: Path): Option<string>
  {
    match FileName(p)
    case None => None
    case Some(name) => Some(StemOf(name))
  }

  /** `Path::strip_prefix`: succeeds exactly when `base` is a component-wise
      prefix of `p`, giving the remaining components. */
  function StripPrefix(p: Path, base: Path): (r: Option<Path>)
    ensures r.Some? <==> |base| <= |p| && p[..|base|] == base
    ensures r.Some? ==> p == base + r.value
  {
    if |base| <= |p| && p[..|base|] == base then Some(p[|base|..]) else None
  }

  /** `Path::join` with a relative path. */
  function Join(p: Path, rel: Path): Path
  {
    p + rel
  }

  /** `Path::parent`: the path without its last component; the root has none. */
  function Parent(p: Path): (r: Option<Path>)
    ensures r.Some? <==> |p| > 0
    ensures r.Some? ==> p == r.value + [p[|p| - 1]]
  {
    if |p| == 0 then None else Some(p[..|p| - 1])
  }

  /** `Path::with_extension(ext)` for a non-empty `ext`: the last component
      becomes its stem followed by `.ext`; a path without a file name is
      returned as it is. */
  function WithExtension(p: Path, ext: string): (r: Path)
    requires ext != ""
    ensures |r| == |p|
    ensures |p| > 0 ==> r[..|p| - 1] == p[..|p| - 1] && r[|p| - 1] == StemOf(p[|p| - 1]) + "." + ext
  {
    if |p| == 0 then p else p[..|p| - 1] + [StemOf(p[|p| - 1]) + "." + ext]
  }

  /** The set of all ancestors of a path, the path itself and the root
      included: what `create_dir_all` makes sure exists. */
  function Ancestors(p: Path): (s: set<Path>)
    ensures p in s && [] in s
  {
    assert p[..|p|] == p && p[..0] == [];
    set i | 0 <= i <= |p| :: p[..i]
  }

  /** `to_string_lossy()` on an absolute path: each component preceded by the
      separator; the root alone is `"/"`. */
  function PathText(p: Path): string
  {
    if p == [] then "/" else Components(p)
  }

  function Components(p: Path): string
  {
    if p == [] then "" else "/" + p[0] + Components(p[1..])
  }
}
