/** What the converter talks to but does not implement: the directory walk,
    file reads, the PSD parser, the generic image decoder, the PNG encoder,
    directory creation and the worker thread. Each is a field of `Env`, an
    arbitrary function fixed for one run: its results are inputs of the
    model, not something it computes. The directories and files the
    converter creates are the state of a `Disk`. */
module Environment {
  import opened Basics
  import opened Paths

  newtype byte = b: int | 0 <= b < 256

  type Bytes = seq<byte>

  /** A decoded image: width, height and RGBA pixel bytes, four per pixel. */
  datatype Raster = Raster(width: nat, height: nat, pixels: Bytes)

  predicate WellFormed(r: Raster)
  {
    |r.pixels| == r.width * r.height * 4
  }

  /** What the PSD parser gives back for a document: its width and height
      and the flattened RGBA pixel data it stores (`Psd::rgba()`). */
  datatype PsdDocument = PsdDocument(width: nat, height: nat, rgba: Bytes)

  /** The file type a directory walk reports (`is_file()` holds only for
      regular files; links are not followed). */
  datatype FileKind = RegularFile | Directory | Symlink

  /** One item of a recursive walk: an entry, or an entry that could not be
      read (an `Err` item). */
  datatype Walked = WalkError | Entry(path: Path, kind: FileKind)

  /** One item of a flat directory listing (`read_dir`): an entry's name, or
      an entry that could not be read. */
  datatype Listed = ListError | Named(name: string)

  datatype Env = Env(
    /** `WalkDir::new(root)`: every item in traversal order, the root first. */
    walk: Path -> seq<Walked>,
    /** `Path::exists`. */
    pathExists: Path -> bool,
    /** `fs::read_dir`: `None` when the directory cannot be listed. */
    readDir: Path -> Option<seq<Listed>>,
    /** `fs::read`: the file's bytes, or the I/O error's message. */
    read: Path -> Result<Bytes, string>,
    /** `Psd::from_bytes`: `None` when the bytes are not a PSD document. */
    parsePsd: Bytes -> Option<PsdDocument>,
    /** `image::open`: the decoded image, or the decoder's error message. */
    openImage: Path -> Result<Raster, string>,
    /** `save_with_format(path, Png)`: `None` on success, else the error message. */
    savePng: (Path, Raster) -> Option<string>,
    /** `fs::create_dir_all`: `None` on success, else the error message. */
    createDirAll: Path -> Option<string>,
    /** Whether `convert_psd_to_png_sync` panics on one file, before it
        saves anything, and the message of the join error that
        `spawn_blocking` turns the panic into. */
    workerPanic: Path -> Option<string>)

  /** The files that a sequence of writes leaves behind, later writes to the
      same path replacing earlier ones. */
  function ApplyWrites(files: map<Path, Raster>, writes: seq<(Path, Raster)>): map<Path, Raster>
    decreases |writes|
  {
    if writes == [] then files else ApplyWrites(files[writes[0].0 := writes[0].1], writes[1..])
  }

  /** The last value written to `p`, if any write touches it. */
  function LastWrite(writes: seq<(Path, Raster)>, p: Path): Option<Raster>
    decreases |writes|
  {
    if writes == [] then None
    else if writes[|writes| - 1].0 == p then Some(writes[|writes| - 1].1)
    else LastWrite(writes[..|writes| - 1], p)
  }

  /** A path written to ends up holding its last write; every other path
      keeps what it had. */
  lemma {:induction false} ApplyWritesAt(files: map<Path, Raster>, writes: seq<(Path, Raster)>, p: Path)
    ensures LastWrite(writes, p).Some? ==> p in ApplyWrites(files, writes) && ApplyWrites(files, writes)[p] == LastWrite(writes, p).value
    ensures LastWrite(writes, p).None? ==> (p in ApplyWrites(files, writes) <==> p in files)
    ensures LastWrite(writes, p).None? && p in files ==> ApplyWrites(files, writes)[p] == files[p]
    decreases |writes|
  {
    if writes != [] {
      var rest := writes[1..];
      var files' := files[writes[0].0 := writes[0].1];
      ApplyWritesAt(files', rest, p);
      LastWriteCons(writes, p);
    }
  }

  lemma {:induction false} LastWriteCons(writes: seq<(Path, Raster)>, p: Path)
    requires writes != []
    ensures LastWrite(writes, p) ==
      if LastWrite(writes[1..], p).Some? then LastWrite(writes[1..], p)
      else if writes[0].0 == p then Some(writes[0].1) else None
    decreases |writes|
  {
    if |writes| > 1 {
      var init := writes[..|writes| - 1];
      assert init[1..] == writes[1..][..|writes[1..]| - 1];
      if writes[|writes| - 1].0 != p {
        LastWriteCons(init, p);
      }
    }
  }

  /** Writing the same files a second time changes nothing. */
  lemma ApplyWritesIdempotent(files: map<Path, Raster>, writes: seq<(Path, Raster)>)
    ensures ApplyWrites(ApplyWrites(files, writes), writes) == ApplyWrites(files, writes)
  {
    var once := ApplyWrites(files, writes);
    var twice := ApplyWrites(once, writes);
    forall p ensures (p in twice <==> p in once) && (p in once ==> twice[p] == once[p]) {
      ApplyWritesAt(files, writes, p);
      ApplyWritesAt(once, writes, p);
    }
    assert twice == once;
  }

  /** Writing one more file after a sequence of writes. */
  lemma {:induction false} ApplyWritesSnoc(files: map<Path, Raster>, writes: seq<(Path, Raster)>, p: Path, r: Raster)
    ensures ApplyWrites(files, writes + [(p, r)]) == ApplyWrites(files, writes)[p := r]
    decreases |writes|
  {
    if writes == [] {
      assert [(p, r)][1..] == [];
    } else {
      assert (writes + [(p, r)])[1..] == writes[1..] + [(p, r)];
      ApplyWritesSnoc(files[writes[0].0 := writes[0].1], writes[1..], p, r);
    }
  }

  /** The directories and files that exist, as far as the converter is
      concerned: what it creates is added here. */
  class Disk {
    var dirs: set<Path>
    var files: map<Path, Raster>

    constructor (dirs0: set<Path>, files0: map<Path, Raster>)
      ensures dirs == dirs0 && files == files0
    {
      dirs, files := dirs0, files0;
    }

    /** `fs::create_dir_all(p)`: on success `p` and all its ancestors exist. */
    method CreateDirAll(env: Env, p: Path) returns (err: Option<string>)
      modifies this
      ensures err == env.createDirAll(p)
      ensures dirs == if err.None? then old(dirs) + Ancestors(p) else old(dirs)
      ensures files == old(files)
    {
      err := env.createDirAll(p);
      if err.None? {
        dirs := dirs + Ancestors(p);
      }
    }

    /** A successful save: `p` now holds `r`, replacing any earlier file. */
    method Write(p: Path, r: Raster)
      modifies this
      ensures files == old(files)[p := r]
      ensures dirs == old(dirs)
    {
      files := files[p := r];
    }
  }
}
