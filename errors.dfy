/** The application's error taxonomy (`AppError`, src/error.rs) and the
    error chains the converter builds with `anyhow`'s `.context(...)`. */
module Errors {
  import opened Basics

  /** `AppError`. The three wrapped variants (`#[from]` an I/O error, an
      image-library error or an `anyhow::Error`) carry the display text of the
      error they wrap. */
  datatype AppError =
    | NoPsdFilesFound
    | InvalidFileFormat(detail: string)
    | FileSystemError(detail: string)
    | ConversionFailed(detail: string)
    | IoError(source: string)
    | ImageError(source: string)
    | Generic(source: string)

  /** The fixed part of each variant's message (its `#[error(...)]` template
      up to the `{0}` placeholder). */
  function Template(e: AppError): string
  {
    match e
    case NoPsdFilesFound => "No PSD files found in the selected folder"
    case InvalidFileFormat(_) => "Invalid file format: "
    case FileSystemError(_) => "File system error: "
    case ConversionFailed(_) => "Conversion failed: "
    case IoError(_) => "IO error: "
    case ImageError(_) => "Image processing error: "
    case Generic(_) => "Generic error: "
  }

  /** The text substituted for `{0}`; empty for the variant without one. */
  function Payload(e: AppError): string
  {
    match e
    case NoPsdFilesFound => ""
    case InvalidFileFormat(s) => s
    case FileSystemError(s) => s
    case ConversionFailed(s) => s
    case IoError(s) => s
    case ImageError(s) => s
    case Generic(s) => s
  }

  /** The `Display` implementation that `thiserror` derives. */
  function Display(e: AppError): (s: string)
    ensures s == Template(e) + Payload(e)
  {
    match e
    case NoPsdFilesFound => "No PSD files found in the selected folder"
    case InvalidFileFormat(s) => "Invalid file format: " + s
    case FileSystemError(s) => "File system error: " + s
    case ConversionFailed(s) => "Conversion failed: " + s
    case IoError(s) => "IO error: " + s
    case ImageError(s) => "Image processing error: " + s
    case Generic(s) => "Generic error: " + s
  }

  /** The position of a variant in the declaration. */
  function Variant(e: AppError): nat
  {
    match e
    case NoPsdFilesFound => 0
    case InvalidFileFormat(_) => 1
    case FileSystemError(_) => 2
    case ConversionFailed(_) => 3
    case IoError(_) => 4
    case ImageError(_) => 5
    case Generic(_) => 6
  }

  /** The variant a message's first two characters announce. */
  function VariantOfPrefix(c0: char, c1: char): nat
  {
    if c0 == 'N' then 0
    else if c0 == 'F' then 2
    else if c0 == 'C' then 3
    else if c0 == 'G' then 6
    else if c1 == 'n' then 1
    else if c1 == 'O' then 4
    else 5
  }

  /** The seven templates already differ in their first two characters. */
  lemma TemplatePrefix(e: AppError)
    ensures |Template(e)| >= 2 && VariantOfPrefix(Template(e)[0], Template(e)[1]) == Variant(e)
  {
  }

  /** A message determines the error that produced it: its first two
      characters fix the variant, and the payload is what follows the
      template. */
  lemma DisplayInjective(a: AppError, b: AppError)
    requires Display(a) == Display(b)
    ensures a == b
  {
    var ta, tb := Template(a), Template(b);
    TemplatePrefix(a);
    TemplatePrefix(b);
    assert Display(a)[0] == ta[0] && Display(a)[1] == ta[1];
    assert Display(b)[0] == tb[0] && Display(b)[1] == tb[1];
    assert Variant(a) == Variant(b);
    assert ta == tb;
    assert Payload(a) == Display(a)[|ta|..] == Display(b)[|tb|..] == Payload(b);
  }

  /** The messages the converter attaches with `.context(...)`, one per call
      site in src/converter.rs. */
  datatype Note =
    | CreateOutputDir
    | RelativePath
    | CreateSubdir
    | TaskFailed
    | ConvertFailed
    | ReadFile
    | CreateBuffer
    | SavePng
    | OpenImage

  function NoteText(n: Note): string
  {
    match n
    case CreateOutputDir => "Failed to create output directory"
    case RelativePath => "Failed to get relative path"
    case CreateSubdir => "Failed to create output subdirectory"
    case TaskFailed => "Conversion task failed"
    case ConvertFailed => "Failed to convert PSD to PNG"
    case ReadFile => "Failed to read PSD file"
    case CreateBuffer => "Failed to create image buffer"
    case SavePng => "Failed to save PNG file"
    case OpenImage => "Failed to parse PSD file. Make sure the file is a valid PSD or try saving as PNG first."
  }

  /** An `anyhow::Error` as the converter builds it. `Raised` is an `AppError`
      turned into an `anyhow::Error` by `.into()`; `Library` is an error value
      of a library (`std::io`, `image`, `std::path`, `tokio`) with its own
      message; `Context` is what `.context(note)` makes: on a `Result` it
      keeps the failure it wraps as its source, on an `Option` it has none. */
  datatype Failure =
    | Raised(app: AppError)
    | Library(text: string)
    | Context(note: Note, source: Option<Failure>)

  /** `to_string()` of an `anyhow::Error`: the outermost message only; the
      sources below a context are not part of it. */
  function Text(f: Failure): string
  {
    match f
    case Raised(e) => Display(e)
    case Library(t) => t
    case Context(n, _) => NoteText(n)
  }

  /** Every message an error chain carries, outermost first: what alternate formatting or
      an error report would show, and what `to_string()` throws away. */
  function Contexts(f: Failure): (cs: seq<string>)
    ensures |cs| >= 1 && cs[0] == Text(f)
  {
    match f
    case Raised(e) => [Display(e)]
    case Library(t) => [t]
    case Context(n, None) => [NoteText(n)]
    case Context(n, Some(inner)) => [NoteText(n)] + Contexts(inner)
  }
}
