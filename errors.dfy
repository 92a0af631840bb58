/** The launcher library's error type (`LauncherError`, error.rs) and the
    helper constructors the rest of the library uses to build it. Every
    variant carries a text; for the variants that wrap a foreign error (I/O,
    HTTP, JSON serialisation, ZIP) the text is that error's own display. */
module Errors {
  import opened Wrappers

  datatype LauncherError =
    | Auth(msg: string)
    | VersionNotFound(msg: string)
    | Download(msg: string)
    | File(msg: string)
    | Json(msg: string)
    | Launch(msg: string)
    | Config(msg: string)
    | Io(msg: string)
    | Http(msg: string)
    | SerdeJson(msg: string)
    | Zip(msg: string)
    | Java(msg: string)

  type LResult<T> = Result<T, LauncherError>

  /** The fixed text `Display` writes before a variant's message. */
  function Label(e: LauncherError): string
  {
    match e
    case Auth(_) => "Authentication error: "
    case VersionNotFound(_) => "Version not found: "
    case Download(_) => "Download error: "
    case File(_) => "File operation failed: "
    case Json(_) => "JSON parsing error: "
    case Launch(_) => "Minecraft launch failed: "
    case Config(_) => "Configuration error: "
    case Io(_) => "I/O error: "
    case Http(_) => "HTTP error: "
    case SerdeJson(_) => "JSON serialization error: "
    case Zip(_) => "ZIP archive error: "
    case Java(_) => "Java runtime error: "
  }

  /** `impl Display for LauncherError`. */
  function Display(e: LauncherError): string
  {
    Label(e) + e.msg
  }

  /** Distinct variants have distinct labels, so the display tells the
      variant apart. */
  lemma LabelsDistinct(a: LauncherError, b: LauncherError)
    requires a.Auth? != b.Auth? || a.Download? != b.Download? || a.Config? != b.Config?
      || a.Launch? != b.Launch? || a.VersionNotFound? != b.VersionNotFound?
    ensures Label(a) != Label(b)
  {
  }

  function AuthError(msg: string): LauncherError { Auth(msg) }
  function VersionNotFoundError(version: string): LauncherError { VersionNotFound(version) }
  function DownloadError(msg: string): LauncherError { Download(msg) }
  function FileError(msg: string): LauncherError { File(msg) }
  function LaunchError(msg: string): LauncherError { Launch(msg) }
  function ConfigError(msg: string): LauncherError { Config(msg) }
  function NetworkError(msg: string): LauncherError { Download(msg) }
  function JsonError(msg: string): LauncherError { Json(msg) }
  function ProcessError(msg: string): LauncherError { Launch(msg) }
  function ModLoaderError(msg: string): LauncherError { Config(msg) }
  function ValidationError(msg: string): LauncherError { Config(msg) }
  function OtherError(msg: string): LauncherError { Config(msg) }
  /** `zip(msg)` wraps the message in the ZIP error's I/O case; the model
      keeps the message as the ZIP error's text. */
  function ZipError(msg: string): LauncherError { Zip(msg) }
  function JavaError(msg: string): LauncherError { Java(msg) }

  /** A missing version displays as "Version not found: <version>". */
  lemma VersionNotFoundDisplay(v: string)
    ensures VersionNotFoundError(v).VersionNotFound?
    ensures Display(VersionNotFoundError(v)) == "Version not found: " + v
  {
  }

  /** `network` and `download` build the same value. */
  lemma NetworkIsDownload(msg: string)
    ensures NetworkError(msg) == DownloadError(msg) && NetworkError(msg).Download?
  {
  }

  /** `validation`, `mod_loader` and `other` build the same value as
      `config`, so a hash mismatch reads "Configuration error: …". */
  lemma ConfigFamily(msg: string)
    ensures ValidationError(msg) == ConfigError(msg) && ModLoaderError(msg) == ConfigError(msg)
    ensures OtherError(msg) == ConfigError(msg) && ConfigError(msg).Config?
    ensures Display(ValidationError(msg)) == "Configuration error: " + msg
  {
  }

  /** `process` and `launch` build the same value. */
  lemma ProcessIsLaunch(msg: string)
    ensures ProcessError(msg) == LaunchError(msg) && LaunchError(msg).Launch?
  {
  }

  /** Every helper keeps its message verbatim and `Display` puts the
      variant's label in front of it. */
  lemma HelpersKeepMessage(msg: string)
    ensures AuthError(msg).msg == msg && DownloadError(msg).msg == msg && FileError(msg).msg == msg
    ensures LaunchError(msg).msg == msg && ConfigError(msg).msg == msg && JsonError(msg).msg == msg
    ensures ZipError(msg).msg == msg && JavaError(msg).msg == msg && VersionNotFoundError(msg).msg == msg
    ensures forall e: LauncherError :: Display(e) == Label(e) + e.msg
  {
  }
}
