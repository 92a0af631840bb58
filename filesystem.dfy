/** An abstract file system: a map from path to file contents, a set of
    directories, the Unix permission modes that were set explicitly, the
    paths the system refuses to create or replace, whether the disk is full
    (it takes no more bytes) and whether it refuses to change modes. An
    operation that the system refuses reports the system's error text
    `ioError`. */
module FileSystem {
  import opened Wrappers
  import opened Paths

  newtype Byte = b: int | 0 <= b < 256

  type Bytes = seq<Byte>

  datatype FsState = FsState(
    files: map<Path, Bytes>,
    dirs: set<Path>,
    modes: map<Path, nat>,
    readOnly: set<Path>,
    diskFull: bool,
    modesFixed: bool,
    ioError: string)

  /** `Path::exists`: a file or a directory is there. */
  predicate Exists(fs: FsState, p: Path)
  {
    p in fs.files || p in fs.dirs
  }

  /** `fs::read`: the contents of a regular file; reading anything else
      fails. */
  function Read(fs: FsState, p: Path): (r: Option<Bytes>)
    ensures r.Some? <==> p in fs.files
  {
    if p in fs.files then Some(fs.files[p]) else None
  }

  /** `fs::create_dir_all`: every prefix of `p` becomes a directory; it fails
      when a prefix is a file or refuses creation. */
  function CreateDirAll(fs: FsState, p: Path): (r: Result<FsState, string>)
    ensures r.Ok? <==> forall k :: 1 <= k <= |p| ==> p[..k] !in fs.files && p[..k] !in fs.readOnly
    ensures r.Ok? ==> r.value == fs.(dirs := fs.dirs + set k | 1 <= k <= |p| :: p[..k])
    ensures r.Err? ==> r.error == fs.ioError
  {
    if forall k :: 1 <= k <= |p| ==> p[..k] !in fs.files && p[..k] !in fs.readOnly then
      Ok(fs.(dirs := fs.dirs + set k | 1 <= k <= |p| :: p[..k]))
    else Err(fs.ioError)
  }

  /** `File::create`: an empty file at `p`, replacing any old contents; it
      fails on a directory, on a refused path and when the parent directory
      is missing. */
  function CreateFile(fs: FsState, p: Path): (r: Result<FsState, string>)
    ensures r.Ok? <==> p !in fs.dirs && p !in fs.readOnly && (|p| >= 2 ==> p[..|p| - 1] in fs.dirs)
    ensures r.Ok? ==> r.value == fs.(files := fs.files[p := []])
  {
    if p !in fs.dirs && p !in fs.readOnly && (|p| >= 2 ==> p[..|p| - 1] in fs.dirs) then
      Ok(fs.(files := fs.files[p := []]))
    else Err(fs.ioError)
  }

  /** The file system once the bytes are after what `p` holds. */
  function Append(fs: FsState, p: Path, data: Bytes): (r: FsState)
    requires p in fs.files
    ensures r.files == fs.files[p := fs.files[p] + data]
    ensures r.dirs == fs.dirs && r.modes == fs.modes && r.readOnly == fs.readOnly
    ensures r.diskFull == fs.diskFull && r.modesFixed == fs.modesFixed && r.ioError == fs.ioError
  {
    fs.(files := fs.files[p := fs.files[p] + data])
  }

  /** `write_all` on an open file: the bytes go after what is there; on a
      full disk a write of one byte or more fails and writes nothing. */
  function Write(fs: FsState, p: Path, data: Bytes): (r: Result<FsState, string>)
    requires p in fs.files
    ensures r.Err? <==> fs.diskFull && data != []
    ensures r.Ok? ==> r.value == Append(fs, p, data)
    ensures r.Err? ==> r.error == fs.ioError
  {
    if fs.diskFull && data != [] then Err(fs.ioError) else Ok(Append(fs, p, data))
  }

  /** `fs::remove_file`, with its result ignored: a file at `p` is gone. */
  function RemoveFile(fs: FsState, p: Path): (r: FsState)
    ensures r.files == fs.files - {p} && r.dirs == fs.dirs
  {
    fs.(files := fs.files - {p}, modes := fs.modes - {p})
  }

  /** `fs::rename` of a file: `dst` takes over `src`'s contents and mode and
      `src` is gone. It fails when `src` is no file or `dst` is a directory
      or refuses replacement. */
  function Rename(fs: FsState, src: Path, dst: Path): (r: Result<FsState, string>)
    ensures r.Ok? <==> src in fs.files && dst !in fs.dirs && dst !in fs.readOnly
    ensures r.Ok? ==> r.value.files == (fs.files - {src})[dst := fs.files[src]]
    ensures r.Ok? ==> r.value.dirs == fs.dirs
  {
    if src in fs.files && dst !in fs.dirs && dst !in fs.readOnly then
      var modes := fs.modes - {src, dst};
      Ok(fs.(files := (fs.files - {src})[dst := fs.files[src]],
             modes := if src in fs.modes then modes[dst := fs.modes[src]] else modes))
    else Err(fs.ioError)
  }

  /** `fs::set_permissions` on a file that exists; it fails on a file
      system that refuses to change modes. */
  function SetMode(fs: FsState, p: Path, mode: nat): (r: Result<FsState, string>)
    ensures r.Ok? <==> !fs.modesFixed
    ensures r.Ok? ==> r.value.modes == fs.modes[p := mode] && r.value.files == fs.files && r.value.dirs == fs.dirs
    ensures r.Err? ==> r.error == fs.ioError
  {
    if fs.modesFixed then Err(fs.ioError) else Ok(fs.(modes := fs.modes[p := mode]))
  }
}
