/** Unpacking the native libraries of a version (`extract_native_libraries`,
    `extract_native_jar` in launcher.rs). Every native jar of an applicable
    library that is on disk is unpacked into `versions/<id>/natives`: entries
    whose name could leave that directory and entries under `META-INF` are
    skipped, directories are created, files are written and, outside
    Windows, made executable. The first failure ends the extraction and
    what was written before it stays. */
module NativeExtraction {
  import opened Wrappers
  import opened Strings
  import opened Seqs
  import opened Platform
  import opened Paths
  import opened FileSystem
  import opened Errors
  import opened Version
  import opened Libraries
  import opened LaunchTasks
  import opened LaunchArguments
  import opened Rules

  // ---------------------------------------------------------------------
  // Archives

  /** What reading one entry of the archive gives: an error, or the entry's
      stored name and what copying its data out gives. */
  datatype EntryRead = Unreadable(reason: string) | Entry(name: string, data: Result<Bytes, string>)

  /** What opening a jar gives: the file cannot be opened, it is no ZIP
      archive, or its entries in archive order. */
  datatype ArchiveRead = OpenFailed(reason: string) | NotZip(reason: string) | Archive(entries: seq<EntryRead>)

  // ---------------------------------------------------------------------
  // Entry names

  /** A component of a relative path, as `Path::components` reports it. */
  datatype Component = CurDir | ParentDir | Normal(name: string)

  predicate IsSeparator(c: char, os: Os)
  {
    c == '/' || (os == Windows && c == '\\')
  }

  /** The name with every separator written as '/'. */
  function Slashed(name: string, os: Os): (r: string)
    ensures |r| == |name|
  {
    if name == [] then []
    else Slashed(name[..|name| - 1], os) + [if IsSeparator(name[|name| - 1], os) then '/' else name[|name| - 1]]
  }

  /** One piece between separators: empty pieces vanish, "." counts only at
      the start. */
  function PieceComponent(piece: string, first: bool): seq<Component>
  {
    if piece == "" then []
    else if piece == "." then (if first then [CurDir] else [])
    else if piece == ".." then [ParentDir]
    else [Normal(piece)]
  }

  function LaterPiece(): string -> seq<Component>
  {
    piece => PieceComponent(piece, false)
  }

  /** `Path::components` of a name that is neither rooted nor prefixed. */
  function Components(name: string, os: Os): seq<Component>
  {
    var pieces := Split(Slashed(name, os), '/');
    PieceComponent(pieces[0], true) + FlatMap(pieces[1..], LaterPiece())
  }

  /** Rooted: the name starts with a separator. */
  predicate Rooted(name: string, os: Os)
  {
    |name| > 0 && IsSeparator(name[0], os)
  }

  /** A Windows drive prefix such as `C:`. */
  predicate DrivePrefixed(name: string, os: Os)
  {
    os == Windows && |name| >= 2 && name[1] == ':' && (('a' <= name[0] <= 'z') || ('A' <= name[0] <= 'Z'))
  }

  /** How deep the components lead below the starting directory. */
  function Depth(cs: seq<Component>): int
  {
    if cs == [] then 0
    else Depth(cs[..|cs| - 1]) + (match cs[|cs| - 1] case Normal(_) => 1 case ParentDir => -1 case CurDir => 0)
  }

  /** No prefix of the components climbs above the starting directory. */
  predicate NeverEscapes(cs: seq<Component>)
  {
    forall k :: 0 <= k <= |cs| ==> Depth(cs[..k]) >= 0
  }

  /** `ZipFile::enclosed_name`: no name for entries holding NUL, rooted or
      prefixed entries, and entries whose ".." would climb out. */
  function EnclosedName(name: string, os: Os): (r: Option<seq<Component>>)
    ensures r.Some? <==> '\0' !in name && !Rooted(name, os) && !DrivePrefixed(name, os) && NeverEscapes(Components(name, os))
    ensures r.Some? ==> r.value == Components(name, os)
  {
    if '\0' in name || Rooted(name, os) || DrivePrefixed(name, os) then None
    else
      var cs := Components(name, os);
      if NeverEscapes(cs) then Some(cs) else None
  }

  /** `Path::starts_with("META-INF")`: the first component is `META-INF`. */
  predicate InMetaInf(cs: seq<Component>)
  {
    |cs| > 0 && cs[0] == Normal("META-INF")
  }

  /** `ZipFile::is_dir`: the stored name ends with a slash or a backslash. */
  predicate IsDirName(name: string)
  {
    |name| > 0 && (name[|name| - 1] == '/' || name[|name| - 1] == '\\')
  }

  /** `base.join(components)` as the file system resolves it: a name is
      entered, "." stays, ".." goes up one level. */
  function JoinComponents(base: Path, cs: seq<Component>): Path
  {
    if cs == [] then base
    else
      var p := JoinComponents(base, cs[..|cs| - 1]);
      match cs[|cs| - 1]
      case Normal(n) => p + [n]
      case CurDir => p
      case ParentDir => if p == [] then [] else p[..|p| - 1]
  }

  /** A name that never climbs out stays below the base: the result is the
      base followed by as many pieces as the name is deep. */
  lemma {:induction false} JoinStaysInside(base: Path, cs: seq<Component>)
    requires NeverEscapes(cs)
    ensures var p := JoinComponents(base, cs);
      |p| == |base| + Depth(cs) && base <= p
  {
    if cs != [] {
      var init := cs[..|cs| - 1];
      assert NeverEscapes(init) by {
        forall k | 0 <= k <= |init|
          ensures Depth(init[..k]) >= 0
        {
          assert init[..k] == cs[..k];
        }
      }
      JoinStaysInside(base, init);
      assert cs[..|cs|] == cs;
    }
  }

  /** Unchecked, a single ".." leaves the base. */
  lemma ParentEscapes(base: Path)
    requires base != []
    ensures JoinComponents(base, [ParentDir]) == base[..|base| - 1]
    ensures !NeverEscapes([ParentDir])
  {
    assert [ParentDir][..0] == [];
    assert [ParentDir][..1] == [ParentDir];
  }

  // ---------------------------------------------------------------------
  // One entry

  /** The file system and the first error, if any: an extraction that fails
      keeps what it did before the failure. */
  datatype Outcome = Outcome(fs: FsState, error: Option<LauncherError>)

  /** A file system step that either succeeds or fails with the text of the
      I/O error, reported under `context`. */
  function Then(r: Result<FsState, string>, fs: FsState, context: string): Outcome
  {
    match r
    case Ok(f) => Outcome(f, None)
    case Err(e) => Outcome(fs, Some(FileError(context + e)))
  }

  /** The mode set on extracted files outside Windows (0o755). */
  const EXECUTABLE_MODE: nat := 0x1ED

  /** Writing one file entry to `out`: its parent directory, the file, its
      data and, outside Windows, its mode. */
  function WriteFile(fs: FsState, out: Path, data: Result<Bytes, string>, os: Os): Outcome
    requires out != []
  {
    var parent := Then(CreateDirAll(fs, out[..|out| - 1]), fs, "Failed to create parent directory: ");
    if parent.error.Some? then parent else CreateAndWrite(parent.fs, out, data, os)
  }

  /** `File::create` on the output path, then the copy. */
  function CreateAndWrite(fs: FsState, out: Path, data: Result<Bytes, string>, os: Os): Outcome
  {
    var created := Then(CreateFile(fs, out), fs, "Failed to create output file: ");
    if created.error.Some? then created
    else
      assert out in created.fs.files;
      WriteContents(created.fs, out, data, os)
  }

  /** The copy into the freshly created file, which fails when the entry
      cannot be read or the file cannot be written, and, outside Windows,
      the executable mode. */
  function WriteContents(fs: FsState, out: Path, data: Result<Bytes, string>, os: Os): Outcome
    requires out in fs.files
  {
    match data
    case Err(e) => Outcome(fs, Some(FileError("Failed to extract file: " + e)))
    case Ok(bytes) =>
      var written := Then(Write(fs, out, bytes), fs, "Failed to extract file: ");
      if written.error.Some? || os == Windows then written
      else Then(SetMode(written.fs, out, EXECUTABLE_MODE), written.fs, "Failed to set file permissions: ")
  }

  /** One pass of the entry loop of `extract_native_jar`. */
  function EntryStep(fs: FsState, natives: Path, e: EntryRead, os: Os): Outcome
    requires natives != []
  {
    match e
    case Unreadable(reason) => Outcome(fs, Some(FileError("Failed to read ZIP entry: " + reason)))
    case Entry(name, data) =>
      match EnclosedName(name, os)
      case None => Outcome(fs, None)
      case Some(cs) =>
        if InMetaInf(cs) then Outcome(fs, None) else PlaceEntry(fs, natives, cs, IsDirName(name), data, os)
  }

  /** An accepted entry: its directory, or its file, below `natives`. */
  function PlaceEntry(fs: FsState, natives: Path, cs: seq<Component>, isDir: bool, data: Result<Bytes, string>, os: Os): Outcome
    requires natives != [] && NeverEscapes(cs)
  {
    JoinStaysInside(natives, cs);
    var out := JoinComponents(natives, cs);
    if isDir then Then(CreateDirAll(fs, out), fs, "Failed to create directory: ")
    else WriteFile(fs, out, data, os)
  }

  /** The entries one after the other, stopping at the first error. */
  function RunEntries(fs: FsState, natives: Path, es: seq<EntryRead>, os: Os): Outcome
    requires natives != []
  {
    if es == [] then Outcome(fs, None)
    else
      var o := RunEntries(fs, natives, es[..|es| - 1], os);
      if o.error.Some? then o else EntryStep(o.fs, natives, es[|es| - 1], os)
  }

  /** `extract_native_jar`. */
  function ExtractJar(fs: FsState, natives: Path, archive: ArchiveRead, os: Os): Outcome
    requires natives != []
  {
    match archive
    case OpenFailed(reason) => Outcome(fs, Some(FileError("Failed to open native JAR: " + reason)))
    case NotZip(reason) => Outcome(fs, Some(FileError("Failed to read ZIP archive: " + reason)))
    case Archive(es) => RunEntries(fs, natives, es, os)
  }

  /** The entry loop of `extract_native_jar`. */
  method ExtractNativeJar(fs: FsState, natives: Path, archive: ArchiveRead, os: Os) returns (o: Outcome)
    requires natives != []
    ensures o == ExtractJar(fs, natives, archive, os)
  {
    match archive {
      case OpenFailed(reason) =>
        o := Outcome(fs, Some(FileError("Failed to open native JAR: " + reason)));
      case NotZip(reason) =>
        o := Outcome(fs, Some(FileError("Failed to read ZIP archive: " + reason)));
      case Archive(es) =>
        o := ExtractEntries(fs, natives, es, os);
    }
  }

  /** The entry loop of `extract_native_jar`. */
  method ExtractEntries(fs: FsState, natives: Path, es: seq<EntryRead>, os: Os) returns (o: Outcome)
    requires natives != []
    ensures o == RunEntries(fs, natives, es, os)
  {
    var cur := fs;
    var i := 0;
    while i < |es|
      invariant 0 <= i <= |es|
      invariant RunEntries(fs, natives, es[..i], os) == Outcome(cur, None)
    {
      RunEntriesSnoc(fs, natives, es, i, os);
      var step := EntryStep(cur, natives, es[i], os);
      if step.error.Some? {
        RunEntriesStops(fs, natives, es, i + 1, os);
        return step;
      }
      cur := step.fs;
      i := i + 1;
    }
    assert es[..i] == es;
    return Outcome(cur, None);
  }

  lemma RunEntriesSnoc(fs: FsState, natives: Path, es: seq<EntryRead>, i: nat, os: Os)
    requires natives != [] && i < |es|
    ensures var o := RunEntries(fs, natives, es[..i], os);
      RunEntries(fs, natives, es[..i + 1], os) == if o.error.Some? then o else EntryStep(o.fs, natives, es[i], os)
  {
    assert es[..i + 1][..i] == es[..i];
  }

  /** Once an error is reported, later entries are not looked at. */
  lemma {:induction false} RunEntriesStops(fs: FsState, natives: Path, es: seq<EntryRead>, k: nat, os: Os)
    requires natives != [] && k <= |es|
    requires RunEntries(fs, natives, es[..k], os).error.Some?
    ensures RunEntries(fs, natives, es, os) == RunEntries(fs, natives, es[..k], os)
    decreases |es| - k
  {
    if k < |es| {
      assert es[..k + 1][..k] == es[..k];
      RunEntriesStops(fs, natives, es, k + 1, os);
    } else {
      assert es[..k] == es;
    }
  }

  // ---------------------------------------------------------------------
  // What an entry does

  /** An entry without an enclosed name, or one under `META-INF`, leaves the
      file system alone. */
  lemma SkippedEntry(fs: FsState, natives: Path, name: string, data: Result<Bytes, string>, os: Os)
    requires natives != []
    requires EnclosedName(name, os).None? || InMetaInf(Components(name, os))
    ensures EntryStep(fs, natives, Entry(name, data), os) == Outcome(fs, None)
  {
  }

  /** A file entry that is written ends up holding exactly its data, and
      outside Windows it is executable. */
  lemma FileEntryWritten(fs: FsState, natives: Path, name: string, bytes: Bytes, os: Os)
    requires natives != []
    requires EnclosedName(name, os).Some? && !InMetaInf(Components(name, os)) && !IsDirName(name)
    ensures var out := JoinComponents(natives, Components(name, os));
      var o := EntryStep(fs, natives, Entry(name, Ok(bytes)), os);
      && natives <= out
      && (o.error.None? ==> out in o.fs.files && o.fs.files[out] == bytes)
      && (o.error.None? && os != Windows ==> out in o.fs.modes && o.fs.modes[out] == EXECUTABLE_MODE)
  {
    JoinStaysInside(natives, Components(name, os));
    WriteFileWritten(fs, JoinComponents(natives, Components(name, os)), bytes, os);
  }

  /** A successful `WriteFile` leaves exactly the data at `out`. Each step
      can fail: the parent directory, the file, the write of the data (on a
      full disk, when there is data) and, outside Windows, the mode; once
      the file is created, the write fails first, then the mode. */
  lemma WriteFileWritten(fs: FsState, out: Path, bytes: Bytes, os: Os)
    requires out != []
    ensures var o := WriteFile(fs, out, Ok(bytes), os);
      && (o.error.None? ==> out in o.fs.files && o.fs.files[out] == bytes)
      && (o.error.None? && os != Windows ==> out in o.fs.modes && o.fs.modes[out] == EXECUTABLE_MODE)
    ensures var o := WriteFile(fs, out, Ok(bytes), os);
      var made := CreateDirAll(fs, out[..|out| - 1]);
      && (made.Err? ==> o == Outcome(fs, Some(FileError("Failed to create parent directory: " + fs.ioError))))
      && (made.Ok? && CreateFile(made.value, out).Err? ==>
            o == Outcome(made.value, Some(FileError("Failed to create output file: " + fs.ioError))))
      && (made.Ok? && CreateFile(made.value, out).Ok? ==>
            var created := CreateFile(made.value, out).value;
            && (fs.diskFull && bytes != [] ==>
                  o == Outcome(created, Some(FileError("Failed to extract file: " + fs.ioError))))
            && (!(fs.diskFull && bytes != []) && os != Windows && fs.modesFixed ==>
                  o == Outcome(Append(created, out, bytes), Some(FileError("Failed to set file permissions: " + fs.ioError))))
            && (o.error.None? <==> !(fs.diskFull && bytes != []) && (os == Windows || !fs.modesFixed)))
  {
  }

  /** A name that climbs out with ".." is never written. */
  lemma EscapingNameSkipped(name: string, os: Os)
    requires !NeverEscapes(Components(name, os))
    ensures EnclosedName(name, os).None?
  {
  }

  // ---------------------------------------------------------------------
  // Writes stay inside the natives directory

  /** From `a` to `b` nothing outside `natives` changed: no file was
      removed; files and modes outside it are as they were; the only new
      directories lead to or lie below it. */
  ghost predicate Confined(a: FsState, b: FsState, natives: Path)
  {
    && b.readOnly == a.readOnly && b.ioError == a.ioError
    && (forall p :: p in a.files ==> p in b.files)
    && (forall p :: p in a.files && !(natives <= p) ==> b.files[p] == a.files[p])
    && (forall p :: p in b.files && p !in a.files ==> natives <= p)
    && (forall d :: d in a.dirs ==> d in b.dirs)
    && (forall d :: d in b.dirs && d !in a.dirs ==> d <= natives || natives <= d)
    && (forall p :: p in a.modes && !(natives <= p) ==> p in b.modes && b.modes[p] == a.modes[p])
    && (forall p :: p in b.modes && p !in a.modes ==> natives <= p)
  }

  lemma ConfinedTrans(a: FsState, b: FsState, c: FsState, natives: Path)
    requires Confined(a, b, natives) && Confined(b, c, natives)
    ensures Confined(a, c, natives)
  {
  }

  /** Creating the directories of a path that leads to or lies below
      `natives` is confined. */
  lemma CreateDirAllConfined(fs: FsState, q: Path, natives: Path)
    requires q <= natives || natives <= q
    ensures CreateDirAll(fs, q).Ok? ==> Confined(fs, CreateDirAll(fs, q).value, natives)
  {
    if CreateDirAll(fs, q).Ok? {
      var b := CreateDirAll(fs, q).value;
      forall d | d in b.dirs && d !in fs.dirs
        ensures d <= natives || natives <= d
      {
        var k :| 1 <= k <= |q| && d == q[..k];
        if natives <= q && k >= |natives| {
          assert d[..|natives|] == natives;
        }
      }
    }
  }

  lemma CreateFileConfined(fs: FsState, out: Path, natives: Path)
    requires natives <= out
    ensures CreateFile(fs, out).Ok? ==> Confined(fs, CreateFile(fs, out).value, natives)
  {
  }

  lemma WriteContentsConfined(fs: FsState, out: Path, data: Result<Bytes, string>, os: Os, natives: Path)
    requires natives <= out && out in fs.files
    ensures Confined(fs, WriteContents(fs, out, data, os).fs, natives)
  {
  }

  lemma CreateAndWriteConfined(fs: FsState, out: Path, data: Result<Bytes, string>, os: Os, natives: Path)
    requires natives <= out
    ensures Confined(fs, CreateAndWrite(fs, out, data, os).fs, natives)
  {
    CreateFileConfined(fs, out, natives);
    var c := CreateFile(fs, out);
    if c.Ok? {
      WriteContentsConfined(c.value, out, data, os, natives);
      ConfinedTrans(fs, c.value, WriteContents(c.value, out, data, os).fs, natives);
    }
  }

  lemma ParentRelated(out: Path, natives: Path)
    requires natives <= out && out != []
    ensures out[..|out| - 1] <= natives || natives <= out[..|out| - 1]
  {
  }

  lemma WriteFileConfined(fs: FsState, out: Path, data: Result<Bytes, string>, os: Os, natives: Path)
    requires natives <= out && out != []
    ensures Confined(fs, WriteFile(fs, out, data, os).fs, natives)
  {
    var parent := out[..|out| - 1];
    ParentRelated(out, natives);
    CreateDirAllConfined(fs, parent, natives);
    var r := CreateDirAll(fs, parent);
    if r.Ok? {
      CreateAndWriteConfined(r.value, out, data, os, natives);
      ConfinedTrans(fs, r.value, CreateAndWrite(r.value, out, data, os).fs, natives);
    }
  }

  lemma PlaceEntryConfined(fs: FsState, natives: Path, cs: seq<Component>, isDir: bool, data: Result<Bytes, string>, os: Os)
    requires natives != [] && NeverEscapes(cs)
    ensures Confined(fs, PlaceEntry(fs, natives, cs, isDir, data, os).fs, natives)
  {
    JoinStaysInside(natives, cs);
    var out := JoinComponents(natives, cs);
    if isDir {
      CreateDirAllConfined(fs, out, natives);
    } else {
      WriteFileConfined(fs, out, data, os, natives);
    }
  }

  lemma EntryStepConfined(fs: FsState, natives: Path, e: EntryRead, os: Os)
    requires natives != []
    ensures Confined(fs, EntryStep(fs, natives, e, os).fs, natives)
  {
    if e.Entry? && EnclosedName(e.name, os).Some? && !InMetaInf(Components(e.name, os)) {
      PlaceEntryConfined(fs, natives, Components(e.name, os), IsDirName(e.name), e.data, os);
    }
  }

  lemma {:induction false} RunEntriesConfined(fs: FsState, natives: Path, es: seq<EntryRead>, os: Os)
    requires natives != []
    ensures Confined(fs, RunEntries(fs, natives, es, os).fs, natives)
  {
    if es != [] {
      var o := RunEntries(fs, natives, es[..|es| - 1], os);
      RunEntriesConfined(fs, natives, es[..|es| - 1], os);
      if o.error.None? {
        EntryStepConfined(o.fs, natives, es[|es| - 1], os);
        ConfinedTrans(fs, o.fs, EntryStep(o.fs, natives, es[|es| - 1], os).fs, natives);
      }
    }
  }

  /** Unpacking one jar writes nothing outside the natives directory. */
  lemma ExtractJarConfined(fs: FsState, natives: Path, archive: ArchiveRead, os: Os)
    requires natives != []
    ensures Confined(fs, ExtractJar(fs, natives, archive, os).fs, natives)
  {
    if archive.Archive? {
      RunEntriesConfined(fs, natives, archive.entries, os);
    }
  }

  // ---------------------------------------------------------------------
  // The native jars of a version

  /** The jar of one classifier entry when it suits the system. */
  function ClassifierJar(name: string, librariesDir: Path, os: Os): ((string, DownloadInfo)) -> seq<Path>
  {
    (cd: (string, DownloadInfo)) => if IsNativeFor(cd.0, os) then [NativePath(name, cd.0, librariesDir)] else []
  }

  /** The native jars `extract_native_libraries` looks for in one library:
      none when the library does not apply or has no classifier table,
      otherwise one per suitable classifier, in table order. */
  function LibraryJars(lib: Library, librariesDir: Path, os: Os): seq<Path>
  {
    if !LibraryApplies(lib, os) || lib.downloads.None? || lib.downloads.value.classifiers.None? then []
    else FlatMap(lib.downloads.value.classifiers.value, ClassifierJar(lib.name, librariesDir, os))
  }

  function JarsOf(librariesDir: Path, os: Os): Library -> seq<Path>
  {
    lib => LibraryJars(lib, librariesDir, os)
  }

  /** Every jar looked for, library by library. */
  function NativeJars(libs: seq<Library>, librariesDir: Path, os: Os): seq<Path>
  {
    FlatMap(libs, JarsOf(librariesDir, os))
  }

  function TaskPath(): DownloadTask -> Path
  {
    (t: DownloadTask) => t.path
  }

  /** The jars looked for in a library are exactly the destinations of the
      native downloads planned for it, in the same order. */
  lemma {:induction false} ClassifierJarsArePlanned(lib: Library, cs: seq<(string, DownloadInfo)>, librariesDir: Path, os: Os)
    ensures FlatMap(cs, ClassifierJar(lib.name, librariesDir, os)) == MapSeq(NativeTasks(lib, cs, librariesDir, os), TaskPath())
  {
    if cs != [] {
      var n := |cs| - 1;
      ClassifierJarsArePlanned(lib, cs[..n], librariesDir, os);
      FlatMapSnoc(cs, n, ClassifierJar(lib.name, librariesDir, os));
      assert cs[..n + 1] == cs;
      var (c, d) := cs[n];
      var extra := if IsNativeFor(c, os) then [NativeTask(lib, librariesDir, c, d)] else [];
      MapSeqAppend(NativeTasks(lib, cs[..n], librariesDir, os), extra, TaskPath());
      if IsNativeFor(c, os) {
        MapSeqAt(extra, TaskPath(), 0);
      }
    }
  }

  // ---------------------------------------------------------------------
  // Extracting every jar

  /** One jar: unpacked when it is on disk, passed over otherwise. What
      opening the file gives is `open(jar)`. */
  function JarStep(fs: FsState, natives: Path, jar: Path, open: Path -> ArchiveRead, os: Os): Outcome
    requires natives != []
  {
    if Exists(fs, jar) then ExtractJar(fs, natives, open(jar), os) else Outcome(fs, None)
  }

  /** The jars one after the other, stopping at the first error. */
  function ExtractAll(fs: FsState, jars: seq<Path>, natives: Path, open: Path -> ArchiveRead, os: Os): Outcome
    requires natives != []
  {
    if jars == [] then Outcome(fs, None)
    else
      var o := ExtractAll(fs, jars[..|jars| - 1], natives, open, os);
      if o.error.Some? then o else JarStep(o.fs, natives, jars[|jars| - 1], open, os)
  }

  /** Extracting `a + b` is extracting `a`, then, unless that failed, `b`. */
  lemma {:induction false} ExtractAllAppend(fs: FsState, a: seq<Path>, b: seq<Path>, natives: Path, open: Path -> ArchiveRead, os: Os)
    requires natives != []
    ensures var o := ExtractAll(fs, a, natives, open, os);
      ExtractAll(fs, a + b, natives, open, os) == if o.error.Some? then o else ExtractAll(o.fs, b, natives, open, os)
    decreases |b|
  {
    if b == [] {
      assert a + b == a;
    } else {
      var n := |b| - 1;
      ExtractAllAppend(fs, a, b[..n], natives, open, os);
      assert (a + b)[..|a + b| - 1] == a + b[..n];
    }
  }

  lemma ExtractOne(fs: FsState, jar: Path, natives: Path, open: Path -> ArchiveRead, os: Os)
    requires natives != []
    ensures ExtractAll(fs, [jar], natives, open, os) == JarStep(fs, natives, jar, open, os)
  {
    assert [jar][..0] == [];
  }

  /** One more element of a flattened list of jars. */
  lemma ExtractFlatSnoc<A>(fs: FsState, xs: seq<A>, k: nat, f: A -> seq<Path>, natives: Path, open: Path -> ArchiveRead, os: Os)
    requires natives != [] && k < |xs|
    ensures var o := ExtractAll(fs, FlatMap(xs[..k], f), natives, open, os);
      ExtractAll(fs, FlatMap(xs[..k + 1], f), natives, open, os) == if o.error.Some? then o else ExtractAll(o.fs, f(xs[k]), natives, open, os)
  {
    FlatMapSnoc(xs, k, f);
    ExtractAllAppend(fs, FlatMap(xs[..k], f), f(xs[k]), natives, open, os);
  }

  /** After an error in the first `k` elements the rest is not looked at. */
  lemma ExtractFlatStops<A>(fs: FsState, xs: seq<A>, k: nat, f: A -> seq<Path>, natives: Path, open: Path -> ArchiveRead, os: Os)
    requires natives != [] && k <= |xs|
    requires ExtractAll(fs, FlatMap(xs[..k], f), natives, open, os).error.Some?
    ensures ExtractAll(fs, FlatMap(xs, f), natives, open, os) == ExtractAll(fs, FlatMap(xs[..k], f), natives, open, os)
  {
    assert xs == xs[..k] + xs[k..];
    FlatMapAppend(xs[..k], xs[k..], f);
    ExtractAllAppend(fs, FlatMap(xs[..k], f), FlatMap(xs[k..], f), natives, open, os);
  }

  /** With none of the jars on disk nothing happens. */
  lemma {:induction false} NoJarNoChange(fs: FsState, jars: seq<Path>, natives: Path, open: Path -> ArchiveRead, os: Os)
    requires natives != []
    requires forall j :: j in jars ==> !Exists(fs, j)
    ensures ExtractAll(fs, jars, natives, open, os) == Outcome(fs, None)
  {
    if jars != [] {
      NoJarNoChange(fs, jars[..|jars| - 1], natives, open, os);
    }
  }

  lemma {:induction false} ExtractAllConfined(fs: FsState, jars: seq<Path>, natives: Path, open: Path -> ArchiveRead, os: Os)
    requires natives != []
    ensures Confined(fs, ExtractAll(fs, jars, natives, open, os).fs, natives)
  {
    if jars != [] {
      var o := ExtractAll(fs, jars[..|jars| - 1], natives, open, os);
      ExtractAllConfined(fs, jars[..|jars| - 1], natives, open, os);
      var jar := jars[|jars| - 1];
      if o.error.None? && Exists(o.fs, jar) {
        ExtractJarConfined(o.fs, natives, open(jar), os);
        ConfinedTrans(fs, o.fs, ExtractJar(o.fs, natives, open(jar), os).fs, natives);
      }
    }
  }

  // ---------------------------------------------------------------------
  // `extract_native_libraries`

  /** The natives directory is created when missing, then every native jar
      of an applicable library that is on disk is unpacked into it. */
  function ExtractNatives(fs: FsState, info: VersionInfo, instanceDir: Path, open: Path -> ArchiveRead, os: Os): Outcome
  {
    ExtractInto(fs, NativeJars(info.libraries, LibrariesDir(instanceDir), os), NativesDir(info, instanceDir), open, os)
  }

  /** The natives directory first, then the jars. */
  function ExtractInto(fs: FsState, jars: seq<Path>, natives: Path, open: Path -> ArchiveRead, os: Os): Outcome
    requires natives != []
  {
    var start := PrepareNatives(fs, natives);
    if start.error.Some? then start else ExtractAll(start.fs, jars, natives, open, os)
  }

  /** `create_dir_all` of the natives directory when it is missing. */
  function PrepareNatives(fs: FsState, natives: Path): Outcome
  {
    if Exists(fs, natives) then Outcome(fs, None)
    else Then(CreateDirAll(fs, natives), fs, "Failed to create natives directory: ")
  }

  lemma PrepareNativesConfined(fs: FsState, natives: Path)
    requires natives != []
    ensures var o := PrepareNatives(fs, natives);
      Confined(fs, o.fs, natives) && (o.error.None? ==> Exists(o.fs, natives))
  {
    CreateDirAllConfined(fs, natives, natives);
    assert natives[..|natives|] == natives;
  }

  /** Confinement keeps what exists. */
  lemma ConfinedKeepsExisting(a: FsState, b: FsState, natives: Path, p: Path)
    requires Confined(a, b, natives) && Exists(a, p)
    ensures Exists(b, p)
  {
  }

  /** The extraction writes nothing outside `versions/<id>/natives`, and once
      it succeeds that directory exists. */
  lemma ExtractNativesConfined(fs: FsState, info: VersionInfo, instanceDir: Path, open: Path -> ArchiveRead, os: Os)
    ensures var natives := NativesDir(info, instanceDir);
      var o := ExtractNatives(fs, info, instanceDir, open, os);
      && Confined(fs, o.fs, natives)
      && (o.error.None? ==> Exists(o.fs, natives))
  {
    ExtractIntoConfined(fs, NativeJars(info.libraries, LibrariesDir(instanceDir), os), NativesDir(info, instanceDir), open, os);
  }

  lemma ExtractIntoConfined(fs: FsState, jars: seq<Path>, natives: Path, open: Path -> ArchiveRead, os: Os)
    requires natives != []
    ensures var o := ExtractInto(fs, jars, natives, open, os);
      Confined(fs, o.fs, natives) && (o.error.None? ==> Exists(o.fs, natives))
  {
    PrepareNativesConfined(fs, natives);
    var start := PrepareNatives(fs, natives);
    if start.error.None? {
      ExtractAllConfined(start.fs, jars, natives, open, os);
      var last := ExtractAll(start.fs, jars, natives, open, os).fs;
      ConfinedTrans(fs, start.fs, last, natives);
      ConfinedKeepsExisting(start.fs, last, natives, natives);
    }
  }

  /** A version without native jars on disk only gets its natives
      directory. */
  lemma NothingToExtract(fs: FsState, info: VersionInfo, instanceDir: Path, open: Path -> ArchiveRead, os: Os)
    requires forall j :: j in NativeJars(info.libraries, LibrariesDir(instanceDir), os) ==> !Exists(fs, j)
    requires Exists(fs, NativesDir(info, instanceDir))
    ensures ExtractNatives(fs, info, instanceDir, open, os) == Outcome(fs, None)
  {
    NoJarNoChange(fs, NativeJars(info.libraries, LibrariesDir(instanceDir), os), NativesDir(info, instanceDir), open, os);
  }

  /** `extract_native_libraries`, with its two loops. */
  method ExtractNativeLibraries(fs: FsState, info: VersionInfo, instanceDir: Path, open: Path -> ArchiveRead, os: Os) returns (o: Outcome)
    ensures o == ExtractNatives(fs, info, instanceDir, open, os)
  {
    var librariesDir := LibrariesDir(instanceDir);
    var natives := NativesDir(info, instanceDir);
    var cur := fs;
    if !Exists(cur, natives) {
      var r := CreateDirAll(fs, natives);
      if r.Err? {
        return Outcome(fs, Some(FileError("Failed to create natives directory: " + r.error)));
      }
      cur := r.value;
    }
    o := ExtractLibraries(cur, info.libraries, librariesDir, natives, open, os);
  }

  /** The loop over the libraries. */
  method ExtractLibraries(fs: FsState, libs: seq<Library>, librariesDir: Path, natives: Path, open: Path -> ArchiveRead, os: Os) returns (o: Outcome)
    requires natives != []
    ensures o == ExtractAll(fs, NativeJars(libs, librariesDir, os), natives, open, os)
  {
    var cur := fs;
    var i := 0;
    while i < |libs|
      invariant 0 <= i <= |libs|
      invariant ExtractAll(fs, NativeJars(libs[..i], librariesDir, os), natives, open, os) == Outcome(cur, None)
    {
      var step := ExtractLibrary(cur, libs[i], librariesDir, natives, open, os);
      LibraryStep(fs, libs, i, librariesDir, natives, open, os, cur, step);
      if step.error.Some? {
        return step;
      }
      cur := step.fs;
      i := i + 1;
    }
    assert libs[..i] == libs;
    return Outcome(cur, None);
  }

  /** One pass of the loop over the libraries: it either stops the whole
      extraction with its error or extends the extracted prefix. */
  lemma LibraryStep(fs: FsState, libs: seq<Library>, i: nat, librariesDir: Path, natives: Path,
                    open: Path -> ArchiveRead, os: Os, cur: FsState, step: Outcome)
    requires natives != [] && i < |libs|
    requires ExtractAll(fs, NativeJars(libs[..i], librariesDir, os), natives, open, os) == Outcome(cur, None)
    requires step == ExtractAll(cur, LibraryJars(libs[i], librariesDir, os), natives, open, os)
    ensures step.error.Some? ==> step == ExtractAll(fs, NativeJars(libs, librariesDir, os), natives, open, os)
    ensures step.error.None? ==> ExtractAll(fs, NativeJars(libs[..i + 1], librariesDir, os), natives, open, os) == Outcome(step.fs, None)
  {
    ExtractFlatSnoc(fs, libs, i, JarsOf(librariesDir, os), natives, open, os);
    if step.error.Some? {
      ExtractFlatStops(fs, libs, i + 1, JarsOf(librariesDir, os), natives, open, os);
    }
  }

  /** The jars of one library. */
  method ExtractLibrary(fs: FsState, lib: Library, librariesDir: Path, natives: Path, open: Path -> ArchiveRead, os: Os) returns (o: Outcome)
    requires natives != []
    ensures o == ExtractAll(fs, LibraryJars(lib, librariesDir, os), natives, open, os)
  {
    if lib.rules.Some? {
      var allowed := EvaluateRules(lib.rules.value, os);
      if !allowed {
        return Outcome(fs, None);
      }
    }
    if lib.downloads.None? || lib.downloads.value.classifiers.None? {
      return Outcome(fs, None);
    }
    o := ExtractClassifiers(fs, lib.name, lib.downloads.value.classifiers.value, librariesDir, natives, open, os);
  }

  /** The loop over a library's classifier table. */
  method ExtractClassifiers(fs: FsState, name: string, cs: seq<(string, DownloadInfo)>, librariesDir: Path, natives: Path, open: Path -> ArchiveRead, os: Os)
    returns (o: Outcome)
    requires natives != []
    ensures o == ExtractAll(fs, FlatMap(cs, ClassifierJar(name, librariesDir, os)), natives, open, os)
  {
    var jarOf := ClassifierJar(name, librariesDir, os);
    var cur := fs;
    var j := 0;
    while j < |cs|
      invariant 0 <= j <= |cs|
      invariant ExtractAll(fs, FlatMap(cs[..j], jarOf), natives, open, os) == Outcome(cur, None)
    {
      ExtractFlatSnoc(fs, cs, j, jarOf, natives, open, os);
      var step := ExtractClassifier(cur, name, cs[j].0, librariesDir, natives, open, os);
      if step.error.Some? {
        ExtractFlatStops(fs, cs, j + 1, jarOf, natives, open, os);
        return step;
      }
      cur := step.fs;
      j := j + 1;
    }
    assert cs[..j] == cs;
    return Outcome(cur, None);
  }

  /** One classifier: its jar is unpacked when it suits the system and is
      on disk. */
  method ExtractClassifier(fs: FsState, name: string, classifier: string, librariesDir: Path, natives: Path, open: Path -> ArchiveRead, os: Os)
    returns (o: Outcome)
    requires natives != []
    ensures forall d: DownloadInfo :: o == ExtractAll(fs, ClassifierJar(name, librariesDir, os)((classifier, d)), natives, open, os)
  {
    o := Outcome(fs, None);
    if IsNativeFor(classifier, os) {
      var jar := NativePath(name, classifier, librariesDir);
      ExtractOne(fs, jar, natives, open, os);
      if Exists(fs, jar) {
        o := ExtractNativeJar(fs, natives, open(jar), os);
      }
    }
  }
}
