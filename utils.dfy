/** The helpers of utils.rs: the Java finder (parsing `java -version`, the
    per-version cache, the search over installation directories and PATH)
    and the plain `download_file` used for Java runtimes. Running
    `java -version` is given as `run`, a function from the executable's path
    to its standard-error text, or to the reason it could not be started. */
module Utils {
  import opened Wrappers
  import opened Strings
  import opened Seqs
  import opened Platform
  import opened Paths
  import opened Errors
  import opened FileSystem
  import opened DirTree
  import Downloader

  // ---------------------------------------------------------------------
  // Parsing `java -version`

  /** The major version a quoted version text names: "1.x…" gives x,
      anything else its first dot-separated piece, when it parses as an
      `i32`. */
  function QuotedMajor(v: string): Option<int>
  {
    if "1." <= v then
      var parts := Split(v, '.');
      if |parts| >= 2 then ParseI32(parts[1]) else None
    else ParseI32(Split(v, '.')[0])
  }

  /** The text between the first two double quotes of a line. */
  function QuotedText(line: string): Option<string>
  {
    match IndexOf(line, '"')
    case None => None
    case Some(start) =>
      match IndexOf(line[start + 1..], '"')
      case None => None
      case Some(end) => Some(line[start + 1..start + 1 + end])
  }

  /** The major version one line names: the line mentions "version" and
      holds a quoted text. */
  function LineMajor(line: string): Option<int>
  {
    if !Contains(line, "version") then None
    else
      match QuotedText(line)
      case None => None
      case Some(v) => QuotedMajor(v)
  }

  function MajorOfLine(): string -> Option<int>
  {
    (line: string) => LineMajor(line)
  }

  /** `parse_java_major_version`: the version of the first line that names
      one. */
  function ParseJavaMajorVersion(output: string): LResult<int>
  {
    match FirstSome(Lines(output), MajorOfLine())
    case None => Err(ConfigError("Could not parse Java version"))
    case Some(m) => Ok(m)
  }

  /** The parse fails only when no line names a version, and otherwise
      gives the version of the first line that does: lines whose quoted
      text does not parse are skipped. */
  lemma ParseTakesFirstVersionLine(output: string)
    ensures var r := ParseJavaMajorVersion(output);
      && (r.Err? <==> forall i :: 0 <= i < |Lines(output)| ==> LineMajor(Lines(output)[i]).None?)
      && (r.Err? ==> r.error == Config("Could not parse Java version"))
      && (r.Ok? ==> exists i :: (0 <= i < |Lines(output)| && LineMajor(Lines(output)[i]) == Some(r.value)
                                 && forall j :: 0 <= j < i ==> LineMajor(Lines(output)[j]).None?))
  {
    var lines := Lines(output);
    var found := FirstSome(lines, MajorOfLine());
    FirstSomeOfMajors(lines);
    var r := ParseJavaMajorVersion(output);
    if found.Some? {
      assert r == Ok(found.value);
      var i :| 0 <= i < |lines| && LineMajor(lines[i]) == found && forall j :: 0 <= j < i ==> LineMajor(lines[j]).None?;
      assert LineMajor(lines[i]) == Some(r.value);
    } else {
      assert r == Err(ConfigError("Could not parse Java version"));
    }
  }

  lemma FirstSomeOfMajors(lines: seq<string>)
    ensures var r := FirstSome(lines, MajorOfLine());
      && (r.None? <==> forall i :: 0 <= i < |lines| ==> LineMajor(lines[i]).None?)
      && (r.Some? ==> exists i :: (0 <= i < |lines| && LineMajor(lines[i]) == r
                                   && forall j :: 0 <= j < i ==> LineMajor(lines[j]).None?))
  {
    var f := MajorOfLine();
    FirstSomeMeaning(lines, f);
    assert forall i :: 0 <= i < |lines| ==> f(lines[i]) == LineMajor(lines[i]);
  }

  lemma {:induction false} IndexAfter(a: string, c: char, b: string)
    requires c !in a
    ensures IndexOf(a + [c] + b, c) == Some(|a|)
    decreases |a|
  {
    if a != [] {
      IndexAfter(a[1..], c, b);
      assert (a + [c] + b)[1..] == a[1..] + [c] + b;
    }
  }

  /** With no quote before it, the first quoted text is found. */
  lemma QuotedTextOf(pre: string, v: string, post: string)
    requires '"' !in pre && '"' !in v
    ensures QuotedText(pre + "\"" + v + "\"" + post) == Some(v)
  {
    var rest := v + ['"'] + post;
    var line := pre + "\"" + v + "\"" + post;
    assert line == pre + ['"'] + rest;
    IndexAfter(pre, '"', rest);
    IndexAfter(v, '"', post);
    QuotedTextAt(line, |pre|, rest, |v|);
    assert rest[..|v|] == v;
  }

  /** The quoted text between a first quote at `start` and the next one
      `end` characters further on. */
  lemma QuotedTextAt(line: string, start: nat, rest: string, end: nat)
    requires IndexOf(line, '"') == Some(start) && start < |line| && line[start + 1..] == rest
    requires IndexOf(rest, '"') == Some(end) && end <= |rest|
    ensures QuotedText(line) == Some(rest[..end])
  {
    assert line[start + 1..start + 1 + end] == line[start + 1..][..end];
  }

  lemma {:induction false} ContainsPrefix(a: string, p: string, b: string)
    requires Contains(a, p)
    ensures Contains(a + b, p)
    decreases |a|
  {
    if p <= a {
      assert p <= a + b;
    } else {
      ContainsPrefix(a[1..], p, b);
      assert (a + b)[1..] == a[1..] + b;
    }
  }

  /** A line of the shape `…version…"v"…`, with no quote before the
      version text, names the version `QuotedMajor(v)`. */
  lemma QuotedLine(pre: string, v: string, post: string)
    requires '"' !in pre && '"' !in v
    requires Contains(pre, "version")
    ensures LineMajor(pre + "\"" + v + "\"" + post) == QuotedMajor(v)
  {
    ContainsPrefix(pre, "version", "\"" + v + "\"" + post);
    assert pre + ("\"" + v + "\"" + post) == pre + "\"" + v + "\"" + post;
    QuotedTextOf(pre, v, post);
  }

  /** A legacy version text "1.m.…" names the major `m`. */
  lemma LegacyMajor(m: string, rest: string)
    requires '.' !in m
    ensures QuotedMajor("1." + m + "." + rest) == ParseI32(m)
  {
    SplitAfterPiece(m, '.', rest);
    SplitAfterPiece("1", '.', m + "." + rest);
    assert "1" + ['.'] + (m + ['.'] + rest) == "1." + m + "." + rest;
  }

  /** A modern version text "m.…" names the major `m`. */
  lemma ModernMajor(m: string, rest: string)
    requires '.' !in m && m != "1"
    ensures QuotedMajor(m + "." + rest) == ParseI32(m)
  {
    var v := m + "." + rest;
    if |m| >= 2 {
      assert v[1] == m[1];
    } else if |m| == 1 {
      assert v[0] == m[0] && v[1] == '.';
      assert [m[0]] == m;
    } else {
      assert v[0] == '.';
    }
    SplitAfterPiece(m, '.', rest);
    assert m + ['.'] + rest == m + "." + rest;
  }

  /** The shapes the comments of `parse_java_major_version` name: the
      legacy "1.8.0_301" is Java 8 … */
  lemma LegacyExample()
    ensures QuotedMajor("1.8.0_301") == Some(8)
  {
    LegacyMajor("8", "0_301");
    assert "1." + "8" + "." + "0_301" == "1.8.0_301";
    ParseI32OfIntToString(8);
    assert IntToString(8) == "8";
  }

  /** … "17.0.2" is Java 17 … */
  lemma ModernExample()
    ensures QuotedMajor("17.0.2") == Some(17)
  {
    ModernMajor("17", "0.2");
    assert "17" + "." + "0.2" == "17.0.2";
    ParseI32OfIntToString(17);
    assert IntToString(17) == "17";
  }

  /** … while an early-access text such as "17-ea" names no version. */
  lemma EarlyAccessExample()
    ensures QuotedMajor("17-ea") == None
  {
    SplitWithoutSeparator("17-ea", '.');
    assert !IsDigit("17-ea"[2]);
  }

  /** `verify_java_version`: the executable is run; a failed start and an
      unparsable output are errors, otherwise the majors are compared. */
  function VerifyJavaVersion(run: Path -> Result<string, string>, javaPath: Path, required: int): (r: LResult<bool>)
    ensures r == Ok(true) <==> run(javaPath).Ok? && ParseJavaMajorVersion(run(javaPath).value) == Ok(required)
    ensures run(javaPath).Err? ==> r == Err(ProcessError("Failed to run java -version: " + run(javaPath).error))
  {
    match run(javaPath)
    case Err(e) => Err(ProcessError("Failed to run java -version: " + e))
    case Ok(stderr) =>
      match ParseJavaMajorVersion(stderr)
      case Err(e) => Err(e)
      case Ok(major) => Ok(major == required)
  }

  /** The check the searches apply to a candidate executable. */
  function VersionCheck(run: Path -> Result<string, string>, required: int): Path -> LResult<bool>
  {
    (javaPath: Path) => VerifyJavaVersion(run, javaPath, required)
  }

  /** An executable that passes the check; errors count as a failed check. */
  predicate Passes(check: Path -> LResult<bool>, javaPath: Path)
  {
    check(javaPath) == Ok(true)
  }

  // ---------------------------------------------------------------------
  // Searching (the searches see the version check as `check`)

  /** `bin/java`, `Contents/Home/bin/java`, `java` inside an installation. */
  function Candidates(dir: Path, os: Os): seq<Path>
  {
    var exe := JavaExecutableName(os);
    [dir + ["bin", exe], dir + ["Contents", "Home", "bin", exe], dir + [exe]]
  }

  function ExistingPath(root: Node): Path -> Option<Path>
  {
    (p: Path) => if PathExists(root, p) then Some(p) else None
  }

  /** `find_java_executable`: the first candidate that exists. */
  function JavaExecutableIn(root: Node, dir: Path, os: Os): (r: Option<Path>)
    ensures r.Some? ==> PathExists(root, r.value) && r.value in Candidates(dir, os)
    ensures r.None? <==> forall c :: c in Candidates(dir, os) ==> !PathExists(root, c)
  {
    var cs := Candidates(dir, os);
    var found := FirstSome(cs, ExistingPath(root));
    assert (found.None? <==> forall c :: c in cs ==> !PathExists(root, c))
           && (found.Some? ==> PathExists(root, found.value) && found.value in cs) by {
      FirstSomeMeaning(cs, ExistingPath(root));
      assert forall i :: 0 <= i < |cs| ==> ExistingPath(root)(cs[i]) == if PathExists(root, cs[i]) then Some(cs[i]) else None;
    }
    found
  }

  /** What one directory entry contributes: a subdirectory holding an
      executable that passes the check. */
  function InstallationAt(root: Node, dir: Path, check: Path -> LResult<bool>, os: Os): string -> Option<Path>
  {
    (name: string) =>
      if !PathIsDir(root, dir + [name]) then None
      else
        match JavaExecutableIn(root, dir + [name], os)
        case None => None
        case Some(exe) => if Passes(check, exe) then Some(exe) else None
  }

  /** `find_java_in_directory`, keeping only whether and what it found: its
      failures are discarded by its caller. */
  function JavaInDirectory(root: Node, dir: Path, check: Path -> LResult<bool>, os: Os): Option<Path>
  {
    if !PathIsDir(root, dir) then None
    else FirstSome(Listing(root, dir), InstallationAt(root, dir, check, os))
  }

  function OnPath(root: Node, check: Path -> LResult<bool>, os: Os): Path -> Option<Path>
  {
    (entry: Path) =>
      var p := entry + [JavaExecutableName(os)];
      if PathExists(root, p) && Passes(check, p) then Some(p) else None
  }

  /** `find_java_in_path`: the entries of PATH in order, when it is set. */
  function JavaOnPath(root: Node, pathVar: Option<seq<Path>>, check: Path -> LResult<bool>, os: Os): Option<Path>
  {
    match pathVar
    case None => None
    case Some(entries) => FirstSome(entries, OnPath(root, check, os))
  }

  function InDirectory(root: Node, check: Path -> LResult<bool>, os: Os): Path -> Option<Path>
  {
    (dir: Path) => JavaInDirectory(root, dir, check, os)
  }

  /** `search_java_installations`: the search directories in order, then
      PATH. */
  function SearchJava(root: Node, searchPaths: seq<Path>, pathVar: Option<seq<Path>>, required: int,
                      check: Path -> LResult<bool>, os: Os): LResult<Path>
  {
    match FirstSome(searchPaths, InDirectory(root, check, os))
    case Some(p) => Ok(p)
    case None =>
      match JavaOnPath(root, pathVar, check, os)
      case Some(p) => Ok(p)
      case None => Err(ConfigError("Could not find Java " + IntToString(required) + " installation"))
  }

  /** What a search directory yields exists and passes the check. */
  lemma DirectoryHitVerified(root: Node, dir: Path, check: Path -> LResult<bool>, os: Os)
    ensures var r := JavaInDirectory(root, dir, check, os);
      r.Some? ==> PathExists(root, r.value) && Passes(check, r.value)
  {
    var r := JavaInDirectory(root, dir, check, os);
    if r.Some? {
      var at := InstallationAt(root, dir, check, os);
      FirstSomeMeaning(Listing(root, dir), at);
      var j :| 0 <= j < |Listing(root, dir)| && at(Listing(root, dir)[j]) == r;
    }
  }

  /** What PATH yields exists and passes the check. */
  lemma PathHitVerified(root: Node, pathVar: Option<seq<Path>>, check: Path -> LResult<bool>, os: Os)
    ensures var r := JavaOnPath(root, pathVar, check, os);
      r.Some? ==> PathExists(root, r.value) && Passes(check, r.value)
  {
    var r := JavaOnPath(root, pathVar, check, os);
    if r.Some? {
      var onPath := OnPath(root, check, os);
      FirstSomeMeaning(pathVar.value, onPath);
      var i :| 0 <= i < |pathVar.value| && onPath(pathVar.value[i]) == r;
    }
  }

  /** Whatever the search finds exists and passes the version check. */
  lemma SearchFindsVerified(root: Node, searchPaths: seq<Path>, pathVar: Option<seq<Path>>, required: int,
                            check: Path -> LResult<bool>, os: Os)
    ensures var r := SearchJava(root, searchPaths, pathVar, required, check, os);
      r.Ok? ==> PathExists(root, r.value) && Passes(check, r.value)
  {
    var inDir := InDirectory(root, check, os);
    var found := FirstSome(searchPaths, inDir);
    FirstSomeMeaning(searchPaths, inDir);
    if found.Some? {
      var i :| 0 <= i < |searchPaths| && inDir(searchPaths[i]) == found;
      DirectoryHitVerified(root, searchPaths[i], check, os);
    } else {
      PathHitVerified(root, pathVar, check, os);
    }
  }

  /** A hit in an earlier search directory wins over everything after it,
      and PATH is consulted only when no search directory has one. */
  lemma SearchOrder(root: Node, searchPaths: seq<Path>, pathVar: Option<seq<Path>>, required: int,
                    check: Path -> LResult<bool>, os: Os, k: nat)
    requires k < |searchPaths| && JavaInDirectory(root, searchPaths[k], check, os).Some?
    requires forall i :: 0 <= i < k ==> JavaInDirectory(root, searchPaths[i], check, os).None?
    ensures SearchJava(root, searchPaths, pathVar, required, check, os) == Ok(JavaInDirectory(root, searchPaths[k], check, os).value)
  {
    var inDir := InDirectory(root, check, os);
    var found := FirstSome(searchPaths, inDir);
    FirstSomeMeaning(searchPaths, inDir);
    var i :| 0 <= i < |searchPaths| && inDir(searchPaths[i]) == found && forall j :: 0 <= j < i ==> inDir(searchPaths[j]).None?;
  }

  // ---------------------------------------------------------------------
  // The loops

  method FirstExisting(root: Node, candidates: seq<Path>) returns (r: Option<Path>)
    ensures r == FirstSome(candidates, ExistingPath(root))
  {
    var i := 0;
    while i < |candidates|
      invariant 0 <= i <= |candidates|
      invariant FirstSome(candidates, ExistingPath(root)) == FirstSome(candidates[i..], ExistingPath(root))
    {
      if PathExists(root, candidates[i]) {
        assert candidates[i..][0] == candidates[i];
        return Some(candidates[i]);
      }
      FirstSomeFrom(candidates, i, ExistingPath(root));
      i := i + 1;
    }
    return None;
  }

  method FindJavaExecutable(root: Node, dir: Path, os: Os) returns (r: Option<Path>)
    ensures r == JavaExecutableIn(root, dir, os)
  {
    r := FirstExisting(root, Candidates(dir, os));
  }

  method FindJavaInDirectory(root: Node, dir: Path, check: Path -> LResult<bool>, os: Os) returns (r: Option<Path>)
    ensures r == JavaInDirectory(root, dir, check, os)
  {
    if !PathIsDir(root, dir) {
      return None;
    }
    r := FirstInstallation(root, dir, Listing(root, dir), check, os);
  }

  /** The loop of `find_java_in_directory` over the names listed in `dir`. */
  method FirstInstallation(root: Node, dir: Path, names: seq<string>, check: Path -> LResult<bool>, os: Os)
    returns (r: Option<Path>)
    ensures r == FirstSome(names, InstallationAt(root, dir, check, os))
  {
    ghost var at := InstallationAt(root, dir, check, os);
    var i := 0;
    while i < |names|
      invariant 0 <= i <= |names|
      invariant FirstSome(names, at) == FirstSome(names[i..], at)
    {
      var found := InstallationStep(root, dir, names[i], check, os);
      if found.Some? {
        assert names[i..][0] == names[i];
        return found;
      }
      FirstSomeFrom(names, i, at);
      i := i + 1;
    }
    return None;
  }

  method InstallationStep(root: Node, dir: Path, name: string, check: Path -> LResult<bool>, os: Os)
    returns (r: Option<Path>)
    ensures r == InstallationAt(root, dir, check, os)(name)
  {
    var path := dir + [name];
    if !PathIsDir(root, path) {
      return None;
    }
    var exe := FindJavaExecutable(root, path, os);
    if exe.Some? && Passes(check, exe.value) {
      return exe;
    }
    return None;
  }

  method FindJavaInPath(root: Node, pathVar: Option<seq<Path>>, check: Path -> LResult<bool>, os: Os)
    returns (r: Option<Path>)
    ensures r == JavaOnPath(root, pathVar, check, os)
  {
    if pathVar.None? {
      return None;
    }
    var entries := pathVar.value;
    ghost var onPath := OnPath(root, check, os);
    var i := 0;
    while i < |entries|
      invariant 0 <= i <= |entries|
      invariant FirstSome(entries, onPath) == FirstSome(entries[i..], onPath)
    {
      var found := PathStep(root, entries[i], check, os);
      if found.Some? {
        assert entries[i..][0] == entries[i];
        return found;
      }
      FirstSomeFrom(entries, i, onPath);
      i := i + 1;
    }
    return None;
  }

  /** One entry of PATH: the executable in it, when it exists and passes
      the check. */
  method PathStep(root: Node, entry: Path, check: Path -> LResult<bool>, os: Os) returns (r: Option<Path>)
    ensures r == OnPath(root, check, os)(entry)
  {
    var p := entry + [JavaExecutableName(os)];
    if PathExists(root, p) && Passes(check, p) {
      return Some(p);
    }
    return None;
  }

  /** The first loop of `search_java_installations`: the search
      directories in order. */
  method SearchDirectories(root: Node, searchPaths: seq<Path>, check: Path -> LResult<bool>, os: Os)
    returns (r: Option<Path>)
    ensures r == FirstSome(searchPaths, InDirectory(root, check, os))
  {
    ghost var inDir := InDirectory(root, check, os);
    var i := 0;
    while i < |searchPaths|
      invariant 0 <= i <= |searchPaths|
      invariant FirstSome(searchPaths, inDir) == FirstSome(searchPaths[i..], inDir)
    {
      var found := FindJavaInDirectory(root, searchPaths[i], check, os);
      if found.Some? {
        assert searchPaths[i..][0] == searchPaths[i];
        return found;
      }
      FirstSomeFrom(searchPaths, i, inDir);
      i := i + 1;
    }
    return None;
  }

  method SearchJavaInstallations(root: Node, searchPaths: seq<Path>, pathVar: Option<seq<Path>>, required: int,
                                 check: Path -> LResult<bool>, os: Os) returns (r: LResult<Path>)
    ensures r == SearchJava(root, searchPaths, pathVar, required, check, os)
  {
    var found := SearchDirectories(root, searchPaths, check, os);
    if found.Some? {
      return Ok(found.value);
    }
    var onPath := FindJavaInPath(root, pathVar, check, os);
    if onPath.Some? {
      return Ok(onPath.value);
    }
    return Err(ConfigError("Could not find Java " + IntToString(required) + " installation"));
  }

  // ---------------------------------------------------------------------
  // The cache

  /** `find_java`: a cached path is returned when it still passes; a failed
      re-check is an error; otherwise the search runs and its hit is
      cached under the version. */
  function FindJavaStep(cache: map<int, Path>, required: int, search: LResult<Path>,
                        check: Path -> LResult<bool>): (r: (map<int, Path>, LResult<Path>))
    ensures r.1.Ok? ==> r.0 == cache[required := r.1.value]
    ensures r.1.Err? ==> r.0 == cache
    ensures required in cache && Passes(check, cache[required]) ==> r == (cache, Ok(cache[required]))
    ensures required in cache && check(cache[required]).Err? ==> r == (cache, Err(check(cache[required]).error))
    ensures required !in cache ==> r == (if search.Ok? then cache[required := search.value] else cache, search)
  {
    if required in cache && check(cache[required]).Err? then
      (cache, Err(check(cache[required]).error))
    else if required in cache && Passes(check, cache[required]) then
      (cache, Ok(cache[required]))
    else
      match search
      case Err(e) => (cache, Err(e))
      case Ok(p) => (cache[required := p], Ok(p))
  }

  /** Once a search has found an installation, the next lookup of that
      version answers from the cache without searching, while the check
      still passes. */
  lemma SecondLookupCached(cache: map<int, Path>, required: int, root: Node, searchPaths: seq<Path>,
                           pathVar: Option<seq<Path>>, check: Path -> LResult<bool>, os: Os,
                           later: LResult<Path>)
    requires required !in cache
    requires SearchJava(root, searchPaths, pathVar, required, check, os).Ok?
    ensures var first := FindJavaStep(cache, required, SearchJava(root, searchPaths, pathVar, required, check, os), check);
      FindJavaStep(first.0, required, later, check) == first
  {
    SearchFindsVerified(root, searchPaths, pathVar, required, check, os);
  }

  class JavaFinder {
    var cache: map<int, Path>

    constructor ()
      ensures cache == map[]
    {
      cache := map[];
    }

    /** `JavaFinder::find_java`. */
    method FindJava(required: int, root: Node, searchPaths: seq<Path>, pathVar: Option<seq<Path>>,
                    run: Path -> Result<string, string>, os: Os) returns (r: LResult<Path>)
      modifies this
      ensures var check := VersionCheck(run, required);
        (cache, r) == FindJavaStep(old(cache), required, SearchJava(root, searchPaths, pathVar, required, check, os), check)
    {
      var check := VersionCheck(run, required);
      if required in cache {
        var verified := check(cache[required]);
        if verified.Err? {
          return Err(verified.error);
        }
        if verified.value {
          return Ok(cache[required]);
        }
      }
      var found := SearchJavaInstallations(root, searchPaths, pathVar, required, check, os);
      if found.Err? {
        return found;
      }
      cache := cache[required := found.value];
      return found;
    }
  }

  // ---------------------------------------------------------------------
  // `download_file`

  /** What the plain downloader did: the new state, its error, and whether
      it sent a request. */
  datatype Fetch = Fetch(fs: FsState, error: Option<LauncherError>, requested: bool)

  /** The file is hashed in reads of at most 1024 bytes; the hasher sees the
      whole file in order. */
  method HashFile(data: Bytes, sha1: Bytes -> string) returns (digest: string)
    ensures digest == sha1(data)
  {
    var fed: Bytes := [];
    var i := 0;
    while i < |data|
      invariant 0 <= i <= |data|
      invariant fed == data[..i]
    {
      var n := if |data| - i < 1024 then |data| - i else 1024;
      fed := fed + data[i..i + n];
      assert data[..i + n] == data[..i] + data[i..i + n];
      i := i + n;
    }
    assert data[..i] == data;
    digest := sha1(fed);
  }

  /** The existing file is kept: it exists, a SHA-1 is given, and it
      matches. */
  predicate Skips(fs: FsState, path: Path, sha1: Option<string>, hash: Bytes -> string)
  {
    sha1.Some? && path in fs.files && hash(fs.files[path]) == sha1.value
  }

  /** `utils::download_file`: no parent directory is made, the status is
      not looked at, the body goes to the ".tmp" sibling, which is renamed
      over the destination with no check of the downloaded bytes. */
  function PlainDownload(fs: FsState, url: string, path: Path, sha1: Option<string>,
                         net: string -> Downloader.Response, hash: Bytes -> string): (d: Fetch)
    ensures Skips(fs, path, sha1, hash) ==> d == Fetch(fs, None, false)
    ensures d.requested <==> !Skips(fs, path, sha1, hash) && !(sha1.Some? && path in fs.dirs && path !in fs.files)
  {
    if sha1.Some? && Exists(fs, path) && path !in fs.files then Fetch(fs, Some(Io(fs.ioError)), false)
    else if Skips(fs, path, sha1, hash) then Fetch(fs, None, false)
    else
      var tmp := WithExtension(path, "tmp");
      match net(url)
      case SendFailed(reason) => Fetch(fs, Some(Http(reason)), true)
      case Response(_, _, _, chunks) =>
        match CreateFile(fs, tmp)
        case Err(e) => Fetch(fs, Some(Io(e)), true)
        case Ok(created) =>
          var streamed := Downloader.Stream(created, tmp, chunks, 0);
          if streamed.failure.Some? then
            var e := streamed.failure.value.reason;
            Fetch(streamed.fs, Some(if streamed.failure.value.ReadFailed? then Http(e) else Io(e)), true)
          else
            match Rename(streamed.fs, tmp, path)
            case Err(e) => Fetch(streamed.fs, Some(Io(e)), true)
            case Ok(moved) => Fetch(moved, None, true)
  }

  /** Any complete body is installed, whatever the status and whatever the
      SHA-1 of what arrived. */
  lemma InstallsWithoutChecks(fs: FsState, url: string, path: Path, sha1: Option<string>,
                              net: string -> Downloader.Response, hash: Bytes -> string)
    requires !Exists(fs, path)
    requires net(url).Response? && CreateFile(fs, WithExtension(path, "tmp")).Ok?
    requires Downloader.ReadChunks(net(url).chunks, 0).error.None? && !Downloader.WriteRefused(fs.diskFull, net(url).chunks)
    ensures var w := Append(CreateFile(fs, WithExtension(path, "tmp")).value, WithExtension(path, "tmp"),
                            Downloader.ReadChunks(net(url).chunks, 0).data);
      Rename(w, WithExtension(path, "tmp"), path).Ok? ==>
        var d := PlainDownload(fs, url, path, sha1, net, hash);
        d.error.None? && d.fs.files[path] == Downloader.ReadChunks(net(url).chunks, 0).data
  {
    var tmp := WithExtension(path, "tmp");
    var created := CreateFile(fs, tmp).value;
    Downloader.ReadChunksComplete(net(url).chunks, 0);
    Downloader.StreamMeaning(created, tmp, net(url).chunks, 0);
    Downloader.WrittenHoldsBody(fs, tmp, Downloader.ReadChunks(net(url).chunks, 0).data);
  }

  method DownloadFile(fs: FsState, url: string, path: Path, sha1: Option<string>,
                      net: string -> Downloader.Response, hash: Bytes -> string) returns (d: Fetch)
    ensures d == PlainDownload(fs, url, path, sha1, net, hash)
  {
    if Exists(fs, path) && sha1.Some? {
      if path !in fs.files {
        return Fetch(fs, Some(Io(fs.ioError)), false);
      }
      var digest := HashFile(fs.files[path], hash);
      if digest == sha1.value {
        return Fetch(fs, None, false);
      }
    }
    var tmp := WithExtension(path, "tmp");
    var response := net(url);
    if response.SendFailed? {
      return Fetch(fs, Some(Http(response.reason)), true);
    }
    var created := CreateFile(fs, tmp);
    if created.Err? {
      return Fetch(fs, Some(Io(created.error)), true);
    }
    var written, failure, _ := Downloader.StreamToFile(created.value, tmp, response.chunks, 0);
    if failure.Some? {
      var error := if failure.value.ReadFailed? then Http(failure.value.reason) else Io(failure.value.reason);
      return Fetch(written, Some(error), true);
    }
    var moved := Rename(written, tmp, path);
    if moved.Err? {
      return Fetch(written, Some(Io(moved.error)), true);
    }
    return Fetch(moved.value, None, true);
  }
}
