/** The Java runtime manager of java.rs: which Java a Minecraft version
    needs, the check of an executable's version, the search of the runtime
    directory (a directory tree, see DirTree) and the local steps of an
    installation (the directory name an archive is unpacked into, the
    choice of unpacker). Running `java -version` is given as `run`, from the
    executable's path to its standard-error text or the I/O error of the
    start. */
module JavaRuntime {
  import opened Wrappers
  import opened Strings
  import opened Platform
  import opened Paths
  import opened Errors
  import opened DirTree

  // ---------------------------------------------------------------------
  // The required version

  /** `get_required_java_version` (it never fails): "1.20" and later need
      Java 21, "1.17" to "1.19" Java 17, and everything else Java 8. A
      missing first piece counts as 1 and an unparsable second as 0. */
  function GetRequiredJavaVersion(version: string): (r: nat)
    ensures r == 8 || r == 17 || r == 21
  {
    var parts := Split(version, '.');
    if |parts| >= 2 then
      var major := ParseU32(parts[0]).UnwrapOr(1);
      var minor := ParseU32(parts[1]).UnwrapOr(0);
      if major == 1 then
        if minor >= 20 then 21 else if minor >= 17 then 17 else 8
      else 8
    else 8
  }

  /** Decimal formatting of a `u32` parses back. */
  lemma ParseU32OfNatToString(n: nat)
    requires n <= U32_MAX
    ensures ParseU32(NatToString(n)) == Some(n)
  {
    NatToStringValue(n);
    var s := NatToString(n);
    assert IsDigit(s[0]);
  }

  /** The first two pieces of "1.m…" are "1" and `m`. */
  lemma ReleaseParts(m: string, rest: string)
    requires '.' !in m
    requires rest == [] || rest[0] == '.'
    ensures var parts := Split("1." + m + rest, '.'); |parts| >= 2 && parts[0] == "1" && parts[1] == m
  {
    SplitAfterPiece("1", '.', m + rest);
    assert "1" + ['.'] + (m + rest) == "1." + m + rest;
    if rest == [] {
      SplitWithoutSeparator(m, '.');
      assert m + rest == m;
    } else {
      SplitAfterPiece(m, '.', rest[1..]);
      assert m + ['.'] + rest[1..] == m + rest;
    }
  }

  /** A release "1.m", "1.m.p", … needs the Java of its minor `m`. */
  lemma ReleaseRequirement(minor: nat, rest: string)
    requires minor <= U32_MAX
    requires rest == [] || rest[0] == '.'
    ensures GetRequiredJavaVersion("1." + NatToString(minor) + rest)
        == if minor >= 20 then 21 else if minor >= 17 then 17 else 8
  {
    var m := NatToString(minor);
    assert '.' !in m;
    ReleaseParts(m, rest);
    ParseU32OfNatToString(1);
    assert NatToString(1) == "1";
    ParseU32OfNatToString(minor);
  }

  /** A version without a dot (a snapshot such as "24w14a") gets Java 8. */
  lemma UndottedNeedsJava8(version: string)
    requires '.' !in version
    ensures GetRequiredJavaVersion(version) == 8
  {
    SplitWithoutSeparator(version, '.');
  }

  // ---------------------------------------------------------------------
  // Checking an executable

  /** `check_java_version`: only the first line of the standard error is
      read; it passes when it holds `"N` or `"1.N` for the expected major
      `N`. A failed start is an I/O error. */
  function CheckJavaVersion(run: Path -> Result<string, string>, javaPath: Path, expected: nat): LResult<bool>
  {
    match run(javaPath)
    case Err(e) => Err(Io(e))
    case Ok(stderr) =>
      var lines := Lines(stderr);
      if lines == [] then Ok(false)
      else Ok(Contains(lines[0], "\"" + NatToString(expected)) || Contains(lines[0], "\"1." + NatToString(expected)))
  }

  function Checker(run: Path -> Result<string, string>, expected: nat): Path -> LResult<bool>
  {
    (javaPath: Path) => CheckJavaVersion(run, javaPath, expected)
  }

  /** A first line with a quote followed by the expected major passes, and
      so does one where the major is only the start of a longer number (a
      check for 2 accepts `"21.0.1"`). */
  lemma QuotedMajorPasses(run: Path -> Result<string, string>, javaPath: Path, expected: nat, pre: string, post: string)
    requires run(javaPath).Ok? && Lines(run(javaPath).value) != []
    requires Lines(run(javaPath).value)[0] == pre + ("\"" + NatToString(expected)) + post
    ensures CheckJavaVersion(run, javaPath, expected) == Ok(true)
  {
    ContainsInfix(pre, "\"" + NatToString(expected), post);
  }

  /** A first line without a quote fails the check, whatever the lines
      after it say: unlike `parse_java_major_version`, the check does not
      look past the first line. */
  lemma UnquotedFirstLineFails(run: Path -> Result<string, string>, javaPath: Path, expected: nat)
    requires run(javaPath).Ok? && Lines(run(javaPath).value) != []
    requires '"' !in Lines(run(javaPath).value)[0]
    ensures CheckJavaVersion(run, javaPath, expected) == Ok(false)
  {
    var line := Lines(run(javaPath).value)[0];
    if Contains(line, "\"" + NatToString(expected)) {
      ContainsBounds(line, "\"" + NatToString(expected));
    }
    if Contains(line, "\"1." + NatToString(expected)) {
      ContainsBounds(line, "\"1." + NatToString(expected));
    }
  }

  // ---------------------------------------------------------------------
  // Finding the executable below a directory

  /** Every directory lists each name once, all the way down. */
  predicate WellFormed(n: Node)
  {
    n.DirNode? ==>
      (forall i, j :: 0 <= i < j < |n.entries| ==> n.entries[i].0 != n.entries[j].0)
      && forall i :: 0 <= i < |n.entries| ==> WellFormed(n.entries[i].1)
  }

  /** `find_java_executable_recursive` on the directory `n` found at `dir`:
      `bin/java`, then `Contents/Home/bin/java`, then the subdirectories in
      listing order, depth first. */
  function ExecutableBelow(n: Node, dir: Path, exe: string): Option<Path>
    decreases n, 1
  {
    if PathExists(n, ["bin", exe]) then Some(dir + ["bin", exe])
    else if PathExists(n, ["Contents", "Home", "bin", exe]) then Some(dir + ["Contents", "Home", "bin", exe])
    else if n.FileNode? then None
    else ExecutableAmong(n, 0, dir, exe)
  }

  /** The search through the entries of `n` from the `i`-th on. */
  function ExecutableAmong(n: Node, i: nat, dir: Path, exe: string): Option<Path>
    requires n.DirNode? && i <= |n.entries|
    decreases n, 0, |n.entries| - i
  {
    if i == |n.entries| then None
    else
      var child := n.entries[i].1;
      assert n.entries[i] in n.entries;
      if child.DirNode? then
        match ExecutableBelow(child, dir + [n.entries[i].0], exe)
        case Some(p) => Some(p)
        case None => ExecutableAmong(n, i + 1, dir, exe)
      else ExecutableAmong(n, i + 1, dir, exe)
  }

  /** In a well-formed tree the `i`-th entry is what its name looks up. */
  lemma EntryLookup(n: Node, i: nat, rest: Path)
    requires WellFormed(n) && n.DirNode? && i < |n.entries|
    ensures Lookup(n, [n.entries[i].0] + rest) == Lookup(n.entries[i].1, rest)
  {
    var name := n.entries[i].0;
    var k := EntryIndex(n.entries, name);
    assert k == Some(i);
    assert ([name] + rest)[0] == name && ([name] + rest)[1..] == rest;
  }

  /** What the search returns lies below `dir`, exists, and is called
      `exe`. */
  lemma {:induction false} ExecutableBelowSound(n: Node, dir: Path, exe: string)
    requires WellFormed(n)
    ensures var r := ExecutableBelow(n, dir, exe);
      r.Some? ==> |r.value| > |dir| && r.value[..|dir|] == dir && PathExists(n, r.value[|dir|..])
                  && r.value[|r.value| - 1] == exe
    decreases n, 1
  {
    var r := ExecutableBelow(n, dir, exe);
    if PathExists(n, ["bin", exe]) {
      assert r.value[|dir|..] == ["bin", exe];
    } else if PathExists(n, ["Contents", "Home", "bin", exe]) {
      assert r.value[|dir|..] == ["Contents", "Home", "bin", exe];
    } else if n.DirNode? {
      ExecutableAmongSound(n, 0, dir, exe);
    }
  }

  /** A hit inside the `i`-th entry lies below `dir`, exists in `n`, and
      is called `exe`. */
  lemma ChildHitSound(n: Node, i: nat, dir: Path, exe: string)
    requires WellFormed(n) && n.DirNode? && i < |n.entries|
    requires ExecutableBelow(n.entries[i].1, dir + [n.entries[i].0], exe).Some?
    ensures var p := ExecutableBelow(n.entries[i].1, dir + [n.entries[i].0], exe).value;
      |p| > |dir| && p[..|dir|] == dir && PathExists(n, p[|dir|..]) && p[|p| - 1] == exe
    decreases n, 0, 0
  {
    var name := n.entries[i].0;
    var child := n.entries[i].1;
    assert n.entries[i] in n.entries;
    ExecutableBelowSound(child, dir + [name], exe);
    var p := ExecutableBelow(child, dir + [name], exe).value;
    var rest := p[|dir| + 1..];
    assert p[..|dir|] == (dir + [name])[..|dir|] == dir;
    assert p[|dir|..] == [name] + rest;
    EntryLookup(n, i, rest);
  }

  lemma {:induction false} ExecutableAmongSound(n: Node, i: nat, dir: Path, exe: string)
    requires WellFormed(n) && n.DirNode? && i <= |n.entries|
    ensures var r := ExecutableAmong(n, i, dir, exe);
      r.Some? ==> |r.value| > |dir| && r.value[..|dir|] == dir && PathExists(n, r.value[|dir|..])
                  && r.value[|r.value| - 1] == exe
    decreases n, 0, |n.entries| - i
  {
    if i < |n.entries| {
      if n.entries[i].1.DirNode? && ExecutableBelow(n.entries[i].1, dir + [n.entries[i].0], exe).Some? {
        ChildHitSound(n, i, dir, exe);
      } else {
        ExecutableAmongSound(n, i + 1, dir, exe);
      }
    }
  }

  /** `find_java_executable_recursive`. */
  method FindJavaExecutableRecursive(n: Node, dir: Path, exe: string) returns (r: Option<Path>)
    ensures r == ExecutableBelow(n, dir, exe)
    decreases n, 1
  {
    if PathExists(n, ["bin", exe]) {
      return Some(dir + ["bin", exe]);
    }
    if PathExists(n, ["Contents", "Home", "bin", exe]) {
      return Some(dir + ["Contents", "Home", "bin", exe]);
    }
    if n.FileNode? {
      return None;
    }
    var i := 0;
    while i < |n.entries|
      invariant 0 <= i <= |n.entries|
      invariant ExecutableAmong(n, 0, dir, exe) == ExecutableAmong(n, i, dir, exe)
    {
      var child := n.entries[i].1;
      assert n.entries[i] in n.entries;
      if child.DirNode? {
        var found := FindJavaExecutableRecursive(child, dir + [n.entries[i].0], exe);
        if found.Some? {
          return found;
        }
      }
      i := i + 1;
    }
    return None;
  }

  // ---------------------------------------------------------------------
  // Searching the runtime directory

  /** The executable below the `k`-th entry, when that entry is a
      directory. */
  function RuntimeHit(es: seq<(string, Node)>, k: nat, dir: Path, exe: string): Option<Path>
    requires k < |es|
  {
    if es[k].1.DirNode? then ExecutableBelow(es[k].1, dir + [es[k].0], exe) else None
  }

  /** The executables below the entries of the runtime directory, entry by
      entry. */
  function RuntimeHits(es: seq<(string, Node)>, dir: Path, exe: string): seq<Option<Path>>
  {
    seq(|es|, k requires 0 <= k < |es| => RuntimeHit(es, k, dir, exe))
  }

  /** The loop of `find_java_runtime` from the `i`-th candidate on: the first
      executable that passes the check wins, and a check that fails to run
      aborts. */
  function FirstPassing(hits: seq<Option<Path>>, i: nat, check: Path -> LResult<bool>): LResult<Option<Path>>
    requires i <= |hits|
    decreases |hits| - i
  {
    if i == |hits| then Ok(None)
    else
      match hits[i]
      case None => FirstPassing(hits, i + 1, check)
      case Some(p) =>
        match check(p)
        case Err(e) => Err(e)
        case Ok(passed) => if passed then Ok(Some(p)) else FirstPassing(hits, i + 1, check)
  }

  /** The loop over the entries of the runtime directory from the `i`-th on. */
  function RuntimeAmong(es: seq<(string, Node)>, i: nat, dir: Path, exe: string, check: Path -> LResult<bool>): LResult<Option<Path>>
    requires i <= |es|
  {
    FirstPassing(RuntimeHits(es, dir, exe), i, check)
  }

  /** The `k`-th candidate is passed over: there is no executable, or it is
      of another version. */
  predicate Rejected(hits: seq<Option<Path>>, k: nat, check: Path -> LResult<bool>)
    requires k < |hits|
  {
    hits[k].None? || check(hits[k].value) == Ok(false)
  }

  /** Every candidate from the `i`-th on is passed over. */
  predicate AllRejected(hits: seq<Option<Path>>, i: nat, check: Path -> LResult<bool>)
  {
    forall k :: i <= k < |hits| ==> Rejected(hits, k, check)
  }

  /** The loop finds nothing exactly when every candidate from the `i`-th on
      is passed over. */
  lemma {:induction false} FirstPassingNone(hits: seq<Option<Path>>, i: nat, check: Path -> LResult<bool>)
    requires i <= |hits|
    ensures FirstPassing(hits, i, check) == Ok(None) <==> AllRejected(hits, i, check)
    decreases |hits| - i
  {
    if i < |hits| {
      FirstPassingNone(hits, i + 1, check);
      if Rejected(hits, i, check) {
        assert FirstPassing(hits, i, check) == FirstPassing(hits, i + 1, check);
        assert AllRejected(hits, i, check) <==> AllRejected(hits, i + 1, check);
      } else {
        assert FirstPassing(hits, i, check) != Ok(None);
      }
    }
  }

  /** What the loop finds is the first candidate that is not passed over,
      and it passed the check. */
  lemma {:induction false} FirstPassingFound(hits: seq<Option<Path>>, i: nat, check: Path -> LResult<bool>)
    requires i <= |hits|
    ensures var r := FirstPassing(hits, i, check);
      r.Ok? && r.value.Some? ==>
        exists k :: i <= k < |hits| && hits[k] == r.value && check(r.value.value) == Ok(true)
          && forall j :: i <= j < k ==> Rejected(hits, j, check)
    decreases |hits| - i
  {
    if i < |hits| {
      var r := FirstPassing(hits, i, check);
      if Rejected(hits, i, check) {
        FirstPassingFound(hits, i + 1, check);
        if r.Ok? && r.value.Some? {
          var k :| i + 1 <= k < |hits| && hits[k] == r.value && check(r.value.value) == Ok(true)
            && forall j :: i + 1 <= j < k ==> Rejected(hits, j, check);
          assert forall j :: i <= j < k ==> Rejected(hits, j, check);
        }
      }
    }
  }

  /** What the loop finds is one of the candidates, and it passed the
      check. */
  lemma FirstPassingHit(hits: seq<Option<Path>>, i: nat, check: Path -> LResult<bool>)
    requires i <= |hits|
    ensures var r := FirstPassing(hits, i, check);
      r.Ok? && r.value.Some? ==> check(r.value.value) == Ok(true) && exists k :: i <= k < |hits| && hits[k] == r.value
  {
    FirstPassingFound(hits, i, check);
  }

  /** A check that fails to run ends the loop with its error, at the first
      candidate that is not passed over. */
  lemma {:induction false} FirstPassingError(hits: seq<Option<Path>>, i: nat, check: Path -> LResult<bool>)
    requires i <= |hits|
    ensures var r := FirstPassing(hits, i, check);
      r.Err? ==>
        exists k :: i <= k < |hits| && hits[k].Some? && check(hits[k].value) == Err(r.error)
          && forall j :: i <= j < k ==> Rejected(hits, j, check)
    decreases |hits| - i
  {
    if i < |hits| {
      var r := FirstPassing(hits, i, check);
      if Rejected(hits, i, check) {
        FirstPassingError(hits, i + 1, check);
        if r.Err? {
          var k :| i + 1 <= k < |hits| && hits[k].Some? && check(hits[k].value) == Err(r.error)
            && forall j :: i + 1 <= j < k ==> Rejected(hits, j, check);
          assert forall j :: i <= j < k ==> Rejected(hits, j, check);
        }
      }
    }
  }

  /** `find_java_runtime`, with the tree after it: a missing runtime
      directory is created and nothing is found; a runtime path that is not
      a directory cannot be listed. `ioError` is the system's report of a
      failed directory operation. */
  function JavaRuntimeIn(root: Node, runtimeDir: Path, major: nat, run: Path -> Result<string, string>, os: Os,
                         ioError: string): (Node, LResult<Option<Path>>)
  {
    RuntimeIn(root, runtimeDir, JavaExecutableName(os), Checker(run, major), ioError)
  }

  /** `find_java_runtime` for any version check. */
  function RuntimeIn(root: Node, runtimeDir: Path, exe: string, check: Path -> LResult<bool>, ioError: string)
    : (Node, LResult<Option<Path>>)
  {
    if !PathExists(root, runtimeDir) then
      match MakeDirs(root, runtimeDir)
      case None => (root, Err(Io(ioError)))
      case Some(made) => (made, Ok(None))
    else if !PathIsDir(root, runtimeDir) then (root, Err(Io(ioError)))
    else
      (root, RuntimeAmong(Lookup(root, runtimeDir).value.entries, 0, runtimeDir, exe, check))
  }

  /** What the loop returns is the executable below some subdirectory
      entry from the `i`-th on, and it passed the check. */
  lemma RuntimeAmongHit(es: seq<(string, Node)>, i: nat, dir: Path, exe: string, check: Path -> LResult<bool>)
    requires i <= |es|
    ensures var r := RuntimeAmong(es, i, dir, exe, check);
      r.Ok? && r.value.Some? ==>
        check(r.value.value) == Ok(true)
        && exists k :: i <= k < |es| && es[k].1.DirNode? && ExecutableBelow(es[k].1, dir + [es[k].0], exe) == r.value
  {
    var hits := RuntimeHits(es, dir, exe);
    var r := RuntimeAmong(es, i, dir, exe, check);
    FirstPassingFound(hits, i, check);
    if r.Ok? && r.value.Some? {
      var k :| i <= k < |hits| && hits[k] == r.value && check(r.value.value) == Ok(true)
        && forall j :: i <= j < k ==> Rejected(hits, j, check);
      assert hits[k] == RuntimeHit(es, k, dir, exe);
    }
  }

  /** A candidate the loop returns lies below `dir`, exists in `d`, and is
      called `exe`. */
  lemma FoundSound(d: Node, i: nat, dir: Path, exe: string, check: Path -> LResult<bool>, p: Path)
    requires WellFormed(d) && d.DirNode? && i <= |d.entries|
    requires FirstPassing(RuntimeHits(d.entries, dir, exe), i, check) == Ok(Some(p))
    ensures check(p) == Ok(true) && |p| > |dir| && p[..|dir|] == dir && PathExists(d, p[|dir|..]) && p[|p| - 1] == exe
  {
    var hits := RuntimeHits(d.entries, dir, exe);
    FirstPassingHit(hits, i, check);
    var k :| i <= k < |hits| && hits[k] == Some(p);
    assert hits[k] == RuntimeHit(d.entries, k, dir, exe);
    HitSound(d, k, dir, exe, p);
  }

  /** The candidate of the `k`-th entry lies below `dir`, exists in `d`,
      and is called `exe`. */
  lemma HitSound(d: Node, k: nat, dir: Path, exe: string, p: Path)
    requires WellFormed(d) && d.DirNode? && k < |d.entries| && RuntimeHit(d.entries, k, dir, exe) == Some(p)
    ensures |p| > |dir| && p[..|dir|] == dir && PathExists(d, p[|dir|..]) && p[|p| - 1] == exe
  {
    ChildHitSound(d, k, dir, exe);
  }

  /** What the loop returns passed the check, exists in the tree, and is
      named like the Java executable. */
  lemma RuntimeAmongSound(d: Node, i: nat, dir: Path, exe: string, check: Path -> LResult<bool>)
    requires WellFormed(d) && d.DirNode? && i <= |d.entries|
    ensures var r := RuntimeAmong(d.entries, i, dir, exe, check);
      r.Ok? && r.value.Some? ==>
        var p := r.value.value;
        check(p) == Ok(true) && |p| > |dir| && p[..|dir|] == dir && PathExists(d, p[|dir|..]) && p[|p| - 1] == exe
  {
    var r := RuntimeAmong(d.entries, i, dir, exe, check);
    if r.Ok? && r.value.Some? {
      FoundSound(d, i, dir, exe, check, r.value.value);
    }
  }

  /** A path that starts with `dir` and continues to something inside it
      exists from the root. */
  lemma ExistsBelow(root: Node, dir: Path, p: Path)
    requires PathIsDir(root, dir) && |p| >= |dir| && p[..|dir|] == dir
    requires PathExists(Lookup(root, dir).value, p[|dir|..])
    ensures PathExists(root, p)
  {
    LookupAppend(root, dir, p[|dir|..]);
    assert dir + p[|dir|..] == p;
  }

  /** What the search returns, for any check, exists in the tree, is
      named `exe`, and passed the check; the tree is left as it was. */
  lemma RuntimeInSound(root: Node, runtimeDir: Path, exe: string, check: Path -> LResult<bool>, ioError: string)
    requires WellFormed(root)
    ensures var (after, r) := RuntimeIn(root, runtimeDir, exe, check, ioError);
      r.Ok? && r.value.Some? ==>
        var p := r.value.value;
        after == root && PathExists(root, p) && |p| > 0 && p[|p| - 1] == exe && check(p) == Ok(true)
  {
    var (after, r) := RuntimeIn(root, runtimeDir, exe, check, ioError);
    if PathIsDir(root, runtimeDir) {
      var d := Lookup(root, runtimeDir).value;
      LookupWellFormed(root, runtimeDir);
      RuntimeAmongSound(d, 0, runtimeDir, exe, check);
      if r.Ok? && r.value.Some? {
        ExistsBelow(root, runtimeDir, r.value.value);
      }
    }
  }

  /** A runtime `find_java_runtime` returns exists in the tree, is the
      platform's Java executable and passes the check for the major. */
  lemma FoundRuntimeSound(root: Node, runtimeDir: Path, major: nat, run: Path -> Result<string, string>, os: Os, ioError: string)
    requires WellFormed(root)
    ensures var (after, r) := JavaRuntimeIn(root, runtimeDir, major, run, os, ioError);
      r.Ok? && r.value.Some? ==>
        var p := r.value.value;
        after == root && PathExists(root, p) && |p| > 0 && p[|p| - 1] == JavaExecutableName(os)
        && CheckJavaVersion(run, p, major) == Ok(true)
  {
    RuntimeInSound(root, runtimeDir, JavaExecutableName(os), Checker(run, major), ioError);
  }

  /** In a runtime directory that can be listed, with `hits` the executables
      below its entries in listing order, the search finds nothing exactly
      when every entry is passed over, and otherwise stops at the first
      entry that is not: with its executable, which passed the check, or
      with the check's error. The tree is left as it was. */
  lemma RuntimeInFirst(root: Node, runtimeDir: Path, exe: string, check: Path -> LResult<bool>, ioError: string)
    requires PathIsDir(root, runtimeDir)
    ensures RuntimeIn(root, runtimeDir, exe, check, ioError).0 == root
    ensures var r := RuntimeIn(root, runtimeDir, exe, check, ioError).1;
      var hits := RuntimeHits(Lookup(root, runtimeDir).value.entries, runtimeDir, exe);
      && (r == Ok(None) <==> AllRejected(hits, 0, check))
      && (r.Ok? && r.value.Some? ==>
            exists k :: 0 <= k < |hits| && hits[k] == r.value && check(r.value.value) == Ok(true)
              && forall j :: 0 <= j < k ==> Rejected(hits, j, check))
      && (r.Err? ==>
            exists k :: 0 <= k < |hits| && hits[k].Some? && check(hits[k].value) == Err(r.error)
              && forall j :: 0 <= j < k ==> Rejected(hits, j, check))
  {
    var hits := RuntimeHits(Lookup(root, runtimeDir).value.entries, runtimeDir, exe);
    FirstPassingNone(hits, 0, check);
    FirstPassingFound(hits, 0, check);
    FirstPassingError(hits, 0, check);
  }

  /** `find_java_runtime` with the version check for `major`: nothing is
      found exactly when no subdirectory's executable reports that major,
      and what is found is the first that does. */
  lemma JavaRuntimeFirst(root: Node, runtimeDir: Path, major: nat, run: Path -> Result<string, string>, os: Os, ioError: string)
    requires PathIsDir(root, runtimeDir)
    ensures var r := JavaRuntimeIn(root, runtimeDir, major, run, os, ioError).1;
      var hits := RuntimeHits(Lookup(root, runtimeDir).value.entries, runtimeDir, JavaExecutableName(os));
      && (r == Ok(None) <==> AllRejected(hits, 0, Checker(run, major)))
      && (r.Ok? && r.value.Some? ==>
            exists k :: 0 <= k < |hits| && hits[k] == r.value
              && CheckJavaVersion(run, r.value.value, major) == Ok(true)
              && forall j :: 0 <= j < k ==> Rejected(hits, j, Checker(run, major)))
  {
    RuntimeInFirst(root, runtimeDir, JavaExecutableName(os), Checker(run, major), ioError);
  }

  /** The candidates are the executables below the entries, one per entry. */
  lemma RuntimeHitsAt(es: seq<(string, Node)>, dir: Path, exe: string, k: nat)
    requires k < |es|
    ensures |RuntimeHits(es, dir, exe)| == |es|
    ensures RuntimeHits(es, dir, exe)[k] == if es[k].1.DirNode? then ExecutableBelow(es[k].1, dir + [es[k].0], exe) else None
  {
  }

  /** A missing runtime directory is left behind as an empty directory,
      and nothing is found in it. */
  lemma MissingRuntimeDirCreated(root: Node, runtimeDir: Path, major: nat, run: Path -> Result<string, string>, os: Os, ioError: string)
    requires !PathExists(root, runtimeDir)
    ensures var (after, r) := JavaRuntimeIn(root, runtimeDir, major, run, os, ioError);
      && (r.Ok? <==> MakeDirs(root, runtimeDir).Some?)
      && (r.Ok? ==> r.value.None? && Lookup(after, runtimeDir) == Some(DirNode([])))
  {
    if MakeDirs(root, runtimeDir).Some? {
      MakeDirsMakesDir(root, runtimeDir);
    }
  }

  /** What a well-formed tree holds is well-formed. */
  lemma {:induction false} LookupWellFormed(n: Node, p: Path)
    requires WellFormed(n) && Lookup(n, p).Some?
    ensures WellFormed(Lookup(n, p).value)
    decreases |p|
  {
    if p != [] {
      var k := EntryIndex(n.entries, p[0]).value;
      LookupWellFormed(n.entries[k].1, p[1..]);
    }
  }

  /** `find_java_runtime`. */
  method FindJavaRuntime(root: Node, runtimeDir: Path, major: nat, run: Path -> Result<string, string>, os: Os,
                         ioError: string) returns (after: Node, r: LResult<Option<Path>>)
    ensures (after, r) == JavaRuntimeIn(root, runtimeDir, major, run, os, ioError)
  {
    after := root;
    if !PathExists(root, runtimeDir) {
      var made := MakeDirs(root, runtimeDir);
      if made.None? {
        return root, Err(Io(ioError));
      }
      return made.value, Ok(None);
    }
    if !PathIsDir(root, runtimeDir) {
      return root, Err(Io(ioError));
    }
    var es := Lookup(root, runtimeDir).value.entries;
    var exe := JavaExecutableName(os);
    ghost var check := Checker(run, major);
    var i := 0;
    while i < |es|
      invariant 0 <= i <= |es|
      invariant RuntimeAmong(es, 0, runtimeDir, exe, check) == RuntimeAmong(es, i, runtimeDir, exe, check)
    {
      if es[i].1.DirNode? {
        var found := FindJavaExecutableRecursive(es[i].1, runtimeDir + [es[i].0], exe);
        if found.Some? {
          var passed := CheckJavaVersion(run, found.value, major);
          if passed.Err? {
            return root, Err(passed.error);
          }
          if passed.value {
            return root, Ok(found);
          }
        }
      }
      i := i + 1;
    }
    return root, Ok(None);
  }

  /** `get_java_runtime`: the runtime for the version's required Java. */
  method GetJavaRuntime(root: Node, runtimeDir: Path, version: string, run: Path -> Result<string, string>, os: Os,
                        ioError: string) returns (after: Node, r: LResult<Option<Path>>)
    ensures (after, r) == JavaRuntimeIn(root, runtimeDir, GetRequiredJavaVersion(version), run, os, ioError)
  {
    after, r := FindJavaRuntime(root, runtimeDir, GetRequiredJavaVersion(version), run, os, ioError);
  }

  // ---------------------------------------------------------------------
  // Installing an archive

  /** `get_extraction_dir_name`: ".tar.gz", then ".zip", removed wherever
      they occur. */
  function GetExtractionDirName(fileName: string): string
  {
    Replace(Replace(fileName, ".tar.gz", ""), ".zip", "")
  }

  /** No occurrence of `pat` starts inside the first `k` characters. */
  predicate NoMatchBefore(s: string, pat: string, k: nat)
    requires k <= |s|
  {
    forall i :: 0 <= i < k ==> !(pat <= s[i..])
  }

  /** A ".zip" archive unpacks into the directory named by its stem. */
  lemma ZipExtractionDir(stem: string)
    requires NoMatchBefore(stem + ".zip", ".zip", |stem|)
    requires !Contains(stem + ".zip", ".tar.gz")
    ensures GetExtractionDirName(stem + ".zip") == stem
  {
    ReplaceAbsent(stem + ".zip", ".tar.gz", "");
    ReplaceAfter(stem, ".zip", ".zip", "");
    assert ".zip"[|".zip"|..] == [];
    assert stem + [] == stem;
  }

  /** A ".tar.gz" archive unpacks into the directory named by its stem. */
  lemma TarGzExtractionDir(stem: string)
    requires NoMatchBefore(stem + ".tar.gz", ".tar.gz", |stem|)
    requires !Contains(stem, ".zip")
    ensures GetExtractionDirName(stem + ".tar.gz") == stem
  {
    ReplaceAfter(stem, ".tar.gz", ".tar.gz", "");
    assert ".tar.gz"[|".tar.gz"|..] == [];
    assert stem + [] == stem;
    ReplaceAbsent(stem, ".zip", "");
  }

  /** `get_os_arch`: the names the Azul catalogue uses; an ARM machine asks
      for x86-64 builds, to run them under translation. */
  function GetOsArch(p: Platform): (r: (string, string))
    ensures r.1 == (if p.arch == OtherArch then "x32" else "x64")
    ensures r.0 == (if p.os == Windows then "windows" else if p.os == MacOs then "macos" else "linux")
  {
    var os := if p.os == Windows then "windows" else if p.os == MacOs then "macos" else "linux";
    var arch := match p.arch
      case X86_64 => "x64"
      case Aarch64 => "x64"
      case OtherArch => "x32";
    (os, arch)
  }

  /** How an archive is unpacked, by its extension. */
  datatype Unpacker = TarGz | ZipFile | NoUnpacker

  function UnpackerFor(archive: Path): Unpacker
  {
    if archive == [] then NoUnpacker
    else
      match Extension(archive[|archive| - 1])
      case Some(ext) => if ext == "gz" then TarGz else if ext == "zip" then ZipFile else NoUnpacker
      case None => NoUnpacker
  }

  /** `extract_archive`: the archive is opened, then unpacked with the
      unpacker of its extension; any other extension is accepted without
      unpacking. `openError` is the failure of opening, `tarError` the I/O
      failure of unpacking a tarball, `zipError` the failure of reading or
      unpacking a ZIP file; the files unpacked are not modelled. */
  function ExtractArchive(archive: Path, openError: Option<string>, tarError: Option<string>,
                          zipError: Option<string>): (r: LResult<Unpacker>)
    ensures r.Ok? ==> r.value == UnpackerFor(archive)
    ensures r.Ok? <==> openError.None? && (UnpackerFor(archive) == TarGz ==> tarError.None?)
                       && (UnpackerFor(archive) == ZipFile ==> zipError.None?)
    ensures openError.Some? ==> r == Err(Io(openError.value))
    ensures openError.None? && UnpackerFor(archive) == TarGz && tarError.Some? ==> r == Err(Io(tarError.value))
    ensures openError.None? && UnpackerFor(archive) == ZipFile && zipError.Some? ==> r == Err(Zip(zipError.value))
  {
    if openError.Some? then Err(Io(openError.value))
    else
      match UnpackerFor(archive)
      case TarGz => if tarError.Some? then Err(Io(tarError.value)) else Ok(TarGz)
      case ZipFile => if zipError.Some? then Err(Zip(zipError.value)) else Ok(ZipFile)
      case NoUnpacker => Ok(NoUnpacker)
  }

  /** A ".tar.gz" archive goes to the tarball unpacker, since its extension
      is "gz". */
  lemma TarballUnpacked(dir: Path, stem: string)
    requires stem != [] && '.' !in stem
    ensures UnpackerFor(dir + [stem + ".tar.gz"]) == TarGz
  {
    var name := stem + ".tar.gz";
    assert (dir + [name])[|dir + [name]| - 1] == name;
    assert name[|stem| + 4] == '.';
    assert name[|stem| + 5..] == "gz";
    assert '.' !in name[|stem| + 5..];
  }
}
