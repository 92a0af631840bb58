/** The command line of a launch (`build_classpath`,
    `substitute_argument_variables`, `build_game_arguments`,
    `build_launch_arguments` in launcher.rs). */
module LaunchArguments {
  import opened Wrappers
  import opened Strings
  import opened Platform
  import opened Paths
  import opened FileSystem
  import opened Version
  import opened Auth
  import opened Config
  import opened Rules
  import opened Libraries
  import opened LaunchTasks
  import opened Seqs

  // ---------------------------------------------------------------------
  // Classpath

  /** The separator of Java's classpath on the system. */
  function ClasspathSeparator(os: Os): char
  {
    if os == Windows then ';' else ':'
  }

  /** The classpath entry of every library that applies, in descriptor
      order, computed from the library's name alone. */
  function LibraryEntries(libs: seq<Library>, librariesDir: Path, os: Os): seq<string>
  {
    if libs == [] then []
    else
      var lib := libs[|libs| - 1];
      LibraryEntries(libs[..|libs| - 1], librariesDir, os)
        + (if LibraryApplies(lib, os) then [Display(LibraryPath(lib.name, librariesDir), os)] else [])
  }

  function ClasspathEntries(info: VersionInfo, instanceDir: Path, os: Os): seq<string>
  {
    LibraryEntries(info.libraries, LibrariesDir(instanceDir), os) + [Display(ClientJarPath(info, instanceDir), os)]
  }

  function Classpath(info: VersionInfo, instanceDir: Path, os: Os): string
  {
    Join(ClasspathEntries(info, instanceDir, os), [ClasspathSeparator(os)])
  }

  /** The number of libraries whose rules let them in. */
  function AppliesCount(libs: seq<Library>, os: Os): nat
  {
    if libs == [] then 0
    else AppliesCount(libs[..|libs| - 1], os) + (if LibraryApplies(libs[|libs| - 1], os) then 1 else 0)
  }

  lemma {:induction false} LibraryEntriesCount(libs: seq<Library>, librariesDir: Path, os: Os)
    ensures |LibraryEntries(libs, librariesDir, os)| == AppliesCount(libs, os)
  {
    if libs != [] {
      LibraryEntriesCount(libs[..|libs| - 1], librariesDir, os);
    }
  }

  /** `build_classpath`. */
  method BuildClasspath(info: VersionInfo, instanceDir: Path, os: Os) returns (cp: string)
    ensures cp == Classpath(info, instanceDir, os)
  {
    var librariesDir := LibrariesDir(instanceDir);
    var libs := info.libraries;
    var entries := [];
    var i := 0;
    while i < |libs|
      invariant 0 <= i <= |libs|
      invariant entries == LibraryEntries(libs[..i], librariesDir, os)
    {
      assert libs[..i + 1][..i] == libs[..i];
      var lib := libs[i];
      var applies := true;
      if lib.rules.Some? {
        applies := EvaluateRules(lib.rules.value, os);
      }
      if applies {
        entries := entries + [Display(LibraryPath(lib.name, librariesDir), os)];
      }
      i := i + 1;
    }
    assert libs[..i] == libs;
    entries := entries + [Display(ClientJarPath(info, instanceDir), os)];
    cp := Join(entries, [if os == Windows then ';' else ':']);
  }

  /** Cut at its separator, the classpath gives back one entry per library
      that applies, in order, and then the client jar, provided no path
      holds the separator itself. */
  lemma ClasspathSplits(info: VersionInfo, instanceDir: Path, os: Os)
    requires forall e :: e in ClasspathEntries(info, instanceDir, os) ==> ClasspathSeparator(os) !in e
    ensures Split(Classpath(info, instanceDir, os), ClasspathSeparator(os)) == ClasspathEntries(info, instanceDir, os)
    ensures |ClasspathEntries(info, instanceDir, os)| == AppliesCount(info.libraries, os) + 1
    ensures ClasspathEntries(info, instanceDir, os)[AppliesCount(info.libraries, os)] == Display(ClientJarPath(info, instanceDir), os)
  {
    var entries := ClasspathEntries(info, instanceDir, os);
    SplitJoin(entries, ClasspathSeparator(os));
    LibraryEntriesCount(info.libraries, LibrariesDir(instanceDir), os);
  }

  // ---------------------------------------------------------------------
  // Placeholders

  /** The placeholders, in the order they are replaced. */
  const TOKENS: seq<string> := [
    "${auth_player_name}", "${version_name}", "${game_directory}", "${assets_root}",
    "${game_assets}", "${auth_uuid}", "${auth_access_token}", "${user_type}",
    "${version_type}", "${resolution_width}", "${resolution_height}"
  ]

  function SafePlayerName(a: Account): string
  {
    if a.name == "" then "Player" else a.name
  }

  function SafeUuid(a: Account): string
  {
    if a.uuid == "" then "00000000-0000-0000-0000-000000000000" else a.uuid
  }

  function SafeAccessToken(a: Account): string
  {
    if a.accessToken == "" then "placeholder_token" else a.accessToken
  }

  function SafeUserType(a: Account): string
  {
    if a.accountType == "" then "msa" else a.accountType
  }

  /** What each placeholder stands for, in the order of `TOKENS`; empty
      account fields are replaced by fallbacks, and the version type is
      always "release". */
  function TokenValues(lc: LaunchConfig, instanceDir: Path, os: Os): (vs: seq<string>)
    ensures |vs| == |TOKENS|
  {
    [SafePlayerName(lc.account), lc.version, Display(instanceDir, os), Display(instanceDir + ["assets"], os),
     Display(instanceDir + ["assets"], os), SafeUuid(lc.account), SafeAccessToken(lc.account),
     SafeUserType(lc.account), "release", NatToString(lc.windowConfig.width), NatToString(lc.windowConfig.height)]
  }

  /** The chain of `replace` calls: each pattern replaced in turn in the
      result of the previous replacement. */
  function ReplaceAll(s: string, pats: seq<string>, reps: seq<string>): string
    requires |pats| == |reps| && forall i :: 0 <= i < |pats| ==> pats[i] != []
    decreases |pats|
  {
    if pats == [] then s else ReplaceAll(Replace(s, pats[0], reps[0]), pats[1..], reps[1..])
  }

  /** `substitute_argument_variables`. */
  function SubstituteVariables(arg: string, lc: LaunchConfig, instanceDir: Path, os: Os): string
  {
    ReplaceAll(arg, TOKENS, TokenValues(lc, instanceDir, os))
  }

  lemma {:induction false} ReplaceAllAbsent(s: string, pats: seq<string>, reps: seq<string>)
    requires |pats| == |reps| && forall i :: 0 <= i < |pats| ==> pats[i] != [] && !Contains(s, pats[i])
    ensures ReplaceAll(s, pats, reps) == s
  {
    if pats != [] {
      ReplaceAbsent(s, pats[0], reps[0]);
      ReplaceAllAbsent(s, pats[1..], reps[1..]);
    }
  }

  /** An argument without placeholders is passed on unchanged. */
  lemma SubstituteWithoutTokens(arg: string, lc: LaunchConfig, instanceDir: Path, os: Os)
    requires forall i :: 0 <= i < |TOKENS| ==> !Contains(arg, TOKENS[i])
    ensures SubstituteVariables(arg, lc, instanceDir, os) == arg
  {
    ReplaceAllAbsent(arg, TOKENS, TokenValues(lc, instanceDir, os));
  }

  /** An argument that is exactly the `k`-th pattern becomes the `k`-th
      value, when no earlier pattern occurs in it and no later one in the
      value. */
  lemma {:induction false} ReplaceAllSingle(pats: seq<string>, reps: seq<string>, k: nat)
    requires |pats| == |reps| && forall i :: 0 <= i < |pats| ==> pats[i] != []
    requires k < |pats|
    requires forall j :: 0 <= j < k ==> !Contains(pats[k], pats[j])
    requires forall j :: k < j < |pats| ==> !Contains(reps[k], pats[j])
    ensures ReplaceAll(pats[k], pats, reps) == reps[k]
  {
    if k == 0 {
      assert pats[0] <= pats[0];
      assert pats[0][|pats[0]|..] == [];
      assert Replace(pats[0], pats[0], reps[0]) == reps[0];
      ReplaceAllAbsent(reps[0], pats[1..], reps[1..]);
    } else {
      ReplaceAbsent(pats[k], pats[0], reps[0]);
      ReplaceAllSingle(pats[1..], reps[1..], k - 1);
    }
  }

  /** A placeholder is not found in a text whose only dollar sign is its
      first character, when the two differ at some position `k`. */
  lemma NotContainsToken(s: string, t: string, k: nat)
    requires k < |s| && k < |t| && s[0] == '$' && t[0] == '$' && s[k] != t[k]
    requires forall i :: 1 <= i < |s| ==> s[i] != '$'
    ensures !Contains(s, t)
  {
    if Contains(s, t) {
      var i := ContainsAt(s, t);
    }
  }

  /** A text without dollar signs holds no placeholder. */
  lemma NoDollarNoToken(s: string)
    requires '$' !in s
    ensures forall i :: 0 <= i < |TOKENS| ==> !Contains(s, TOKENS[i])
  {
    forall i | 0 <= i < |TOKENS|
      ensures !Contains(s, TOKENS[i])
    {
      if Contains(s, TOKENS[i]) {
        ContainsBounds(s, TOKENS[i]);
      }
    }
  }

  /** The player-name placeholder becomes the account's name, or "Player"
      when the name is empty, when the name holds no dollar sign. */
  lemma PlayerNameFallback(lc: LaunchConfig, instanceDir: Path, os: Os)
    requires '$' !in lc.account.name
    ensures SubstituteVariables("${auth_player_name}", lc, instanceDir, os)
      == (if lc.account.name == "" then "Player" else lc.account.name)
  {
    var vs := TokenValues(lc, instanceDir, os);
    assert '$' !in "Player";
    NoDollarNoToken(vs[0]);
    ReplaceAllSingle(TOKENS, vs, 0);
  }

  /** No earlier placeholder occurs in the version-type placeholder. */
  lemma VersionTypeClear()
    ensures forall j :: 0 <= j < 8 ==> !Contains(TOKENS[8], TOKENS[j])
  {
    var s := TOKENS[8];
    assert s[2] == 'v' && s[10] == 't' && forall i :: 1 <= i < |s| ==> s[i] != '$';
    forall j | 0 <= j < 8
      ensures !Contains(s, TOKENS[j])
    {
      if j == 1 {
        assert TOKENS[1][0] == '$' && TOKENS[1][10] == 'n';
        NotContainsToken(s, TOKENS[1], 10);
      } else {
        assert TOKENS[j][0] == '$' && TOKENS[j][2] in "agu";
        NotContainsToken(s, TOKENS[j], 2);
      }
    }
  }

  /** The version-type placeholder always becomes "release", whatever the
      descriptor's own type is. */
  lemma VersionTypeIsRelease(lc: LaunchConfig, instanceDir: Path, os: Os)
    ensures SubstituteVariables(TOKENS[8], lc, instanceDir, os) == "release"
  {
    var vs := TokenValues(lc, instanceDir, os);
    VersionTypeClear();
    assert '$' !in vs[8];
    NoDollarNoToken(vs[8]);
    ReplaceAllSingle(TOKENS, vs, 8);
  }

  // ---------------------------------------------------------------------
  // Game arguments

  /** The descriptor's game arguments that apply, before substitution: a
      plain string always, a conditional one's values when its rules
      allow. */
  function SelectedArgs(values: seq<ArgumentValue>, os: Os): seq<string>
  {
    if values == [] then []
    else SelectedArgs(values[..|values| - 1], os) + Selected(values[|values| - 1], os)
  }

  function Selected(v: ArgumentValue, os: Os): seq<string>
  {
    match v
    case Plain(t) => [t]
    case Conditional(rules, vs) => if RulesAllow(rules, os) then vs else []
  }

  /** One entry of the structured list, with its rules evaluated. */
  method SelectOne(v: ArgumentValue, os: Os) returns (more: seq<string>)
    ensures more == Selected(v, os)
  {
    match v {
      case Plain(t) =>
        more := [t];
      case Conditional(rules, vs) =>
        var allowed := EvaluateRules(rules, os);
        more := if allowed then vs else [];
    }
  }

  /** The structured list when the descriptor has one, otherwise the words
      of the legacy argument string, otherwise nothing. */
  function DescriptorGameArgs(info: VersionInfo, os: Os): seq<string>
  {
    if info.arguments.Some? then SelectedArgs(info.arguments.value.game, os)
    else if info.minecraftArguments.Some? then SplitWhitespace(info.minecraftArguments.value)
    else []
  }

  /** The loop pushing one mapped argument per value. */
  method MapList(values: seq<string>, f: string -> string) returns (r: seq<string>)
    ensures r == MapSeq(values, f)
  {
    r := [];
    var j := 0;
    while j < |values|
      invariant 0 <= j <= |values|
      invariant r == MapSeq(values[..j], f)
    {
      assert values[..j + 1][..j] == values[..j];
      r := r + [f(values[j])];
      j := j + 1;
    }
    assert values[..j] == values;
  }

  /** The substitution of one launch, as a function on arguments. */
  function Substitution(lc: LaunchConfig, instanceDir: Path, os: Os): string -> string
  {
    arg => SubstituteVariables(arg, lc, instanceDir, os)
  }

  /** `build_game_arguments`: the descriptor's arguments with their
      placeholders substituted, then the launch's extra arguments as they
      are. */
  function GameArguments(lc: LaunchConfig, info: VersionInfo, instanceDir: Path, os: Os): seq<string>
  {
    MapSeq(DescriptorGameArgs(info, os), Substitution(lc, instanceDir, os)) + lc.additionalGameArgs
  }

  method BuildGameArguments(lc: LaunchConfig, info: VersionInfo, instanceDir: Path, os: Os) returns (args: seq<string>)
    ensures args == GameArguments(lc, info, instanceDir, os)
  {
    var f := Substitution(lc, instanceDir, os);
    if info.arguments.Some? {
      args := MapSelected(info.arguments.value.game, os, f);
    } else if info.minecraftArguments.Some? {
      var words := SplitWhitespace(info.minecraftArguments.value);
      args := MapList(words, f);
    } else {
      args := [];
    }
    args := args + lc.additionalGameArgs;
  }

  /** The loop over a structured argument list: a plain string is taken,
      a conditional entry contributes its values when its rules allow. */
  method MapSelected(game: seq<ArgumentValue>, os: Os, f: string -> string) returns (args: seq<string>)
    ensures args == MapSeq(SelectedArgs(game, os), f)
  {
    args := [];
    var i := 0;
    while i < |game|
      invariant 0 <= i <= |game|
      invariant args == MapSeq(SelectedArgs(game[..i], os), f)
    {
      assert game[..i + 1][..i] == game[..i];
      var more := SelectOne(game[i], os);
      assert SelectedArgs(game[..i + 1], os) == SelectedArgs(game[..i], os) + more;
      var mapped := MapList(more, f);
      MapSeqAppend(SelectedArgs(game[..i], os), more, f);
      args := args + mapped;
      i := i + 1;
    }
    assert game[..i] == game;
  }

  /** A descriptor with a structured argument list never reads its legacy
      argument string. */
  lemma ModernArgumentsWin(lc: LaunchConfig, info: VersionInfo, instanceDir: Path, os: Os, legacy: Option<string>)
    requires info.arguments.Some?
    ensures GameArguments(lc, info.(minecraftArguments := legacy), instanceDir, os) == GameArguments(lc, info, instanceDir, os)
  {
  }

  /** Without a structured list, the legacy string gives one argument per
      word, each substituted, and the extra arguments follow unchanged. */
  lemma LegacyArgumentsPerWord(lc: LaunchConfig, info: VersionInfo, instanceDir: Path, os: Os)
    requires info.arguments.None? && info.minecraftArguments.Some?
    ensures var words := SplitWhitespace(info.minecraftArguments.value);
      var args := GameArguments(lc, info, instanceDir, os);
      && |args| == |words| + |lc.additionalGameArgs|
      && args[|words|..] == lc.additionalGameArgs
  {
  }

  // ---------------------------------------------------------------------
  // The whole command line

  /** `versions/<id>/natives` inside the instance. */
  function NativesDir(info: VersionInfo, instanceDir: Path): Path
  {
    instanceDir + ["versions", info.id, "natives"]
  }

  /** The four system properties that point the JVM at the native
      libraries. */
  function NativeFlags(natives: string): seq<string>
  {
    ["-Djava.library.path=" + natives, "-Djna.tmpdir=" + natives,
     "-Dorg.lwjgl.system.SharedLibraryExtractPath=" + natives, "-Dio.netty.native.workdir=" + natives]
  }

  function MemoryFlags(cfg: LauncherConfig): seq<string>
  {
    ["-Xms" + NatToString(cfg.memoryMin) + "m", "-Xmx" + NatToString(cfg.memoryMax) + "m"]
  }

  /** The assembly of the command line from its parts: the configured and
      the launch's JVM arguments, the two memory flags, the native flags,
      `-cp` and the classpath, the main class, then the game arguments. */
  function CommandLine(cfg: LauncherConfig, lc: LaunchConfig, natives: seq<string>, classpath: string,
                       mainClass: string, game: seq<string>): seq<string>
  {
    cfg.jvmArgs + lc.additionalJvmArgs + MemoryFlags(cfg) + natives + ["-cp", classpath, mainClass] + game
  }

  /** The native flags of a launch: present only when the natives directory
      exists. */
  function NativePart(info: VersionInfo, instanceDir: Path, os: Os, nativesExist: bool): (r: seq<string>)
    ensures |r| == if nativesExist then 4 else 0
  {
    if nativesExist then NativeFlags(Display(NativesDir(info, instanceDir), os)) else []
  }

  /** `build_launch_arguments`; `nativesExist` is whether the natives
      directory is there when the command line is built. */
  function LaunchArgs(cfg: LauncherConfig, lc: LaunchConfig, info: VersionInfo, instanceDir: Path, os: Os, nativesExist: bool): seq<string>
  {
    CommandLine(cfg, lc, NativePart(info, instanceDir, os, nativesExist), Classpath(info, instanceDir, os),
                info.mainClass, GameArguments(lc, info, instanceDir, os))
  }

  method BuildLaunchArguments(cfg: LauncherConfig, lc: LaunchConfig, info: VersionInfo, instanceDir: Path, os: Os, fs: FsState)
    returns (args: seq<string>)
    ensures args == LaunchArgs(cfg, lc, info, instanceDir, os, Exists(fs, NativesDir(info, instanceDir)))
  {
    var front := JvmOptions(cfg, lc, info, instanceDir, os, Exists(fs, NativesDir(info, instanceDir)));
    args := front;
    var cp := BuildClasspath(info, instanceDir, os);
    args := args + ["-cp"];
    args := args + [cp];
    args := args + [info.mainClass];
    assert args == front + ["-cp", cp, info.mainClass];
    var game := BuildGameArguments(lc, info, instanceDir, os);
    args := args + game;
  }

  /** The pushes before the classpath: JVM arguments, memory flags and,
      when the natives directory exists, the native flags. */
  method JvmOptions(cfg: LauncherConfig, lc: LaunchConfig, info: VersionInfo, instanceDir: Path, os: Os, nativesExist: bool)
    returns (args: seq<string>)
    ensures args == cfg.jvmArgs + lc.additionalJvmArgs + MemoryFlags(cfg) + NativePart(info, instanceDir, os, nativesExist)
  {
    args := cfg.jvmArgs + lc.additionalJvmArgs;
    args := args + ["-Xms" + NatToString(cfg.memoryMin) + "m"];
    args := args + ["-Xmx" + NatToString(cfg.memoryMax) + "m"];
    if nativesExist {
      var n := Display(NativesDir(info, instanceDir), os);
      args := args + ["-Djava.library.path=" + n];
      args := args + ["-Djna.tmpdir=" + n];
      args := args + ["-Dorg.lwjgl.system.SharedLibraryExtractPath=" + n];
      args := args + ["-Dio.netty.native.workdir=" + n];
    }
  }

  /** Where each part lands on the command line: the configured JVM
      arguments first, then the launch's, the two memory flags, the native
      flags, `-cp` followed by the classpath, the main class, and the game
      arguments last. */
  lemma CommandLineLayout(cfg: LauncherConfig, lc: LaunchConfig, natives: seq<string>, classpath: string,
                          mainClass: string, game: seq<string>)
    ensures var args := CommandLine(cfg, lc, natives, classpath, mainClass, game);
      var j := |cfg.jvmArgs| + |lc.additionalJvmArgs|;
      var cpAt := j + 2 + |natives|;
      && args[..|cfg.jvmArgs|] == cfg.jvmArgs
      && args[|cfg.jvmArgs|..j] == lc.additionalJvmArgs
      && args[j] == "-Xms" + NatToString(cfg.memoryMin) + "m"
      && args[j + 1] == "-Xmx" + NatToString(cfg.memoryMax) + "m"
      && args[j + 2..cpAt] == natives
      && args[cpAt] == "-cp" && args[cpAt + 1] == classpath
      && args[cpAt + 2] == mainClass
      && args[cpAt + 3..] == game
      && |args| == cpAt + 3 + |game|
  {
    var args := CommandLine(cfg, lc, natives, classpath, mainClass, game);
    var j := |cfg.jvmArgs| + |lc.additionalJvmArgs|;
    var cpAt := j + 2 + |natives|;
    assert args[..|cfg.jvmArgs|] == cfg.jvmArgs;
    assert args[|cfg.jvmArgs|..j] == lc.additionalJvmArgs;
    assert args[j + 2..cpAt] == natives;
    assert args[cpAt + 3..] == game;
  }

  /** The descriptor's structured JVM argument list never reaches the
      command line. */
  lemma JvmListUnused(cfg: LauncherConfig, lc: LaunchConfig, info: VersionInfo, instanceDir: Path, os: Os, nativesExist: bool, jvm: seq<ArgumentValue>)
    requires info.arguments.Some?
    ensures LaunchArgs(cfg, lc, info.(arguments := Some(info.arguments.value.(jvm := jvm))), instanceDir, os, nativesExist)
      == LaunchArgs(cfg, lc, info, instanceDir, os, nativesExist)
  {
  }
}
