/** The `Launcher` object of launcher.rs: its configuration, its Java
    finder and the list of processes it has started, which is shared (each
    entry is the same handle the caller got back). The download, argument
    and extraction steps of a launch are modelled in their own modules; here
    are the steps that use the launcher's own state: the directories of an
    instance, the Java executable, and the tracking and killing of
    processes. */
module Launchers {
  import opened Wrappers
  import opened Platform
  import opened Paths
  import opened Errors
  import opened FileSystem
  import opened DirTree
  import opened Auth
  import opened Version
  import opened Config
  import opened Minecraft
  import opened Utils

  // ---------------------------------------------------------------------
  // Directories

  /** The directories `Launcher::new` makes: the Minecraft directory, then
      its `cache`. */
  function LauncherDirs(fs: FsState, minecraftDir: Path): (r: (FsState, LResult<()>))
    ensures r.1.Ok? ==> minecraftDir + ["cache"] in r.0.dirs && (minecraftDir != [] ==> minecraftDir in r.0.dirs)
    ensures r.1.Ok? ==> r.0.files == fs.files && fs.dirs <= r.0.dirs
    ensures r.1.Err? ==> r.1.error.File?
  {
    match CreateDirAll(fs, minecraftDir)
    case Err(e) => (fs, Err(FileError("Failed to create minecraft directory: " + e)))
    case Ok(made) =>
      assert minecraftDir != [] ==> minecraftDir[..|minecraftDir|] == minecraftDir;
      var cache := minecraftDir + ["cache"];
      match CreateDirAll(made, cache)
      case Err(e) => (made, Err(FileError("Failed to create cache directory: " + e)))
      case Ok(done) =>
        assert cache[..|cache|] == cache;
        (done, Ok(()))
  }

  /** What building each HTTP client reports: `None` when it is built,
      otherwise the error text. `VersionManager::new` builds the first and
      `Downloader::new` the second. */
  datatype HttpClients = HttpClients(forVersions: Option<string>, forDownloads: Option<string>)

  /** `Launcher::new` up to the object itself: the directories, then the
      version manager's client (a Network error, which is the Download
      variant), then the downloader's client. */
  function LauncherSetup(fs: FsState, minecraftDir: Path, clients: HttpClients): (FsState, LResult<()>)
  {
    var dirs := LauncherDirs(fs, minecraftDir);
    if dirs.1.Err? then dirs
    else if clients.forVersions.Some? then (dirs.0, Err(NetworkError("Failed to create HTTP client: " + clients.forVersions.value)))
    else if clients.forDownloads.Some? then (dirs.0, Err(DownloadError("Failed to create HTTP client: " + clients.forDownloads.value)))
    else dirs
  }

  /** The setup succeeds exactly when both directories and both clients are
      made; a failing client leaves the directories made, and its error is
      a Download error naming the client's own text. */
  lemma LauncherSetupMeaning(fs: FsState, minecraftDir: Path, clients: HttpClients)
    ensures var r := LauncherSetup(fs, minecraftDir, clients);
      var dirs := LauncherDirs(fs, minecraftDir);
      && r.0 == dirs.0
      && (r.1.Ok? <==> dirs.1.Ok? && clients.forVersions.None? && clients.forDownloads.None?)
      && (dirs.1.Err? ==> r.1 == dirs.1 && r.1.error.File?)
      && (dirs.1.Ok? && clients.forVersions.Some? ==>
            r.1.Err? && r.1.error.Download? && r.1.error.msg == "Failed to create HTTP client: " + clients.forVersions.value)
      && (dirs.1.Ok? && clients.forVersions.None? && clients.forDownloads.Some? ==>
            r.1.Err? && r.1.error.Download? && r.1.error.msg == "Failed to create HTTP client: " + clients.forDownloads.value)
      && (r.1.Ok? ==> minecraftDir + ["cache"] in r.0.dirs && r.0.files == fs.files)
  {
    NetworkIsDownload("Failed to create HTTP client: " + clients.forVersions.UnwrapOr(""));
  }

  /** The ten directories of an instance, in the order they are made. */
  function InstanceDirectories(dir: Path): (ds: seq<Path>)
    ensures |ds| == 10 && ds[0] == dir
    ensures forall i :: 1 <= i < |ds| ==> |ds[i]| == |dir| + 1 && ds[i][..|dir|] == dir
  {
    [dir, dir + ["libraries"], dir + ["assets"], dir + ["versions"], dir + ["mods"], dir + ["resourcepacks"],
     dir + ["shaderpacks"], dir + ["saves"], dir + ["logs"], dir + ["crash-reports"]]
  }

  /** `setup_instance_directories` from the `i`-th directory on: each is
      made in turn and the first failure is reported with the directory. */
  function SetupDirs(fs: FsState, dirs: seq<Path>, i: nat, os: Os): LResult<FsState>
    requires i <= |dirs|
    decreases |dirs| - i
  {
    if i == |dirs| then Ok(fs)
    else
      match CreateDirAll(fs, dirs[i])
      case Err(e) => Err(FileError("Failed to create directory " + Paths.Display(dirs[i], os) + ": " + e))
      case Ok(made) => SetupDirs(made, dirs, i + 1, os)
  }

  /** After the setup succeeds every listed directory exists, the files are
      as before, and a path longer than all of them exists only if it did
      before. */
  lemma {:induction false} SetupDirsEffect(fs: FsState, dirs: seq<Path>, i: nat, os: Os, q: Path)
    requires i <= |dirs|
    requires forall j :: i <= j < |dirs| ==> |dirs[j]| < |q|
    ensures var r := SetupDirs(fs, dirs, i, os);
      r.Ok? ==> && r.value.files == fs.files
                && (forall j :: i <= j < |dirs| && dirs[j] != [] ==> dirs[j] in r.value.dirs)
                && fs.dirs <= r.value.dirs
                && (q in r.value.dirs <==> q in fs.dirs)
    decreases |dirs| - i
  {
    if i < |dirs| {
      match CreateDirAll(fs, dirs[i])
      case Err(_) =>
      case Ok(made) =>
        SetupDirsEffect(made, dirs, i + 1, os, q);
        if dirs[i] != [] {
          assert dirs[i][..|dirs[i]|] == dirs[i];
        }
        assert q !in set k | 1 <= k <= |dirs[i]| :: dirs[i][..k];
    }
  }

  /** The setup makes the whole instance tree but not the natives directory
      of any version, which the extraction step makes itself. */
  lemma SetupLeavesNatives(fs: FsState, instanceDir: Path, id: string, os: Os)
    ensures var r := SetupDirs(fs, InstanceDirectories(instanceDir), 0, os);
      r.Ok? ==> && (forall d :: d in InstanceDirectories(instanceDir) && d != [] ==> d in r.value.dirs)
                && (instanceDir + ["versions", id, "natives"] in r.value.dirs <==> instanceDir + ["versions", id, "natives"] in fs.dirs)
  {
    SetupDirsEffect(fs, InstanceDirectories(instanceDir), 0, os, instanceDir + ["versions", id, "natives"]);
  }

  /** `create_launch_config`: the version must be in the manifest; the
      configuration is the default one, in the instance named after the
      version. */
  function CreateLaunchConfig(fetched: JsonFetch<VersionManifest>, version: string, account: Account): (r: LResult<LaunchConfig>)
    ensures r.Ok? <==> FindVersion(fetched, version).Ok?
    ensures r.Err? ==> r.error == FindVersion(fetched, version).error
    ensures r.Ok? ==> r.value.version == version && r.value.instanceName == "instance-" + version && r.value.account == account
    ensures r.Ok? ==> r.value.modLoader.None? && r.value.windowConfig == DEFAULT_WINDOW && r.value.additionalJvmArgs == []
  {
    match FindVersion(fetched, version)
    case Err(e) => Err(e)
    case Ok(_) => Ok(NewLaunchConfig(version, "instance-" + version, account))
  }

  /** The Java version a descriptor asks for, 8 when it names none. */
  function RequiredJava(info: VersionInfo): int
  {
    if info.javaVersion.Some? then info.javaVersion.value.majorVersion else 8
  }

  /** The process handles' slots, in list order. */
  function States(ps: seq<MinecraftProcess>): (r: seq<ProcState>)
    reads ps
    ensures |r| == |ps| && forall i :: 0 <= i < |ps| ==> r[i] == ps[i].State()
  {
    if ps == [] then [] else States(ps[..|ps| - 1]) + [ps[|ps| - 1].State()]
  }

  /** How many of the slots hold a child. */
  function WithChild(s: seq<ProcState>): (n: nat)
    ensures n <= |s|
  {
    if s == [] then 0 else WithChild(s[..|s| - 1]) + (if s[|s| - 1].child.Some? then 1 else 0)
  }

  /** The handles whose stored status is Running, in order. */
  function RunningOnly(ps: seq<MinecraftProcess>): (r: seq<MinecraftProcess>)
    reads ps
    ensures forall i :: 0 <= i < |r| ==> r[i] in ps && r[i].status == Running
    ensures forall i :: 0 <= i < |ps| && ps[i].status == Running ==> ps[i] in r
    ensures |r| <= |ps|
  {
    if ps == [] then []
    else
      var init := RunningOnly(ps[..|ps| - 1]);
      var last := ps[|ps| - 1];
      assert forall i :: 0 <= i < |ps| - 1 ==> ps[i] == ps[..|ps| - 1][i];
      if last.status == Running then init + [last] else init
  }

  predicate Distinct(ps: seq<MinecraftProcess>)
  {
    forall i, j :: 0 <= i < j < |ps| ==> ps[i] != ps[j]
  }

  /** Filtering a list without repeats leaves none. */
  lemma {:induction false} RunningOnlyDistinct(ps: seq<MinecraftProcess>)
    requires Distinct(ps)
    ensures Distinct(RunningOnly(ps))
    decreases |ps|
  {
    if ps != [] {
      var init := ps[..|ps| - 1];
      assert Distinct(init);
      RunningOnlyDistinct(init);
      var r := RunningOnly(init);
      assert forall i :: 0 <= i < |r| ==> r[i] != ps[|ps| - 1];
    }
  }

  /** The loop of the filter: each handle is asked for its stored status
      and kept when it is Running. */
  method FilterRunning(ps: seq<MinecraftProcess>) returns (kept: seq<MinecraftProcess>)
    ensures kept == RunningOnly(ps)
  {
    kept := [];
    var i := 0;
    while i < |ps|
      invariant 0 <= i <= |ps|
      invariant kept == RunningOnly(ps[..i])
    {
      var s := ps[i].GetStatusAsync();
      assert ps[..i + 1][..i] == ps[..i];
      if s == Running {
        kept := kept + [ps[i]];
      }
      i := i + 1;
    }
    assert ps[..i] == ps;
  }

  /** The loop of `kill_all`: each handle is killed in turn and the
      successful kills are counted. */
  method KillEach(ps: seq<MinecraftProcess>, exits: MinecraftProcess -> WaitResult) returns (killed: nat)
    requires Distinct(ps)
    modifies ps
    ensures killed == WithChild(old(States(ps)))
    ensures forall j :: 0 <= j < |ps| ==> ps[j].State() == KillStep(old(States(ps))[j], exits(ps[j])).0
  {
    ghost var before := States(ps);
    killed := 0;
    var i := 0;
    while i < |ps|
      invariant 0 <= i <= |ps|
      invariant killed == WithChild(before[..i])
      invariant forall j :: 0 <= j < i ==> ps[j].State() == KillStep(before[j], exits(ps[j])).0
      invariant forall j :: i <= j < |ps| ==> ps[j].State() == before[j]
    {
      var r := ps[i].Kill(exits(ps[i]));
      assert before[..i + 1][..i] == before[..i];
      if r.Ok? {
        killed := killed + 1;
      }
      i := i + 1;
    }
    assert before[..i] == before;
  }

  /** A killed process stores a status other than Running, although
      `get_status` goes on reporting Running for it. */
  lemma KilledIsNotRunning(s: ProcState, w: WaitResult)
    requires s.child.Some?
    ensures KillStep(s, w).0.status != Running
  {
  }

  class Launcher {
    var config: LauncherConfig
    const finder: JavaFinder
    var activeProcesses: seq<MinecraftProcess>

    /** Every started process is listed at most once. */
    predicate Valid()
      reads this
    {
      Distinct(activeProcesses)
    }

    constructor (config: LauncherConfig)
      ensures this.config == config && activeProcesses == [] && fresh(finder) && finder.cache == map[]
      ensures Valid()
    {
      this.config := config;
      finder := new JavaFinder();
      activeProcesses := [];
    }

    /** `Launcher::new`: the directories are made first, then the two HTTP
        clients; a failure leaves no launcher. */
    static method New(config: LauncherConfig, fs: FsState, clients: HttpClients) returns (after: FsState, r: Result<Launcher, LauncherError>)
      ensures after == LauncherSetup(fs, config.minecraftDir, clients).0
      ensures r.Ok? <==> LauncherSetup(fs, config.minecraftDir, clients).1.Ok?
      ensures r.Err? ==> r.error == LauncherSetup(fs, config.minecraftDir, clients).1.error
      ensures r.Ok? ==> fresh(r.value) && r.value.config == config && r.value.activeProcesses == []
      ensures r.Ok? ==> fresh(r.value.finder) && r.value.finder.cache == map[] && r.value.Valid()
    {
      var made := CreateDirAll(fs, config.minecraftDir);
      if made.Err? {
        return fs, Err(FileError("Failed to create minecraft directory: " + made.error));
      }
      var cached := CreateDirAll(made.value, config.minecraftDir + ["cache"]);
      if cached.Err? {
        return made.value, Err(FileError("Failed to create cache directory: " + cached.error));
      }
      if clients.forVersions.Some? {
        return cached.value, Err(NetworkError("Failed to create HTTP client: " + clients.forVersions.value));
      }
      if clients.forDownloads.Some? {
        return cached.value, Err(DownloadError("Failed to create HTTP client: " + clients.forDownloads.value));
      }
      var l := new Launcher(config);
      return cached.value, Ok(l);
    }

    /** `get_instance_dir`. */
    function InstanceDir(name: string): (d: Path)
      reads this
      ensures |d| == |config.minecraftDir| + 2 && d[..|config.minecraftDir|] == config.minecraftDir && d[|config.minecraftDir|..] == ["instances", name]
    {
      config.minecraftDir + ["instances", name]
    }

    /** `setup_instance_directories`. */
    method SetupInstanceDirectories(fs: FsState, instanceDir: Path, os: Os) returns (r: LResult<FsState>)
      ensures r == SetupDirs(fs, InstanceDirectories(instanceDir), 0, os)
    {
      var dirs := InstanceDirectories(instanceDir);
      var cur := fs;
      var i := 0;
      while i < |dirs|
        invariant 0 <= i <= |dirs|
        invariant SetupDirs(fs, dirs, 0, os) == SetupDirs(cur, dirs, i, os)
      {
        var made := CreateDirAll(cur, dirs[i]);
        if made.Err? {
          return Err(FileError("Failed to create directory " + Paths.Display(dirs[i], os) + ": " + made.error));
        }
        cur := made.value;
        i := i + 1;
      }
      return Ok(cur);
    }

    /** `get_java_path`: the configured executable, or the finder's answer
        for the version the descriptor asks for. */
    method GetJavaPath(info: VersionInfo, root: Node, searchPaths: seq<Path>, pathVar: Option<seq<Path>>,
                       run: Path -> Result<string, string>, os: Os) returns (r: LResult<Path>)
      modifies finder
      ensures config.javaPath.Some? ==> r == Ok(config.javaPath.value) && finder.cache == old(finder.cache)
      ensures config.javaPath.None? ==>
        var check := VersionCheck(run, RequiredJava(info));
        (finder.cache, r)
          == FindJavaStep(old(finder.cache), RequiredJava(info),
                          SearchJava(root, searchPaths, pathVar, RequiredJava(info), check, os), check)
    {
      if config.javaPath.Some? {
        return Ok(config.javaPath.value);
      }
      r := finder.FindJava(RequiredJava(info), root, searchPaths, pathVar, run, os);
    }

    /** Steps 7 and 8 of `launch`: the process is started and, when that
        succeeds, tracked; the launch then reports its pid, and fails when
        the child had none, with the process already tracked. */
    method StartAndTrack(javaPath: Path, args: seq<string>, instanceDir: Path, account: Account,
                         spawn: Result<ChildHandle, string>) returns (r: LResult<MinecraftProcess>)
      requires Valid()
      modifies this
      ensures Valid() && config == old(config)
      ensures spawn.Err? ==> r == Err(Launch("Failed to start Minecraft process: " + spawn.error))
                             && activeProcesses == old(activeProcesses)
      ensures spawn.Ok? ==> |activeProcesses| == |old(activeProcesses)| + 1
                            && activeProcesses[..|old(activeProcesses)|] == old(activeProcesses)
                            && fresh(activeProcesses[|old(activeProcesses)|])
      ensures spawn.Ok? ==>
        var p := activeProcesses[|old(activeProcesses)|];
        p.State() == ProcState(Some(spawn.value), Running, spawn.value.id) && p.args == args
        && p.javaPath == javaPath && p.workingDir == instanceDir
        && r == (if spawn.value.id.Some? then Ok(p) else Err(Launch("Process not started")))
    {
      var started := MinecraftProcess.New(javaPath, args, instanceDir, account, spawn);
      if started.Err? {
        return Err(started.error);
      }
      var p := started.value;
      activeProcesses := activeProcesses + [p];
      var pid := p.GetPid();
      if pid.Err? {
        return Err(pid.error);
      }
      return Ok(p);
    }

    /** `get_active_processes`: the list is filtered on what `get_status`
        reports, which is always Running, so nothing is ever dropped. */
    method GetActiveProcesses() returns (r: seq<MinecraftProcess>)
      modifies this
      ensures activeProcesses == old(activeProcesses) && r == activeProcesses && config == old(config)
    {
      var kept: seq<MinecraftProcess> := [];
      var i := 0;
      while i < |activeProcesses|
        invariant 0 <= i <= |activeProcesses|
        invariant activeProcesses == old(activeProcesses) && config == old(config)
        invariant kept == activeProcesses[..i]
      {
        var s := activeProcesses[i].GetStatus();
        if s == Running {
          kept := kept + [activeProcesses[i]];
        }
        i := i + 1;
      }
      assert activeProcesses[..i] == activeProcesses;
      activeProcesses := kept;
      r := kept;
    }

    /** The filter the comment of `get_active_processes` describes: only the
        processes whose stored status is Running stay. */
    method RetainRunningProcesses() returns (r: seq<MinecraftProcess>)
      requires Valid()
      modifies this
      ensures activeProcesses == RunningOnly(old(activeProcesses)) && r == activeProcesses
      ensures Valid() && config == old(config)
    {
      RunningOnlyDistinct(activeProcesses);
      r := FilterRunning(activeProcesses);
      activeProcesses := r;
    }

    /** `kill_all`: the list is emptied, then every process on it is killed
        in turn, `exits(p)` being what waiting for `p`'s child gives; the
        count is of the kills that succeeded, that is of the processes that
        still had a child. */
    method KillAll(exits: MinecraftProcess -> WaitResult) returns (killed: nat)
      requires Valid()
      modifies this, activeProcesses
      ensures activeProcesses == [] && Valid() && config == old(config)
      ensures killed == WithChild(old(States(activeProcesses)))
      ensures forall j :: 0 <= j < |old(activeProcesses)| ==>
        old(activeProcesses)[j].State() == KillStep(old(States(activeProcesses))[j], exits(old(activeProcesses)[j])).0
      ensures forall j :: 0 <= j < |old(activeProcesses)| ==> old(activeProcesses)[j].child.None?
    {
      var ps := activeProcesses;
      activeProcesses := [];
      killed := KillEach(ps, exits);
    }

    /** `update_config`. */
    method UpdateConfig(c: LauncherConfig)
      modifies this
      ensures config == c && activeProcesses == old(activeProcesses)
    {
      config := c;
    }
  }
}
