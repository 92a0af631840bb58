/** The Tauri command layer (src-tauri/src/launcher.rs): the shared state
    the commands work on, the reply every command returns, and the rules by
    which a request from the front end becomes a launcher or launch
    configuration. The front end names a process by an identifier of the
    command layer's own (a random UUID, given here as a parameter). */
module Commands {
  import opened Wrappers
  import opened Strings
  import opened Paths
  import opened Errors
  import opened FileSystem
  import opened Auth
  import opened Version
  import opened Config
  import opened Minecraft
  import opened Launchers

  // ---------------------------------------------------------------------
  // Replies

  /** `LauncherResponse<T>`. */
  datatype Response<T> = Response(success: bool, data: Option<T>, error: Option<string>)

  /** `LauncherResponse::success`. */
  function Success<T>(data: T): (r: Response<T>)
    ensures Outcome(r) == Some(Ok(data))
  {
    Response(true, Some(data), None)
  }

  /** `LauncherResponse::error`. */
  function Failure<T>(error: string): (r: Response<T>)
    ensures Outcome(r) == Some(Err(error))
  {
    Response(false, None, Some(error))
  }

  /** How the front end reads a reply: the data of a successful one, the
      message of a failed one; a reply with neither shape says nothing. */
  function Outcome<T>(r: Response<T>): Option<Result<T, string>>
  {
    if r.success && r.data.Some? && r.error.None? then Some(Ok(r.data.value))
    else if !r.success && r.data.None? && r.error.Some? then Some(Err(r.error.value))
    else None
  }

  /** The two constructors build exactly the replies the front end can
      read, and each reply is built by one of them from what it carries. */
  lemma {:induction false} OutcomeInverts<T>(r: Response<T>)
    ensures Outcome(r).Some? && Outcome(r).value.Ok? ==> r == Success(Outcome(r).value.value)
    ensures Outcome(r).Some? && Outcome(r).value.Err? ==> r == Failure(Outcome(r).value.error)
  {
  }

  // ---------------------------------------------------------------------
  // Mod loader names

  /** `parse_mod_loader_type`: the name is compared in lower case; an
      unknown name is a configuration error that quotes it as given. */
  function ParseModLoaderType(loaderType: string): (r: LResult<ModLoaderType>)
    ensures r.Ok? ==> LoaderName(r.value) == ToLower(loaderType)
    ensures r.Err? <==> forall t :: LoaderName(t) != ToLower(loaderType)
    ensures r.Err? ==> r.error == Config("Unknown mod loader type: " + loaderType)
  {
    var l := ToLower(loaderType);
    if l == "forge" then Ok(Forge)
    else if l == "fabric" then Ok(Fabric)
    else if l == "quilt" then Ok(Quilt)
    else if l == "neoforge" then Ok(NeoForge)
    else if l == "legacy-fabric" then Ok(LegacyFabric)
    else Err(ConfigError("Unknown mod loader type: " + loaderType))
  }

  /** Every loader's display name parses back to that loader. */
  lemma ParseDisplayRoundTrip(t: ModLoaderType)
    ensures ParseModLoaderType(LoaderName(t)) == Ok(t)
  {
    LoaderNameInjective(t, t);
    LowerOfLower(LoaderName(t));
    var r := ParseModLoaderType(LoaderName(t));
    LoaderNameInjective(r.value, t);
  }

  /** The name is read without regard to letter case. */
  lemma {:induction false} ParseIgnoresCase(s: string)
    ensures ParseModLoaderType(ToUpper(s)).ToOption() == ParseModLoaderType(s).ToOption()
  {
    assert ToLower(ToUpper(s)) == ToLower(s) by {
      assert forall i :: 0 <= i < |s| ==> ToLower(ToUpper(s))[i] == LowerChar(UpperChar(s[i]));
    }
  }

  // ---------------------------------------------------------------------
  // initialize_launcher

  /** `InitializeLauncherRequest`; paths arrive split into components. */
  datatype InitializeRequest = InitializeRequest(
    minecraftDir: Path,
    memoryMin: Option<nat>,
    memoryMax: Option<nat>,
    javaPath: Option<Path>,
    concurrentDownloads: Option<nat>,
    downloadTimeout: Option<nat>)

  /** The configuration `initialize_launcher` builds: memory only when both
      bounds are given, the download settings only when both are given, the
      Java path when given, and debug always on. */
  function InitialConfig(req: InitializeRequest): (c: LauncherConfig)
    ensures c.minecraftDir == req.minecraftDir && c.javaPath == req.javaPath && c.debug
    ensures req.memoryMin.Some? && req.memoryMax.Some? ==> c.memoryMin == req.memoryMin.value && c.memoryMax == req.memoryMax.value
    ensures !(req.memoryMin.Some? && req.memoryMax.Some?) ==> c.memoryMin == 4096 && c.memoryMax == 8192
    ensures req.concurrentDownloads.Some? && req.downloadTimeout.Some? ==>
      c.concurrentDownloads == req.concurrentDownloads.value && c.downloadTimeout == req.downloadTimeout.value
    ensures !(req.concurrentDownloads.Some? && req.downloadTimeout.Some?) ==> c.concurrentDownloads == 8 && c.downloadTimeout == 300
    ensures c.jvmArgs == DEFAULT_JVM_ARGS && c.gameArgs == [] && c.envVars == map[]
  {
    var c0 := NewLauncherConfig(req.minecraftDir);
    var c1 := if req.memoryMin.Some? && req.memoryMax.Some? then WithMemory(c0, req.memoryMin.value, req.memoryMax.value) else c0;
    var c2 := if req.javaPath.Some? then WithJavaPath(c1, req.javaPath.value) else c1;
    var c3 := if req.concurrentDownloads.Some? && req.downloadTimeout.Some?
              then WithDownloadConfig(c2, req.downloadTimeout.value, req.concurrentDownloads.value) else c2;
    WithDebug(c3)
  }

  // ---------------------------------------------------------------------
  // launch_minecraft

  datatype ModLoaderRequest = ModLoaderRequest(loaderType: string, version: string)

  /** `LaunchRequest`. */
  datatype LaunchRequest = LaunchRequest(
    version: string,
    instanceName: Option<string>,
    modLoader: Option<ModLoaderRequest>,
    windowWidth: Option<nat>,
    windowHeight: Option<nat>,
    fullscreen: Option<bool>,
    additionalJvmArgs: Option<seq<string>>,
    additionalGameArgs: Option<seq<string>>,
    account: Account,
    javaPath: Option<Path>)

  /** Whether the request names a loader that parses. */
  predicate KnownLoader(req: LaunchRequest)
  {
    req.modLoader.Some? && ParseModLoaderType(req.modLoader.value.loaderType).Ok?
  }

  /** What `launch_minecraft` does to the launch configuration it was
      given: the instance name when one is given; the loader only when its
      name parses, unknown names being dropped without a word; the window
      only when both sides are given, windowed unless asked otherwise; and
      the extra arguments only when both lists are given. Nothing else
      changes. */
  function CustomizedLaunch(lc: LaunchConfig, req: LaunchRequest): (c: LaunchConfig)
    ensures c.instanceName == if req.instanceName.Some? then req.instanceName.value else lc.instanceName
    ensures KnownLoader(req) ==>
      c.modLoader == Some(ModLoaderConfig(ParseModLoaderType(req.modLoader.value.loaderType).value, req.modLoader.value.version, true))
    ensures !KnownLoader(req) ==> c.modLoader == lc.modLoader
    ensures req.windowWidth.Some? && req.windowHeight.Some? ==>
      c.windowConfig == WindowConfig(req.windowWidth.value, req.windowHeight.value, req.fullscreen == Some(true))
    ensures !(req.windowWidth.Some? && req.windowHeight.Some?) ==> c.windowConfig == lc.windowConfig
    ensures req.additionalJvmArgs.Some? && req.additionalGameArgs.Some? ==>
      c.additionalJvmArgs == lc.additionalJvmArgs + req.additionalJvmArgs.value
      && c.additionalGameArgs == lc.additionalGameArgs + req.additionalGameArgs.value
    ensures !(req.additionalJvmArgs.Some? && req.additionalGameArgs.Some?) ==>
      c.additionalJvmArgs == lc.additionalJvmArgs && c.additionalGameArgs == lc.additionalGameArgs
    ensures c.(instanceName := lc.instanceName, modLoader := lc.modLoader, windowConfig := lc.windowConfig,
               additionalJvmArgs := lc.additionalJvmArgs, additionalGameArgs := lc.additionalGameArgs) == lc
  {
    ExtraArgsStep(WindowStep(LoaderStep(NameStep(lc, req), req), req), req)
  }

  /** The instance name step. */
  function NameStep(c: LaunchConfig, req: LaunchRequest): (r: LaunchConfig)
    ensures r.instanceName == if req.instanceName.Some? then req.instanceName.value else c.instanceName
    ensures r.(instanceName := c.instanceName) == c
  {
    if req.instanceName.Some? then c.(instanceName := req.instanceName.value) else c
  }

  /** The loader step: `with_mod_loader` only for a name that parses. */
  function LoaderStep(c: LaunchConfig, req: LaunchRequest): (r: LaunchConfig)
    ensures KnownLoader(req) ==>
      r.modLoader == Some(ModLoaderConfig(ParseModLoaderType(req.modLoader.value.loaderType).value, req.modLoader.value.version, true))
    ensures r.(modLoader := c.modLoader) == c
  {
    if KnownLoader(req)
    then WithModLoader(c, ParseModLoaderType(req.modLoader.value.loaderType).value, req.modLoader.value.version)
    else c
  }

  /** The window step. */
  function WindowStep(c: LaunchConfig, req: LaunchRequest): (r: LaunchConfig)
    ensures req.windowWidth.Some? && req.windowHeight.Some? ==>
      r.windowConfig == WindowConfig(req.windowWidth.value, req.windowHeight.value, req.fullscreen == Some(true))
    ensures r.(windowConfig := c.windowConfig) == c
  {
    if req.windowWidth.Some? && req.windowHeight.Some?
    then WithWindow(c, req.windowWidth.value, req.windowHeight.value, req.fullscreen.UnwrapOr(false))
    else c
  }

  /** The extra arguments step. */
  function ExtraArgsStep(c: LaunchConfig, req: LaunchRequest): (r: LaunchConfig)
    ensures req.additionalJvmArgs.Some? && req.additionalGameArgs.Some? ==>
      r.additionalJvmArgs == c.additionalJvmArgs + req.additionalJvmArgs.value
      && r.additionalGameArgs == c.additionalGameArgs + req.additionalGameArgs.value
    ensures r.(additionalJvmArgs := c.additionalJvmArgs, additionalGameArgs := c.additionalGameArgs) == c
  {
    if req.additionalJvmArgs.Some? && req.additionalGameArgs.Some?
    then WithAdditionalArgs(c, req.additionalJvmArgs.value, req.additionalGameArgs.value)
    else c
  }

  // ---------------------------------------------------------------------
  // poll_device_code

  /** The OAuth answers the front end waits on and handles itself. */
  predicate PassedThrough(msg: string)
  {
    Contains(msg, "authorization_pending") || Contains(msg, "slow_down") || Contains(msg, "expired_token")
  }

  /** The message a failed poll replies with: the error's own display when
      it is one of the OAuth answers the front end waits on, otherwise that
      display behind a fixed prefix. */
  function PollErrorMessage(msg: string): (m: string)
    ensures PassedThrough(msg) ==> m == msg
    ensures !PassedThrough(msg) ==> |m| > |msg| && m[|m| - |msg|..] == msg && m[..|m| - |msg|] == "Device code polling failed: "
  {
    if PassedThrough(msg) then msg else "Device code polling failed: " + msg
  }

  /** A poll's reply repeats the error verbatim exactly when it is one of
      the OAuth answers. */
  lemma PollMessageVerbatim(msg: string)
    ensures PollErrorMessage(msg) == msg <==> PassedThrough(msg)
  {
    if !PassedThrough(msg) {
      assert |PollErrorMessage(msg)| > |msg|;
    }
  }

  // ---------------------------------------------------------------------
  // The state shared by the commands

  /** `ProcessStatusResponse`. */
  datatype ProcessStatusReply = ProcessStatusReply(isRunning: bool, pid: Option<nat>)

  /** What `get_process_status` reports for a handle's slots. */
  function StatusReply(s: ProcState): (r: ProcessStatusReply)
    ensures r.isRunning <==> s.child.Some?
    ensures r.pid.Some? <==> s.child.Some? && s.pid.Some?
    ensures r.pid.Some? ==> r.pid == s.pid
  {
    var running := HasChild(s);
    ProcessStatusReply(running, if running then PidOf(s).ToOption() else None)
  }

  /** `LauncherState`: the launcher and the authenticator once set up, the
      processes the front end started by identifier, and the signed-in
      account. */
  class LauncherState {
    var launcher: Option<Launcher>
    var authenticator: Option<AuthenticatorConfig>
    var activeProcesses: map<string, MinecraftProcess>
    var currentAccount: Option<Account>

    /** `LauncherState::new`. */
    constructor ()
      ensures launcher.None? && authenticator.None? && activeProcesses == map[] && currentAccount.None?
    {
      launcher := None;
      authenticator := None;
      activeProcesses := map[];
      currentAccount := None;
    }

    /** `initialize_launcher`: a launcher is built on the request's
        configuration and installed in place of any earlier one; when its
        directories or its HTTP clients cannot be made the earlier launcher
        stays. */
    method InitializeLauncher(req: InitializeRequest, fs: FsState, clients: HttpClients) returns (after: FsState, r: Response<string>)
      modifies this
      ensures after == LauncherSetup(fs, req.minecraftDir, clients).0
      ensures authenticator == old(authenticator) && activeProcesses == old(activeProcesses) && currentAccount == old(currentAccount)
      ensures var made := LauncherSetup(fs, req.minecraftDir, clients).1;
        && (made.Ok? ==> r == Success("Launcher initialized successfully") && launcher.Some? && fresh(launcher.value)
                         && launcher.value.config == InitialConfig(req) && launcher.value.activeProcesses == [])
        && (made.Err? ==> r == Failure("Failed to initialize launcher: " + Errors.Display(made.error)) && launcher == old(launcher))
    {
      var made;
      after, made := Launcher.New(InitialConfig(req), fs, clients);
      if made.Err? {
        return after, Failure("Failed to initialize launcher: " + Errors.Display(made.error));
      }
      launcher := Some(made.value);
      return after, Success("Launcher initialized successfully");
    }

    /** `setup_authenticator`: the configuration for the client, with the
        redirect address when one is given. */
    method SetupAuthenticator(clientId: string, redirectUri: Option<string>, crateVersion: string) returns (r: Response<string>)
      modifies this
      ensures r == Success("Authenticator setup successfully")
      ensures authenticator.Some? && authenticator.value.clientId == clientId
      ensures authenticator.value.redirectUri == redirectUri.UnwrapOr("http://localhost:8080/auth/callback")
      ensures authenticator.value.(redirectUri := "http://localhost:8080/auth/callback") == NewAuthenticatorConfig(clientId, crateVersion)
      ensures launcher == old(launcher) && activeProcesses == old(activeProcesses) && currentAccount == old(currentAccount)
    {
      var c := NewAuthenticatorConfig(clientId, crateVersion);
      if redirectUri.Some? {
        c := WithRedirectUri(c, redirectUri.value);
      }
      authenticator := Some(c);
      return Success("Authenticator setup successfully");
    }

    /** `poll_device_code`, `polled` being what the authenticator's poll
        answered: a new account is stored and returned; a failure is
        reported as `PollErrorMessage` says. */
    method PollDeviceCode(polled: LResult<Account>) returns (r: Response<Account>)
      modifies this
      ensures authenticator.None? ==> r == Failure("Authenticator not initialized") && currentAccount == old(currentAccount)
      ensures authenticator.Some? && polled.Ok? ==> r == Success(polled.value) && currentAccount == Some(polled.value)
      ensures authenticator.Some? && polled.Err? ==>
        r == Failure(PollErrorMessage(Errors.Display(polled.error))) && currentAccount == old(currentAccount)
      ensures launcher == old(launcher) && authenticator == old(authenticator) && activeProcesses == old(activeProcesses)
    {
      if authenticator.None? {
        return Failure("Authenticator not initialized");
      }
      if polled.Err? {
        var msg := Errors.Display(polled.error);
        if Contains(msg, "authorization_pending") || Contains(msg, "slow_down") || Contains(msg, "expired_token") {
          return Failure(msg);
        }
        return Failure("Device code polling failed: " + msg);
      }
      currentAccount := Some(polled.value);
      return Success(polled.value);
    }

    /** `authenticate_with_code`, `outcome` being the code exchange's
        answer. */
    method AuthenticateWithCode(outcome: LResult<Account>) returns (r: Response<Account>)
      modifies this
      ensures authenticator.None? ==> r == Failure("Authenticator not initialized") && currentAccount == old(currentAccount)
      ensures authenticator.Some? && outcome.Ok? ==> r == Success(outcome.value) && currentAccount == Some(outcome.value)
      ensures authenticator.Some? && outcome.Err? ==>
        r == Failure("Authentication failed: " + Errors.Display(outcome.error)) && currentAccount == old(currentAccount)
      ensures launcher == old(launcher) && authenticator == old(authenticator) && activeProcesses == old(activeProcesses)
    {
      if authenticator.None? {
        return Failure("Authenticator not initialized");
      }
      if outcome.Err? {
        return Failure("Authentication failed: " + Errors.Display(outcome.error));
      }
      currentAccount := Some(outcome.value);
      return Success(outcome.value);
    }

    /** The first half of `launch_minecraft`: the launch configuration is
        created and customised, and a requested Java path is written into
        the launcher's configuration; what is returned is the configuration
        to launch, or the reply to give. */
    method PrepareLaunch(req: LaunchRequest, fetched: JsonFetch<VersionManifest>) returns (r: Result<LaunchConfig, Response<string>>)
      modifies if launcher.Some? then {launcher.value} else {}
      ensures launcher.None? ==> r == Err(Failure("Launcher not available"))
      ensures launcher.Some? ==>
        var created := CreateLaunchConfig(fetched, req.version, req.account);
        && (created.Err? ==> r == Err(Failure("Configuration error: " + Errors.Display(created.error)))
                             && launcher.value.config == old(launcher.value.config))
        && (created.Ok? ==> r == Ok(CustomizedLaunch(created.value, req))
                            && launcher.value.config == (if req.javaPath.Some? then old(launcher.value.config).(javaPath := req.javaPath)
                                                         else old(launcher.value.config)))
      ensures launcher.Some? ==> launcher.value.activeProcesses == old(launcher.value.activeProcesses)
    {
      if launcher.None? {
        return Err(Failure("Launcher not available"));
      }
      var l := launcher.value;
      var created := CreateLaunchConfig(fetched, req.version, req.account);
      if created.Err? {
        return Err(Failure("Configuration error: " + Errors.Display(created.error)));
      }
      var lc := CustomizedLaunch(created.value, req);
      if req.javaPath.Some? {
        l.UpdateConfig(l.config.(javaPath := req.javaPath));
      }
      return Ok(lc);
    }

    /** The second half of `launch_minecraft`: a launched process is stored
        under the identifier it is given, which is returned. */
    method RecordLaunch(id: string, launched: LResult<MinecraftProcess>) returns (r: Response<string>)
      modifies this
      ensures launched.Ok? ==> activeProcesses == old(activeProcesses)[id := launched.value] && r == Success(id)
      ensures launched.Err? ==> activeProcesses == old(activeProcesses) && r == Failure("Failed to launch Minecraft: " + Errors.Display(launched.error))
      ensures launcher == old(launcher) && authenticator == old(authenticator) && currentAccount == old(currentAccount)
    {
      if launched.Err? {
        return Failure("Failed to launch Minecraft: " + Errors.Display(launched.error));
      }
      activeProcesses := activeProcesses[id := launched.value];
      return Success(id);
    }

    /** `get_process_status`: an unknown identifier is reported as not
        running; a known one is running while its handle holds a child, and
        only then is its pid reported. */
    method GetProcessStatus(id: string) returns (r: Response<ProcessStatusReply>)
      ensures id !in activeProcesses ==> r == Success(ProcessStatusReply(false, None))
      ensures id in activeProcesses ==> r == Success(StatusReply(activeProcesses[id].State()))
    {
      if id !in activeProcesses {
        return Success(ProcessStatusReply(false, None));
      }
      var p := activeProcesses[id];
      var running := p.IsRunning();
      var pid: Option<nat> := None;
      if running {
        var got := p.GetPid();
        pid := got.ToOption();
      }
      return Success(ProcessStatusReply(running, pid));
    }

    /** `is_process_running`. */
    method IsProcessRunning(id: string) returns (r: Response<bool>)
      ensures r == Success(id in activeProcesses && activeProcesses[id].child.Some?)
    {
      if id !in activeProcesses {
        return Success(false);
      }
      var running := activeProcesses[id].IsRunning();
      return Success(running);
    }

    /** `kill_minecraft`: the entry is removed before the kill, so it is gone
        whether or not the kill succeeds. */
    method KillMinecraft(id: string, w: WaitResult) returns (r: Response<string>)
      modifies this, if id in activeProcesses then {activeProcesses[id]} else {}
      ensures activeProcesses == old(activeProcesses) - {id}
      ensures id !in old(activeProcesses) ==> r == Failure("Process not found")
      ensures id in old(activeProcesses) ==>
        var p := old(activeProcesses)[id];
        var (s, k) := KillStep(old(p.State()), w);
        p.State() == s
        && r == (if k.Ok? then Success("Process killed successfully") else Failure("Failed to kill process: " + Errors.Display(k.error)))
      ensures launcher == old(launcher) && authenticator == old(authenticator) && currentAccount == old(currentAccount)
    {
      if id !in activeProcesses {
        return Failure("Process not found");
      }
      var p := activeProcesses[id];
      activeProcesses := activeProcesses - {id};
      var k := p.Kill(w);
      if k.Err? {
        return Failure("Failed to kill process: " + Errors.Display(k.error));
      }
      return Success("Process killed successfully");
    }

    /** `get_minecraft_logs`. */
    method GetMinecraftLogs(id: string, outcome: ReadOutcome) returns (r: Response<string>)
      ensures id !in activeProcesses ==> r == Failure("Process not found")
      ensures id in activeProcesses && ReadLogs(outcome).Ok? ==> r == Success(ReadLogs(outcome).value)
      ensures id in activeProcesses && ReadLogs(outcome).Err? ==> r == Failure("Failed to read logs: " + Errors.Display(ReadLogs(outcome).error))
    {
      if id !in activeProcesses {
        return Failure("Process not found");
      }
      var logs := ReadLogs(outcome);
      if logs.Err? {
        return Failure("Failed to read logs: " + Errors.Display(logs.error));
      }
      return Success(logs.value);
    }

    /** `list_active_processes`: every identifier once, in the map's own
        (unspecified) order. */
    method ListActiveProcesses() returns (r: Response<seq<string>>)
      ensures r.success && r.data.Some? && r.error.None?
      ensures |r.data.value| == |activeProcesses.Keys|
      ensures forall k :: k in activeProcesses <==> k in r.data.value
    {
      var rest := activeProcesses.Keys;
      var ids: seq<string> := [];
      while rest != {}
        invariant rest <= activeProcesses.Keys
        invariant forall k :: k in activeProcesses <==> k in rest || k in ids
        invariant forall k :: k in ids ==> k !in rest
        invariant |ids| + |rest| == |activeProcesses.Keys|
        decreases |rest|
      {
        var k :| k in rest;
        ids := ids + [k];
        rest := rest - {k};
      }
      return Success(ids);
    }
  }
}
