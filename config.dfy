/** Launcher-wide and per-launch configuration (config.rs): the records,
    their defaults, and the builder methods that each change only their own
    fields. Widths of the Rust integer fields (`u32`, `u64`, `usize`) are not
    enforced: every builder copies its argument unchanged. */
module Config {
  import opened Wrappers
  import opened Paths
  import opened Auth
  import opened Version

  datatype LauncherConfig = LauncherConfig(
    minecraftDir: Path,
    javaPath: Option<Path>,
    jvmArgs: seq<string>,
    gameArgs: seq<string>,
    memoryMin: nat,
    memoryMax: nat,
    downloadTimeout: nat,
    concurrentDownloads: nat,
    envVars: map<string, string>,
    debug: bool)

  datatype ModLoaderConfig = ModLoaderConfig(loaderType: ModLoaderType, version: string, enabled: bool)

  datatype WindowConfig = WindowConfig(width: nat, height: nat, fullscreen: bool)

  datatype LaunchConfig = LaunchConfig(
    version: string,
    instanceName: string,
    account: Account,
    modLoader: Option<ModLoaderConfig>,
    modsDir: Option<Path>,
    resourcePacksDir: Option<Path>,
    shaderPacksDir: Option<Path>,
    savesDir: Option<Path>,
    customGameDir: Option<Path>,
    windowConfig: WindowConfig,
    downloadAssets: bool,
    downloadLibraries: bool,
    additionalJvmArgs: seq<string>,
    additionalGameArgs: seq<string>)

  /** The G1 collector tuning every configuration starts with. */
  const DEFAULT_JVM_ARGS: seq<string> := [
    "-XX:+UnlockExperimentalVMOptions",
    "-XX:+UseG1GC",
    "-XX:G1NewSizePercent=20",
    "-XX:G1ReservePercent=20",
    "-XX:MaxGCPauseMillis=50",
    "-XX:G1HeapRegionSize=32M"
  ]

  /** `LauncherConfig::default()`; `home` is what `dirs::home_dir` finds. */
  function DefaultLauncherConfig(home: Option<string>): (c: LauncherConfig)
    ensures c.minecraftDir == [home.UnwrapOr("."), ".minecraft"]
    ensures c.javaPath.None? && c.gameArgs == [] && c.envVars == map[] && !c.debug
    ensures c.memoryMin <= c.memoryMax
  {
    LauncherConfig([home.UnwrapOr("."), ".minecraft"], None, DEFAULT_JVM_ARGS, [], 4096, 8192, 300, 8, map[], false)
  }

  /** `LauncherConfig::new(dir)`: the defaults with the given directory; the
      home directory no longer matters. */
  function NewLauncherConfig(minecraftDir: Path): (c: LauncherConfig)
    ensures c.minecraftDir == minecraftDir
    ensures c.javaPath.None? && c.jvmArgs == DEFAULT_JVM_ARGS && c.gameArgs == []
    ensures c.memoryMin == 4096 && c.memoryMax == 8192
    ensures c.downloadTimeout == 300 && c.concurrentDownloads == 8
    ensures c.envVars == map[] && !c.debug
    ensures forall home :: c == DefaultLauncherConfig(home).(minecraftDir := minecraftDir)
  {
    DefaultLauncherConfig(None).(minecraftDir := minecraftDir)
  }

  function WithJavaPath(c: LauncherConfig, javaPath: Path): (r: LauncherConfig)
    ensures r.javaPath == Some(javaPath) && r.(javaPath := c.javaPath) == c
  {
    c.(javaPath := Some(javaPath))
  }

  function WithMemory(c: LauncherConfig, minMb: nat, maxMb: nat): (r: LauncherConfig)
    ensures r.memoryMin == minMb && r.memoryMax == maxMb
    ensures r.(memoryMin := c.memoryMin, memoryMax := c.memoryMax) == c
  {
    c.(memoryMin := minMb, memoryMax := maxMb)
  }

  /** `with_jvm_args` extends: the earlier arguments stay first, in order. */
  function WithJvmArgs(c: LauncherConfig, args: seq<string>): (r: LauncherConfig)
    ensures c.jvmArgs <= r.jvmArgs && r.jvmArgs[|c.jvmArgs|..] == args
    ensures r.(jvmArgs := c.jvmArgs) == c
  {
    c.(jvmArgs := c.jvmArgs + args)
  }

  function WithGameArgs(c: LauncherConfig, args: seq<string>): (r: LauncherConfig)
    ensures c.gameArgs <= r.gameArgs && r.gameArgs[|c.gameArgs|..] == args
    ensures r.(gameArgs := c.gameArgs) == c
  {
    c.(gameArgs := c.gameArgs + args)
  }

  function WithDebug(c: LauncherConfig): (r: LauncherConfig)
    ensures r.debug && r.(debug := c.debug) == c
  {
    c.(debug := true)
  }

  function WithDownloadConfig(c: LauncherConfig, timeout: nat, concurrent: nat): (r: LauncherConfig)
    ensures r.downloadTimeout == timeout && r.concurrentDownloads == concurrent
    ensures r.(downloadTimeout := c.downloadTimeout, concurrentDownloads := c.concurrentDownloads) == c
  {
    c.(downloadTimeout := timeout, concurrentDownloads := concurrent)
  }

  /** `with_env_var` inserts or overwrites one variable and keeps the
      others. */
  function WithEnvVar(c: LauncherConfig, key: string, value: string): (r: LauncherConfig)
    ensures key in r.envVars && r.envVars[key] == value
    ensures r.envVars.Keys == c.envVars.Keys + {key}
    ensures forall k :: k in c.envVars && k != key ==> r.envVars[k] == c.envVars[k]
    ensures r.(envVars := c.envVars) == c
  {
    c.(envVars := c.envVars[key := value])
  }

  /** `WindowConfig::default()`. */
  const DEFAULT_WINDOW: WindowConfig := WindowConfig(1280, 720, false)

  /** `LaunchConfig::new`: no loader, no custom directories, the default
      window, downloads on, no extra arguments. */
  function NewLaunchConfig(version: string, instanceName: string, account: Account): (c: LaunchConfig)
    ensures c.version == version && c.instanceName == instanceName && c.account == account
    ensures c.modLoader.None? && c.customGameDir.None?
    ensures c.modsDir.None? && c.resourcePacksDir.None? && c.shaderPacksDir.None? && c.savesDir.None?
    ensures c.windowConfig == WindowConfig(1280, 720, false)
    ensures c.downloadAssets && c.downloadLibraries
    ensures c.additionalJvmArgs == [] && c.additionalGameArgs == []
  {
    LaunchConfig(version, instanceName, account, None, None, None, None, None, None, DEFAULT_WINDOW, true, true, [], [])
  }

  /** `with_mod_loader` always enables the loader it installs. */
  function WithModLoader(c: LaunchConfig, loaderType: ModLoaderType, version: string): (r: LaunchConfig)
    ensures r.modLoader == Some(ModLoaderConfig(loaderType, version, true))
    ensures r.(modLoader := c.modLoader) == c
  {
    c.(modLoader := Some(ModLoaderConfig(loaderType, version, true)))
  }

  /** `with_custom_dirs` replaces all four directories, clearing those given
      as `None`; the game directory is not one of them. */
  function WithCustomDirs(c: LaunchConfig, mods: Option<Path>, resourcePacks: Option<Path>, shaderPacks: Option<Path>, saves: Option<Path>): (r: LaunchConfig)
    ensures r.modsDir == mods && r.resourcePacksDir == resourcePacks
    ensures r.shaderPacksDir == shaderPacks && r.savesDir == saves
    ensures r.(modsDir := c.modsDir, resourcePacksDir := c.resourcePacksDir, shaderPacksDir := c.shaderPacksDir, savesDir := c.savesDir) == c
  {
    c.(modsDir := mods, resourcePacksDir := resourcePacks, shaderPacksDir := shaderPacks, savesDir := saves)
  }

  function WithWindow(c: LaunchConfig, width: nat, height: nat, fullscreen: bool): (r: LaunchConfig)
    ensures r.windowConfig == WindowConfig(width, height, fullscreen)
    ensures r.(windowConfig := c.windowConfig) == c
  {
    c.(windowConfig := WindowConfig(width, height, fullscreen))
  }

  function WithoutDownloads(c: LaunchConfig): (r: LaunchConfig)
    ensures !r.downloadAssets && !r.downloadLibraries
    ensures r.(downloadAssets := c.downloadAssets, downloadLibraries := c.downloadLibraries) == c
  {
    c.(downloadAssets := false, downloadLibraries := false)
  }

  /** `with_additional_args` extends both lists, keeping the earlier
      arguments first. */
  function WithAdditionalArgs(c: LaunchConfig, jvmArgs: seq<string>, gameArgs: seq<string>): (r: LaunchConfig)
    ensures c.additionalJvmArgs <= r.additionalJvmArgs && r.additionalJvmArgs[|c.additionalJvmArgs|..] == jvmArgs
    ensures c.additionalGameArgs <= r.additionalGameArgs && r.additionalGameArgs[|c.additionalGameArgs|..] == gameArgs
    ensures r.(additionalJvmArgs := c.additionalJvmArgs, additionalGameArgs := c.additionalGameArgs) == c
  {
    c.(additionalJvmArgs := c.additionalJvmArgs + jvmArgs, additionalGameArgs := c.additionalGameArgs + gameArgs)
  }

  /** Extending twice is extending once with both lists, so repeated builder
      calls accumulate. */
  lemma WithJvmArgsAccumulates(c: LauncherConfig, a: seq<string>, b: seq<string>)
    ensures WithJvmArgs(WithJvmArgs(c, a), b) == WithJvmArgs(c, a + b)
  {
    assert c.jvmArgs + a + b == c.jvmArgs + (a + b);
  }
}
