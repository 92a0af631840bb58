/** The version catalogue (version.rs): the manifest Mojang publishes, the
    per-version descriptor it points to, the mod-loader kinds, and lookups
    in the manifest. Fetching goes through the network; here what the
    network delivered is an input. Times are kept as their RFC 3339 text. */
module Version {
  import opened Wrappers
  import opened Errors

  datatype LatestVersions = LatestVersions(release: string, snapshot: string)

  datatype VersionEntry = VersionEntry(
    id: string,
    versionType: string,
    url: string,
    time: string,
    releaseTime: string,
    sha1: string,
    complianceLevel: Option<int>)

  datatype VersionManifest = VersionManifest(latest: LatestVersions, versions: seq<VersionEntry>)

  /** The `os` part of a rule. */
  datatype OsRule = OsRule(name: Option<string>, version: Option<string>, arch: Option<string>)

  /** A rule of the descriptor's rule language; `features` maps feature
      names to required values. */
  datatype Rule = Rule(action: string, os: Option<OsRule>, features: Option<map<string, bool>>)

  /** An argument of the descriptor: a plain string, or strings that apply
      only when their rules allow. */
  datatype ArgumentValue =
    | Plain(text: string)
    | Conditional(rules: seq<Rule>, values: seq<string>)

  datatype Arguments = Arguments(game: seq<ArgumentValue>, jvm: seq<ArgumentValue>)

  datatype AssetIndex = AssetIndex(id: string, sha1: string, size: nat, totalSize: Option<nat>, url: string)

  datatype DownloadInfo = DownloadInfo(sha1: string, size: nat, url: string)

  datatype Downloads = Downloads(
    client: DownloadInfo,
    clientMappings: Option<DownloadInfo>,
    server: Option<DownloadInfo>,
    serverMappings: Option<DownloadInfo>,
    windowsServer: Option<DownloadInfo>)

  datatype JavaVersion = JavaVersion(component: string, majorVersion: int)

  /** The classifier table of a library is a hash map; the sequence gives
      its entries in the order the map is iterated. */
  datatype LibraryDownloads = LibraryDownloads(
    artifact: Option<DownloadInfo>,
    classifiers: Option<seq<(string, DownloadInfo)>>)

  datatype ExtractInfo = ExtractInfo(exclude: Option<seq<string>>)

  datatype Library = Library(
    downloads: Option<LibraryDownloads>,
    name: string,
    rules: Option<seq<Rule>>,
    natives: Option<map<string, string>>,
    extract: Option<ExtractInfo>)

  datatype LoggingClient = LoggingClient(argument: string, file: DownloadInfo, loggingType: string)

  datatype LoggingConfig = LoggingConfig(client: Option<LoggingClient>)

  /** The descriptor of one version. */
  datatype VersionInfo = VersionInfo(
    arguments: Option<Arguments>,
    assetIndex: AssetIndex,
    assets: string,
    complianceLevel: Option<int>,
    downloads: Downloads,
    id: string,
    javaVersion: Option<JavaVersion>,
    libraries: seq<Library>,
    logging: Option<LoggingConfig>,
    mainClass: string,
    minecraftArguments: Option<string>,
    minimumLauncherVersion: Option<int>,
    releaseTime: string,
    time: string,
    versionType: string)

  datatype ModLoaderType = Forge | Fabric | Quilt | NeoForge | LegacyFabric

  datatype ModLoaderBuildInfo = ModLoaderBuildInfo(
    build: string,
    url: Option<string>,
    maven: Option<string>,
    libraries: seq<Library>)

  datatype ModLoader = ModLoader(
    loaderType: ModLoaderType,
    version: string,
    minecraftVersion: string,
    stable: bool,
    buildInfo: ModLoaderBuildInfo)

  /** What a GET whose body is read as JSON delivered: the request failed,
      the body decoded to a document, or reading or decoding the body
      failed. */
  datatype JsonFetch<T> = SendFailed(reason: string) | Decoded(document: T) | Undecodable(reason: string)

  /** `impl Display for ModLoaderType`; the serde names are the same words. */
  function LoaderName(t: ModLoaderType): string
  {
    match t
    case Forge => "forge"
    case Fabric => "fabric"
    case Quilt => "quilt"
    case NeoForge => "neoforge"
    case LegacyFabric => "legacy-fabric"
  }

  /** Different loaders display differently, and every name is lower case. */
  lemma LoaderNameInjective(a: ModLoaderType, b: ModLoaderType)
    ensures LoaderName(a) == LoaderName(b) <==> a == b
    ensures forall i :: 0 <= i < |LoaderName(a)| ==> !('A' <= LoaderName(a)[i] <= 'Z')
  {
  }

  /** `fetch_version_manifest`: a failed request is a network error, an
      undecodable body a JSON error, and only a decoded document is
      returned. */
  function FetchVersionManifest(fetched: JsonFetch<VersionManifest>): (r: LResult<VersionManifest>)
    ensures r.Ok? <==> fetched.Decoded?
    ensures r.Ok? ==> r.value == fetched.document
    ensures fetched.SendFailed? ==> r == Err(NetworkError("Failed to fetch version manifest: " + fetched.reason))
    ensures fetched.Undecodable? ==> r == Err(JsonError("Failed to parse version manifest: " + fetched.reason))
  {
    match fetched
    case SendFailed(e) => Err(NetworkError("Failed to fetch version manifest: " + e))
    case Undecodable(e) => Err(JsonError("Failed to parse version manifest: " + e))
    case Decoded(m) => Ok(m)
  }

  /** `fetch_version_info`, with the same three outcomes. */
  function FetchVersionInfo(fetched: JsonFetch<VersionInfo>): (r: LResult<VersionInfo>)
    ensures r.Ok? <==> fetched.Decoded?
    ensures r.Ok? ==> r.value == fetched.document
    ensures fetched.SendFailed? ==> r == Err(NetworkError("Failed to fetch version info: " + fetched.reason))
    ensures fetched.Undecodable? ==> r == Err(JsonError("Failed to parse version info: " + fetched.reason))
  {
    match fetched
    case SendFailed(e) => Err(NetworkError("Failed to fetch version info: " + e))
    case Undecodable(e) => Err(JsonError("Failed to parse version info: " + e))
    case Decoded(v) => Ok(v)
  }

  /** The position of the first entry with identifier `id`. */
  function FirstWithId(versions: seq<VersionEntry>, id: string): (r: Option<nat>)
    ensures r.Some? ==> r.value < |versions| && versions[r.value].id == id
    ensures r.Some? ==> forall j :: 0 <= j < r.value ==> versions[j].id != id
    ensures r.None? ==> forall j :: 0 <= j < |versions| ==> versions[j].id != id
  {
    if versions == [] then None
    else if versions[0].id == id then Some(0)
    else
      match FirstWithId(versions[1..], id)
      case None => None
      case Some(k) => Some(k + 1)
  }

  /** `find_version`: the manifest is fetched, and the first entry with the
      requested identifier is returned, or `VersionNotFound(id)` when there
      is none. */
  function FindVersion(fetched: JsonFetch<VersionManifest>, id: string): (r: LResult<VersionEntry>)
    ensures fetched.Decoded? ==>
      var vs := fetched.document.versions;
      (r.Ok? <==> exists j :: 0 <= j < |vs| && vs[j].id == id)
      && (r.Ok? ==> r.value.id == id && exists j :: 0 <= j < |vs| && vs[j] == r.value && forall k :: 0 <= k < j ==> vs[k].id != id)
      && (r.Err? ==> r.error == VersionNotFound(id))
    ensures !fetched.Decoded? ==> r == Err(FetchVersionManifest(fetched).error)
  {
    match FetchVersionManifest(fetched)
    case Err(e) => Err(e)
    case Ok(m) =>
      match FirstWithId(m.versions, id)
      case Some(j) => Ok(m.versions[j])
      case None => Err(VersionNotFoundError(id))
  }

  /** `get_latest_release`: the manifest is fetched once to read the latest
      release's identifier, and `find_version` fetches it again to look that
      identifier up. */
  function GetLatestRelease(first: JsonFetch<VersionManifest>, second: JsonFetch<VersionManifest>): (r: LResult<VersionEntry>)
    ensures !first.Decoded? ==> r.Err?
    ensures first.Decoded? ==> r == FindVersion(second, first.document.latest.release)
    ensures r.Ok? ==> first.Decoded? && r.value.id == first.document.latest.release
  {
    match FetchVersionManifest(first)
    case Err(e) => Err(e)
    case Ok(m) => FindVersion(second, m.latest.release)
  }

  /** `get_latest_snapshot`, the same for the latest snapshot. */
  function GetLatestSnapshot(first: JsonFetch<VersionManifest>, second: JsonFetch<VersionManifest>): (r: LResult<VersionEntry>)
    ensures !first.Decoded? ==> r.Err?
    ensures first.Decoded? ==> r == FindVersion(second, first.document.latest.snapshot)
    ensures r.Ok? ==> first.Decoded? && r.value.id == first.document.latest.snapshot
  {
    match FetchVersionManifest(first)
    case Err(e) => Err(e)
    case Ok(m) => FindVersion(second, m.latest.snapshot)
  }

  /** `get_mod_loader_versions`: each loader type goes to its own query, and
      every one of those queries answers with an empty list. */
  function GetModLoaderVersions(t: ModLoaderType, minecraftVersion: string): (r: LResult<seq<ModLoader>>)
    ensures r.Ok? && r.value == []
  {
    match t
    case Forge => Ok([])
    case Fabric => Ok([])
    case Quilt => Ok([])
    case NeoForge => Ok([])
    case LegacyFabric => Ok([])
  }
}
