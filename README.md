# mc-launcher in Dafny

mc-launcher is a Minecraft launcher in three parts:

- **launcher-lib**, a Rust library. It looks versions up in Mojang's manifest and fetches their descriptors. It decides which libraries apply to the host by the descriptor's rules. It plans the downloads of the client jar, the libraries and the assets, and runs them through a downloader that checks SHA-1 hashes. It unpacks the native libraries, finds or installs a Java runtime of the right major version, assembles the command line, starts the game and tracks the processes it started.
- **src-tauri**, a Tauri command layer. It keeps one launcher, an authenticator and a registry of running games. It turns the desktop front end's requests into launcher calls and answers every command with a success/error reply.
- **custom-mod**, a Fabric client mod in Java. Its features (a clicks-per-second counter, a keystrokes overlay, motion blur and zoom) share an enable/disable state machine. A registry holds the features and ticks the enabled ones. Movable HUD elements and a set of cosmetic switches complete it.

The model follows the source's own structure, one Dafny module per source unit:

| module | file | models |
|---|---|---|
| `Rules`, `Libraries`, `LaunchTasks`, `LaunchArguments`, `NativeExtraction`, `Launchers` | rules.dfy, libraries.dfy, tasks.dfy, arguments.dfy, natives.dfy, launcher.dfy | launcher-lib/src/launcher.rs |
| `Downloader` | downloader.dfy | launcher-lib/src/downloader.rs |
| `Minecraft` | minecraft.dfy | the process handle of launcher-lib/src/minecraft.rs |
| `Version`, `Config`, `Errors`, `Auth` | version.dfy, config.dfy, errors.dfy, auth.dfy | version.rs, config.rs, error.rs, auth.rs |
| `Utils`, `JavaRuntime` | utils.dfy, java.dfy | utils.rs (the Java finder and `download_file`), java.rs |
| `ModLoaderExample`, `DownloadExample` | mod_loader_example.dfy, download_example.dfy | the helper functions of the two examples |
| `Commands` | commands.dfy | src-tauri/src/launcher.rs |
| `ModFeatures`, `ModManagers`, `CpsCounter`, `Keystrokes`, `UiElements`, `Cosmetics` | mod_feature.dfy, mod_manager.dfy, cps_counter.dfy, keystrokes.dfy, ui_elements.dfy, cosmetics.dfy | the client mod's Java classes |
| `Wrappers`, `Strings`, `Seqs`, `Sorting`, `Ints`, `Paths`, `Platform`, `FileSystem`, `DirTree` | the remaining files | shared values: `Option`/`Result`, the `str`/`String` methods used, sorting, Java `int` and Rust `u64` wrap-around, paths, the host, and two views of the file system |

The pure parts of the Rust library (rules, paths, plans, argument lists, builders, parsers) are datatypes, functions and lemmas. The objects whose fields change in place are classes with `modifies` and `reads` frames: the launcher and its process list, the process handle, the Java finder and its cache, the Tauri state, and every Java class of the mod. The loops of the source are methods with loop invariants, each proved against a function that states what the loop computes. The file system is a value that an operation takes and returns. A directory tree keeps the order in which `read_dir` lists entries, for the Java searches. Network replies, SHA-1 digests, the clock, spawn results and what the game client reports are parameters of the operations that use them.

## Model

| member | source | states |
|---|---|---|
| Rules.EvaluateRules | mc-launcher-tauri/launcher-lib/src/launcher.rs:516-556 | the loop with its early returns answers `RulesAllow`: the first rule that matches and says "allow" or "disallow" decides, and no deciding rule means allow |
| Rules.DisallowedHasWitness | mc-launcher-tauri/launcher-lib/src/launcher.rs:516-537 | a list that refuses has a first deciding rule, and that rule says "disallow" |
| Rules.WitnessDisallows | mc-launcher-tauri/launcher-lib/src/launcher.rs:516-537 | a "disallow" rule that matches with no deciding rule before it makes the whole list refuse |
| Rules.RulesAllowFirstDecides | mc-launcher-tauri/launcher-lib/src/launcher.rs:516-537 | both directions: the list refuses iff some matching "disallow" rule comes before every other deciding rule |
| Rules.NoDeciderAllows | mc-launcher-tauri/launcher-lib/src/launcher.rs:534-536 | when no rule both matches and carries "allow" or "disallow", the answer is allow |
| Rules.RulesIgnoreVersionArchFeatures | mc-launcher-tauri/launcher-lib/src/launcher.rs:527-528 | two lists that agree on every action and OS name evaluate alike, whatever their OS version, architecture and features say (see also lines 539-556) |
| Libraries.LibraryPathOfCoordinate | mc-launcher-tauri/launcher-lib/src/launcher.rs:558-575 | for `group:artifact:version[:extra…]` the jar is `<libraries>/<group with dots as slashes>/artifact/version/artifact-version[-extra0].jar`; only the first extra segment is used |
| Libraries.NativeBesideLibrary | mc-launcher-tauri/launcher-lib/src/launcher.rs:558-592 | a native classifier jar lies in the same directory as the library's own jar, for coordinates and for plain names, and both lie below the libraries directory |
| LaunchTasks.PlanLibraryDownloads | mc-launcher-tauri/launcher-lib/src/launcher.rs:223-270 | the planned list is the client jar at `versions/<id>/<id>.jar` with the client SHA-1, then every library's tasks in library order |
| LaunchTasks.PlanLibrary | mc-launcher-tauri/launcher-lib/src/launcher.rs:245-268 | one library adds nothing when its rules refuse or it has no downloads; otherwise its artifact (if any), then one task per classifier naming the current system, in table order (see also lines 594-602) |
| LaunchTasks.NativeTasksExactly | mc-launcher-tauri/launcher-lib/src/launcher.rs:260-267 | a task is among a library's native tasks iff some classifier of its table names the current system and the task fetches that classifier's jar (see also lines 594-602) |
| LaunchTasks.LibraryTaskExactly | mc-launcher-tauri/launcher-lib/src/launcher.rs:245-268 | a library's tasks are exactly its artifact task and its suitable native tasks, and only when the library applies |
| LaunchTasks.LibraryTasksExactly | mc-launcher-tauri/launcher-lib/src/launcher.rs:245-268 | the tasks after the client jar are exactly the files that applying libraries contribute, no more and no fewer |
| LaunchTasks.AllLibraryTasksAppend | mc-launcher-tauri/launcher-lib/src/launcher.rs:245-268 | planning a concatenated library list gives the two plans one after the other |
| LaunchTasks.HashPrefix | mc-launcher-tauri/launcher-lib/src/launcher.rs:314-315 | `&hash[0..2]` is a prefix of the hash of one or two characters, taken only when it ends on a character boundary |
| LaunchTasks.PlanAssetDownloads | mc-launcher-tauri/launcher-lib/src/launcher.rs:310-325 | the loop over the index's objects answers `AssetPlan`, including the panic of a hash that cannot be sliced |
| LaunchTasks.AssetPlanPanicSticks | mc-launcher-tauri/launcher-lib/src/launcher.rs:314-315 | once one object's slice panics, the whole plan panics |
| LaunchTasks.AssetPlanMeaning | mc-launcher-tauri/launcher-lib/src/launcher.rs:310-325 | planning panics iff a complete object's hash cannot be sliced; otherwise one task per object with a string hash and a u64 size, whose URL is the resource host + prefix + hash, whose path is `assets/objects/<prefix>/<hash>` and whose SHA-1 is the hash |
| LaunchTasks.CompleteIndicesMeaning | mc-launcher-tauri/launcher-lib/src/launcher.rs:310-325 | the positions of the objects that yield a task are increasing, there is one per such object, and every such object has one |
| LaunchTasks.AssetPlanOrder | mc-launcher-tauri/launcher-lib/src/launcher.rs:310-325 | a plan that does not panic keeps the index order: its k-th task is the one built from the hash of the k-th object that yields a task |
| LaunchArguments.LibraryEntriesCount | mc-launcher-tauri/launcher-lib/src/launcher.rs:403-420 | the classpath gets one entry per library whose rules let it in |
| LaunchArguments.BuildClasspath | mc-launcher-tauri/launcher-lib/src/launcher.rs:403-432 | the loop builds the path of every applying library from its name, in order, then the client jar, joined by ";" on Windows and ":" elsewhere |
| LaunchArguments.ClasspathSplits | mc-launcher-tauri/launcher-lib/src/launcher.rs:403-432 | split at the separator, the classpath gives back the library entries then the client jar: it has (applying libraries + 1) entries and the client jar is last |
| LaunchArguments.TokenValues | mc-launcher-tauri/launcher-lib/src/launcher.rs:473-514 | there is one replacement value for each of the eleven placeholders |
| LaunchArguments.ReplaceAllAbsent | mc-launcher-tauri/launcher-lib/src/launcher.rs:500-513 | a chain of replacements leaves a text unchanged when none of its patterns occurs in it |
| LaunchArguments.SubstituteWithoutTokens | mc-launcher-tauri/launcher-lib/src/launcher.rs:473-514 | an argument holding none of the eleven placeholders is returned unchanged |
| LaunchArguments.ReplaceAllSingle | mc-launcher-tauri/launcher-lib/src/launcher.rs:500-513 | an argument that is exactly the k-th pattern becomes the k-th value when no earlier pattern occurs in it and no later one occurs in that value |
| LaunchArguments.NotContainsToken | mc-launcher-tauri/launcher-lib/src/launcher.rs:500-513 | a placeholder does not occur in another placeholder it differs from at some position |
| LaunchArguments.NoDollarNoToken | mc-launcher-tauri/launcher-lib/src/launcher.rs:500-513 | a text without a dollar sign holds no placeholder, so a substituted value is never substituted again |
| LaunchArguments.PlayerNameFallback | mc-launcher-tauri/launcher-lib/src/launcher.rs:475-480 | `${auth_player_name}` becomes the account name, or "Player" when the name is empty (see also line 500) |
| LaunchArguments.VersionTypeClear | mc-launcher-tauri/launcher-lib/src/launcher.rs:500-510 | none of the eight placeholders replaced before `${version_type}` occurs inside it |
| LaunchArguments.VersionTypeIsRelease | mc-launcher-tauri/launcher-lib/src/launcher.rs:510 | `${version_type}` always becomes "release", whatever the descriptor's type |
| LaunchArguments.SelectOne | mc-launcher-tauri/launcher-lib/src/launcher.rs:443-455 | a plain argument gives itself; a conditional one gives its values when its rules allow, and nothing otherwise |
| LaunchArguments.MapList | mc-launcher-tauri/launcher-lib/src/launcher.rs:457-462 | the loop yields every value substituted, in order |
| LaunchArguments.BuildGameArguments | mc-launcher-tauri/launcher-lib/src/launcher.rs:434-471 | the game arguments are the structured list when `arguments` is present, otherwise the whitespace-split legacy string, each substituted, then `additional_game_args` unchanged |
| LaunchArguments.MapSelected | mc-launcher-tauri/launcher-lib/src/launcher.rs:441-456 | the loop over the structured list substitutes exactly the selected arguments, in order |
| LaunchArguments.ModernArgumentsWin | mc-launcher-tauri/launcher-lib/src/launcher.rs:441-463 | with a structured argument list the legacy string is never read |
| LaunchArguments.LegacyArgumentsPerWord | mc-launcher-tauri/launcher-lib/src/launcher.rs:457-467 | without a structured list there is one argument per word of the legacy string, followed by the extra game arguments |
| LaunchArguments.NativePart | mc-launcher-tauri/launcher-lib/src/launcher.rs:375-382 | there are four native flags when the natives directory exists and none otherwise |
| LaunchArguments.BuildLaunchArguments | mc-launcher-tauri/launcher-lib/src/launcher.rs:358-401 | the command line is `LaunchArgs`: JVM arguments, memory flags, native flags when the natives directory exists, `-cp` and the classpath, the main class, the game arguments |
| LaunchArguments.JvmOptions | mc-launcher-tauri/launcher-lib/src/launcher.rs:366-382 | configured and launch JVM arguments, `-Xms<min>m`, `-Xmx<max>m`, then the four `-D` flags only when the natives directory exists |
| LaunchArguments.CommandLineLayout | mc-launcher-tauri/launcher-lib/src/launcher.rs:358-401 | each part sits at its own position: configured JVM arguments, launch JVM arguments, the two memory flags, the native flags, `-cp`, the classpath, the main class and, last, the game arguments |
| LaunchArguments.JvmListUnused | mc-launcher-tauri/launcher-lib/src/launcher.rs:358-401 | the descriptor's structured JVM argument list does not change the command line (see also lines 434-471) |
| NativeExtraction.Slashed | mc-launcher-tauri/launcher-lib/src/launcher.rs:655-658 | rewriting the separators of an entry name keeps its length (a backslash counts as a separator on Windows only) |
| NativeExtraction.EnclosedName | mc-launcher-tauri/launcher-lib/src/launcher.rs:655-658 | an entry has an enclosed name iff it holds no NUL, is neither rooted nor drive-prefixed, and no prefix of its components climbs above the start; the name is then its components |
| NativeExtraction.JoinStaysInside | mc-launcher-tauri/launcher-lib/src/launcher.rs:665 | joining a name that never climbs out gives a path below the natives directory, as deep as the name |
| NativeExtraction.ParentEscapes | mc-launcher-tauri/launcher-lib/src/launcher.rs:655-658 | a bare ".." would leave the natives directory, and it is refused |
| NativeExtraction.ExtractNativeJar | mc-launcher-tauri/launcher-lib/src/launcher.rs:645-699 | an unopenable file or a non-ZIP archive gives its File error; otherwise the entries are extracted in archive order (`ExtractJar`) |
| NativeExtraction.ExtractEntries | mc-launcher-tauri/launcher-lib/src/launcher.rs:652-696 | the entry loop stops at the first error and keeps what earlier entries wrote (`RunEntries`) |
| NativeExtraction.RunEntriesSnoc | mc-launcher-tauri/launcher-lib/src/launcher.rs:652-696 | one more entry runs only when the earlier ones brought no error |
| NativeExtraction.RunEntriesStops | mc-launcher-tauri/launcher-lib/src/launcher.rs:652-696 | after an error no later entry is looked at |
| NativeExtraction.SkippedEntry | mc-launcher-tauri/launcher-lib/src/launcher.rs:655-663 | an entry without an enclosed name, or whose first component is `META-INF`, leaves the file system unchanged |
| NativeExtraction.FileEntryWritten | mc-launcher-tauri/launcher-lib/src/launcher.rs:665-695 | an accepted file entry lands below the natives directory; when it succeeds the file holds exactly the entry's bytes and, outside Windows, has mode 0o755 |
| NativeExtraction.WriteFileWritten | mc-launcher-tauri/launcher-lib/src/launcher.rs:672-694 | a file write, path by path: a parent directory that cannot be made, an output file that cannot be created, bytes that cannot be written on a full disk and a mode that cannot be set each give their own File error with the system's text and the file system as that step left it; the write succeeds exactly when the bytes fit and, outside Windows, the mode can be set, and then the output path holds exactly the data, with mode 0o755 outside Windows |
| NativeExtraction.LibraryStep | mc-launcher-tauri/launcher-lib/src/launcher.rs:617-636 | one pass of the loop over the libraries either ends the whole extraction with its error or extends the extracted prefix by that library's jars |
| NativeExtraction.EscapingNameSkipped | mc-launcher-tauri/launcher-lib/src/launcher.rs:655-658 | a name whose ".." climbs out is never written |
| NativeExtraction.ConfinedTrans | mc-launcher-tauri/launcher-lib/src/launcher.rs:652-696 | confinement to the natives directory composes across steps |
| NativeExtraction.CreateDirAllConfined | mc-launcher-tauri/launcher-lib/src/launcher.rs:667-668 | creating the directories of a path on the way to, or below, the natives directory is confined (see also lines 671-672) |
| NativeExtraction.CreateFileConfined | mc-launcher-tauri/launcher-lib/src/launcher.rs:676-677 | creating a file below the natives directory is confined |
| NativeExtraction.WriteContentsConfined | mc-launcher-tauri/launcher-lib/src/launcher.rs:679-694 | copying the data and setting the mode below the natives directory is confined |
| NativeExtraction.CreateAndWriteConfined | mc-launcher-tauri/launcher-lib/src/launcher.rs:676-694 | creating and filling a file below the natives directory is confined |
| NativeExtraction.ParentRelated | mc-launcher-tauri/launcher-lib/src/launcher.rs:670-673 | the parent of a path below the natives directory is on the way to it or below it |
| NativeExtraction.WriteFileConfined | mc-launcher-tauri/launcher-lib/src/launcher.rs:669-695 | writing one file entry changes nothing outside the natives directory |
| NativeExtraction.PlaceEntryConfined | mc-launcher-tauri/launcher-lib/src/launcher.rs:665-695 | placing one accepted entry changes nothing outside the natives directory |
| NativeExtraction.EntryStepConfined | mc-launcher-tauri/launcher-lib/src/launcher.rs:652-696 | one pass of the entry loop changes nothing outside the natives directory |
| NativeExtraction.RunEntriesConfined | mc-launcher-tauri/launcher-lib/src/launcher.rs:652-696 | the whole entry loop changes nothing outside the natives directory |
| NativeExtraction.ExtractJarConfined | mc-launcher-tauri/launcher-lib/src/launcher.rs:645-699 | unpacking one jar removes no file and changes no file, mode or directory outside the natives directory |
| NativeExtraction.ClassifierJarsArePlanned | mc-launcher-tauri/launcher-lib/src/launcher.rs:260-267 | the jars extraction looks for in a library are exactly the destinations of the native downloads planned for it, in the same order (see also lines 626-630) |
| NativeExtraction.ExtractAllAppend | mc-launcher-tauri/launcher-lib/src/launcher.rs:617-636 | extracting two lists of jars is extracting the first and then, unless it failed, the second |
| NativeExtraction.ExtractOne | mc-launcher-tauri/launcher-lib/src/launcher.rs:630-633 | a single jar is extracted when it exists and passed over otherwise |
| NativeExtraction.ExtractFlatSnoc | mc-launcher-tauri/launcher-lib/src/launcher.rs:617-636 | one more library or classifier extends the extraction by its own jars, unless an error came first |
| NativeExtraction.ExtractFlatStops | mc-launcher-tauri/launcher-lib/src/launcher.rs:633 | after an error the remaining libraries are not looked at |
| NativeExtraction.NoJarNoChange | mc-launcher-tauri/launcher-lib/src/launcher.rs:630 | when none of the native jars is on disk, the jar loop changes nothing |
| NativeExtraction.ExtractAllConfined | mc-launcher-tauri/launcher-lib/src/launcher.rs:617-636 | extracting every jar changes nothing outside the natives directory |
| NativeExtraction.PrepareNativesConfined | mc-launcher-tauri/launcher-lib/src/launcher.rs:611-615 | the natives directory is created here when missing, which is confined, and exists afterwards |
| NativeExtraction.ConfinedKeepsExisting | mc-launcher-tauri/launcher-lib/src/launcher.rs:611-636 | a confined step keeps every existing file and directory |
| NativeExtraction.ExtractNativesConfined | mc-launcher-tauri/launcher-lib/src/launcher.rs:605-642 | `extract_native_libraries` changes nothing outside `versions/<id>/natives`, and when it succeeds that directory exists |
| NativeExtraction.ExtractIntoConfined | mc-launcher-tauri/launcher-lib/src/launcher.rs:611-636 | creating the natives directory and then extracting the jars is confined and leaves the directory in place |
| NativeExtraction.NothingToExtract | mc-launcher-tauri/launcher-lib/src/launcher.rs:611-636 | with the natives directory present and no native jar on disk, extraction changes nothing |
| NativeExtraction.ExtractNativeLibraries | mc-launcher-tauri/launcher-lib/src/launcher.rs:605-642 | the method yields `ExtractNatives`: create the natives directory if missing, then unpack each suitable jar of each applying library that is on disk, stopping at the first error |
| NativeExtraction.ExtractLibraries | mc-launcher-tauri/launcher-lib/src/launcher.rs:617-636 | the library loop extracts exactly the native jars of the library list, stopping at the first error |
| NativeExtraction.ExtractLibrary | mc-launcher-tauri/launcher-lib/src/launcher.rs:618-635 | a library whose rules refuse, or that has no classifier table, contributes nothing |
| NativeExtraction.ExtractClassifiers | mc-launcher-tauri/launcher-lib/src/launcher.rs:624-634 | the classifier loop extracts the suitable jars in table order, stopping at the first error |
| NativeExtraction.ExtractClassifier | mc-launcher-tauri/launcher-lib/src/launcher.rs:625-633 | a classifier that does not name the system, or whose jar is missing, is passed over |
| Launchers.LauncherDirs | mc-launcher-tauri/launcher-lib/src/launcher.rs:27-37 | when `Launcher::new` succeeds the Minecraft directory and its `cache` exist, no file changed and no directory was lost; a failure is a File error |
| Launchers.LauncherSetupMeaning | mc-launcher-tauri/launcher-lib/src/launcher.rs:27-40 | both directions: `Launcher::new` succeeds iff both directories and both HTTP clients are made; a directory failure is its File error; a client that cannot be built (the version manager's first, then the downloader's) gives "Failed to create HTTP client: <its text>" with the directories already made |
| Launchers.InstanceDirectories | mc-launcher-tauri/launcher-lib/src/launcher.rs:200-212 | the instance directory comes first, then nine direct children of it |
| Launchers.SetupDirsEffect | mc-launcher-tauri/launcher-lib/src/launcher.rs:200-221 | after a successful setup every listed directory exists, the files are unchanged, no directory was lost and no deeper directory appeared |
| Launchers.SetupLeavesNatives | mc-launcher-tauri/launcher-lib/src/launcher.rs:200-221 | the setup makes the whole instance tree but not `versions/<id>/natives`, which only extraction creates (see also lines 611-615) |
| Launchers.CreateLaunchConfig | mc-launcher-tauri/launcher-lib/src/launcher.rs:87-99 | succeeds iff the version is in the manifest, with the lookup's error otherwise; the configuration is `LaunchConfig::new` for that version in the instance `instance-<version>` |
| Launchers.States | mc-launcher-tauri/launcher-lib/src/launcher.rs:151-183 | the slots of the tracked processes, one per handle in list order |
| Launchers.WithChild | mc-launcher-tauri/launcher-lib/src/launcher.rs:176-180 | the number of processes that still hold a child, at most the list length |
| Launchers.RunningOnly | mc-launcher-tauri/launcher-lib/src/launcher.rs:151-163 | keeps exactly the tracked handles whose stored status is Running |
| Launchers.RunningOnlyDistinct | mc-launcher-tauri/launcher-lib/src/launcher.rs:151-163 | filtering a list without repeats leaves a list without repeats |
| Launchers.FilterRunning | mc-launcher-tauri/launcher-lib/src/launcher.rs:155-160 | the loop keeps exactly the handles whose stored status is Running, in order |
| Launchers.KillEach | mc-launcher-tauri/launcher-lib/src/launcher.rs:175-180 | every process is killed in turn: each ends in its kill transition, and the count is the number of processes that still had a child, i.e. the kills that returned Ok |
| Launchers.KilledIsNotRunning | mc-launcher-tauri/launcher-lib/src/launcher.rs:155-160 | a killed process stores a status other than Running, which `get_status` cannot see |
| Launchers.Launcher.constructor | mc-launcher-tauri/launcher-lib/src/launcher.rs:42-49 | a launcher holds its configuration, no processes, and a fresh Java finder with an empty cache |
| Launchers.Launcher.New | mc-launcher-tauri/launcher-lib/src/launcher.rs:27-50 | the result is `LauncherSetup`: the launcher exists only when both directories and both HTTP clients were made, with the given configuration, an empty process list and an empty Java cache |
| Launchers.Launcher.InstanceDir | mc-launcher-tauri/launcher-lib/src/launcher.rs:196-198 | the instance directory is `<minecraft_dir>/instances/<name>` |
| Launchers.Launcher.SetupInstanceDirectories | mc-launcher-tauri/launcher-lib/src/launcher.rs:200-221 | the loop makes the ten instance directories in order and reports the first failure with the directory's name |
| Launchers.Launcher.GetJavaPath | mc-launcher-tauri/launcher-lib/src/launcher.rs:343-356 | a configured Java path is returned as is and the cache is untouched; otherwise the finder is asked for the descriptor's Java major version, 8 when it names none |
| Launchers.Launcher.StartAndTrack | mc-launcher-tauri/launcher-lib/src/launcher.rs:123-148 | a failed spawn gives a Launch error and tracks nothing; a spawned process is appended to the list in state Running with its pid, and the launch fails with "Process not started" after tracking when there is no pid |
| Launchers.Launcher.GetActiveProcesses | mc-launcher-tauri/launcher-lib/src/launcher.rs:151-163 | since `get_status` always reports Running, the list is returned unchanged and nothing is dropped |
| Launchers.Launcher.RetainRunningProcesses | mc-launcher-tauri/launcher-lib/src/launcher.rs:151-163 | the evident intent: only the processes whose stored status is Running stay, without repeats |
| Launchers.Launcher.KillAll | mc-launcher-tauri/launcher-lib/src/launcher.rs:166-183 | the list is emptied first; every formerly tracked process is killed, none keeps a child, and the count is the number that had one |
| Launchers.Launcher.UpdateConfig | mc-launcher-tauri/launcher-lib/src/launcher.rs:190-193 | the configuration is replaced and the tracked processes stay |
| Minecraft.StartStep | mc-launcher-tauri/launcher-lib/src/minecraft.rs:68-151 | `start` succeeds iff the spawn does; then the child is stored, the status is Running and the pid is the child's id; a failed spawn leaves the status Starting and gives "Failed to start Minecraft process: …" as a Launch error |
| Minecraft.PidOf | mc-launcher-tauri/launcher-lib/src/minecraft.rs:155-158 | `get_pid` fails with Launch "Process not started" exactly when no pid is stored, and otherwise gives the stored pid |
| Minecraft.KillStep | mc-launcher-tauri/launcher-lib/src/minecraft.rs:185-223 | without a child: "No process to kill" and no change; with one: Ok, the child and the pid are cleared and the status is an exit or a failed wait |
| Minecraft.WaitStep | mc-launcher-tauri/launcher-lib/src/minecraft.rs:227-254 | without a child: an error and no change; with one: the child is taken and the pid kept, an exit is stored and returned, a failed wait is stored as Failed and reported |
| Minecraft.ExitCodes | mc-launcher-tauri/launcher-lib/src/minecraft.rs:196-203 | a successful exit is recorded as 0, an unsuccessful one as its code, or -1 when a signal ended it (see also lines 231-236) |
| Minecraft.KillOnce | mc-launcher-tauri/launcher-lib/src/minecraft.rs:188-215 | a second `kill` finds no child, fails, and leaves the outcome of the first in place |
| Minecraft.KillAndWaitDiffer | mc-launcher-tauri/launcher-lib/src/minecraft.rs:185-254 | after `kill` the handle has no child and no pid; after `wait` it has no child but keeps its pid |
| Minecraft.KilledNeverRecorded | mc-launcher-tauri/launcher-lib/src/minecraft.rs:68-254 | no transition ever records the Killed status |
| Minecraft.RedactArg | mc-launcher-tauri/launcher-lib/src/minecraft.rs:77-81 | an argument naming "accessToken" or "access_token" becomes at most its first 20 characters followed by "...***REDACTED***"; any other is logged as is |
| Minecraft.RedactArgs | mc-launcher-tauri/launcher-lib/src/minecraft.rs:76-82 | the logged copy has the arguments' length and each element is redacted on its own |
| Minecraft.TokenLoggedInClear | mc-launcher-tauri/launcher-lib/src/minecraft.rs:76-82 | the token passed as the element after "--accessToken" does not name the token, so it is logged in full |
| Minecraft.RedactArgsFixed | mc-launcher-tauri/launcher-lib/src/minecraft.rs:76-82 | the evident intent: sensitive arguments are redacted as before, the element after one is hidden whole, and all others are logged unchanged |
| Minecraft.TokenHidden | mc-launcher-tauri/launcher-lib/src/minecraft.rs:76-82 | with the corrected redaction a token passed after "--accessToken" never reaches the log |
| Minecraft.ReadCount | mc-launcher-tauri/launcher-lib/src/minecraft.rs:322-327 | the listing loop reads a prefix of the entries, all of them readable; it stops at the first failed entry |
| Minecraft.KeptMembership | mc-launcher-tauri/launcher-lib/src/minecraft.rs:322-327 | an entry is kept iff the filter picks it and it was listed |
| Minecraft.ReportsMembership | mc-launcher-tauri/launcher-lib/src/minecraft.rs:324-326 | the collected reports are exactly the listed regular files with extension "txt" |
| Minecraft.NewerIsStrict | mc-launcher-tauri/launcher-lib/src/minecraft.rs:330-334 | "strictly newer" is a strict order, so the sort is well-defined |
| Minecraft.NewestFirstMembers | mc-launcher-tauri/launcher-lib/src/minecraft.rs:311-336 | a report is listed iff it is a regular ".txt" file read before the first failed entry |
| Minecraft.CrashReportsMeaning | mc-launcher-tauri/launcher-lib/src/minecraft.rs:311-336 | `list_crash_reports` yields a permutation of the collected reports, exactly the ".txt" files read, sorted newest first with an unreadable time counting as the epoch, each as `crash-reports/<name>` |
| Minecraft.ReadCountAt | mc-launcher-tauri/launcher-lib/src/minecraft.rs:322 | the loop has read `i` entries when all before `i` were read and entry `i` failed or is past the end |
| Minecraft.KeptStep | mc-launcher-tauri/launcher-lib/src/minecraft.rs:322-327 | reading one more entry adds it when the filter picks it |
| Minecraft.CollectKept | mc-launcher-tauri/launcher-lib/src/minecraft.rs:322-327 | the `while let Ok(Some(_))` loop stops at the first failed entry and keeps the picked entries in listing order |
| Minecraft.LatestIsNewest | mc-launcher-tauri/launcher-lib/src/minecraft.rs:345-354 | when there is a report, the one `get_latest_crash_report` reads is at least as new as every other |
| Minecraft.ReadLogs | mc-launcher-tauri/launcher-lib/src/minecraft.rs:293-303 | a missing log file gives "No logs available yet", a readable one its text, any other failure a File error |
| Minecraft.MinecraftProcess.constructor | mc-launcher-tauri/launcher-lib/src/minecraft.rs:52-60 | a new handle has no child, status Starting and no pid, and keeps the Java path, arguments, working directory and account |
| Minecraft.MinecraftProcess.New | mc-launcher-tauri/launcher-lib/src/minecraft.rs:46-64 | `new` builds and starts a handle: it returns one iff the spawn succeeds, in the state `start` leaves, and otherwise only the start error |
| Minecraft.MinecraftProcess.Start | mc-launcher-tauri/launcher-lib/src/minecraft.rs:68-151 | the slots change as `StartStep` says |
| Minecraft.MinecraftProcess.GetPid | mc-launcher-tauri/launcher-lib/src/minecraft.rs:155-158 | answers `PidOf` of the slots |
| Minecraft.MinecraftProcess.GetStatus | mc-launcher-tauri/launcher-lib/src/minecraft.rs:161-165 | always Running, whatever the slots hold |
| Minecraft.MinecraftProcess.GetStatusAsync | mc-launcher-tauri/launcher-lib/src/minecraft.rs:168-171 | the stored status |
| Minecraft.MinecraftProcess.IsRunning | mc-launcher-tauri/launcher-lib/src/minecraft.rs:174-182 | true iff a child handle is stored |
| Minecraft.MinecraftProcess.Kill | mc-launcher-tauri/launcher-lib/src/minecraft.rs:185-223 | the slots change as `KillStep` says |
| Minecraft.MinecraftProcess.Wait | mc-launcher-tauri/launcher-lib/src/minecraft.rs:227-254 | the slots change as `WaitStep` says |
| Minecraft.MinecraftProcess.ListCrashReports | mc-launcher-tauri/launcher-lib/src/minecraft.rs:311-336 | a directory that cannot be read is a File error; otherwise the reports newest first (`CrashReports`) |
| Minecraft.MinecraftProcess.GetLatestCrashReport | mc-launcher-tauri/launcher-lib/src/minecraft.rs:338-354 | None when there is no report; otherwise the text of the first listed one, or a File error when it cannot be read |
| Downloader.ReportsCumulative | mc-launcher-tauri/launcher-lib/src/downloader.rs:240-254 | every progress report carries the total size, the byte counts never decrease, and the last one equals the bytes received so far |
| Downloader.ReadChunksComplete | mc-launcher-tauri/launcher-lib/src/downloader.rs:240-248 | the body is read without error iff every chunk arrives, and there is at most one report per chunk |
| Downloader.ReadChunksStops | mc-launcher-tauri/launcher-lib/src/downloader.rs:241-243 | the first failing chunk ends the read: later chunks change nothing |
| Downloader.CalculateSha1 | mc-launcher-tauri/launcher-lib/src/downloader.rs:173-185 | reading succeeds iff the file exists, and the value is the digest of its whole content |
| Downloader.FinishElsewhere | mc-launcher-tauri/launcher-lib/src/downloader.rs:257-280 | hash check and rename touch no path besides the temporary file and the destination |
| Downloader.FinishKeepsDestOnError | mc-launcher-tauri/launcher-lib/src/downloader.rs:257-277 | when the hash check or the rename fails the destination is as it was |
| Downloader.FinishSuccess | mc-launcher-tauri/launcher-lib/src/downloader.rs:257-282 | on success the destination holds the temporary file's bytes, their digest is the expected one, the temporary file is gone and `(total, total)` is reported last |
| Downloader.FinishMismatch | mc-launcher-tauri/launcher-lib/src/downloader.rs:97-108 | a wrong digest gives the validation error "Hash mismatch for <dest>: expected <h>, got <actual>" and removes the temporary file |
| Downloader.WrittenHoldsBody | mc-launcher-tauri/launcher-lib/src/downloader.rs:75-94 | creating the temporary file and writing the chunks leaves exactly their concatenation in it |
| Downloader.TransferElsewhere | mc-launcher-tauri/launcher-lib/src/downloader.rs:58-116 | from the request on, no path besides the temporary file and the destination changes |
| Downloader.TransferKeepsDestOnError | mc-launcher-tauri/launcher-lib/src/downloader.rs:58-116 | from the request on, any error leaves the destination as it was |
| Downloader.TransferSuccess | mc-launcher-tauri/launcher-lib/src/downloader.rs:229-282 | a successful transfer had a 2xx status, a complete body and no refused write, and leaves exactly that body at the destination with the expected digest and no temporary file |
| Downloader.TransferMismatch | mc-launcher-tauri/launcher-lib/src/downloader.rs:97-108 | a complete body that could be written, with the wrong digest, ends in the hash-mismatch error with the temporary file removed |
| Downloader.SkipMakesNoRequest | mc-launcher-tauri/launcher-lib/src/downloader.rs:37-54 | both directions: no request is made iff the destination already has the expected digest or its parent cannot be created; an already valid file leaves everything unchanged with nothing reported |
| Downloader.FetchedUnlessValid | mc-launcher-tauri/launcher-lib/src/downloader.rs:37-47 | without an expected digest, or with a destination that is missing or different, the file is requested |
| Downloader.BadStatusWritesNothing | mc-launcher-tauri/launcher-lib/src/downloader.rs:64-70 | a status outside 2xx is a Download error and no file has changed |
| Downloader.OnlyTmpAndDestChange | mc-launcher-tauri/launcher-lib/src/downloader.rs:32-117 | a download changes no file other than the destination and its `.tmp` sibling |
| Downloader.FailureKeepsDestination | mc-launcher-tauri/launcher-lib/src/downloader.rs:32-117 | a failed download leaves the destination's presence and content as they were |
| Downloader.SuccessHoldsBody | mc-launcher-tauri/launcher-lib/src/downloader.rs:188-285 | a download that was requested and succeeded leaves exactly the whole body at the destination with the expected digest and no temporary file, and reports the per-chunk counts then `(total, total)`; a failure reports a prefix of them, and a skipped download reports nothing |
| Downloader.MismatchRemovesTmp | mc-launcher-tauri/launcher-lib/src/downloader.rs:97-108 | a received body that could be written, with the wrong digest, is the mismatch error naming destination, expected and actual digests, and no temporary file is left |
| Downloader.WriteFailureLeavesTmp | mc-launcher-tauri/launcher-lib/src/downloader.rs:236-249 | a chunk that cannot be written ends the download with a File error carrying the system's text, and the empty temporary file stays behind |
| Downloader.DownloadFile | mc-launcher-tauri/launcher-lib/src/downloader.rs:188-285 | the method's result is `DownloadOutcome`, about which the lemmas above speak |
| Downloader.TransferFile | mc-launcher-tauri/launcher-lib/src/downloader.rs:219-285 | the request-to-rename steps give `Transfer` |
| Downloader.StreamToFile | mc-launcher-tauri/launcher-lib/src/downloader.rs:240-254 | the chunk loop, with its writes refused on a full disk, leaves the file system, the failure and the reports that `Stream` describes |
| Downloader.ReadChunksPrefix | mc-launcher-tauri/launcher-lib/src/downloader.rs:240-254 | the reports of a run cut short before any read error are a prefix of the whole body's reports |
| Downloader.FirstNonEmptyMeaning | mc-launcher-tauri/launcher-lib/src/downloader.rs:243-252 | the chunks before the first non-empty one are empty, and that one is not: on a full disk it is the first write that fails |
| Downloader.StreamMeaning | mc-launcher-tauri/launcher-lib/src/downloader.rs:240-254 | both directions: the loop ends cleanly iff every chunk arrives and no write is refused, and then the file holds the whole body after what it held; a refused write is a write failure with the system's text that leaves the file system as it was; a read failure keeps the bytes read before it; only the temporary file changes, and the reports are a prefix of the body's |
| Downloader.StreamReports | mc-launcher-tauri/launcher-lib/src/downloader.rs:240-254 | a loop that ends cleanly read the whole body and wrote all of it; a loop that stops reports a prefix of the body's reports |
| Downloader.StreamElsewhere | mc-launcher-tauri/launcher-lib/src/downloader.rs:240-254 | the loop changes no file but the temporary one |
| Downloader.AfterStreamElsewhere | mc-launcher-tauri/launcher-lib/src/downloader.rs:243-282 | what follows the chunk loop changes no file but the temporary file and the destination |
| Downloader.AfterStreamKeepsDest | mc-launcher-tauri/launcher-lib/src/downloader.rs:243-282 | when the chunk loop or what follows it fails, the destination is as it was |
| Downloader.AfterStreamSuccess | mc-launcher-tauri/launcher-lib/src/downloader.rs:243-282 | success needs a chunk loop that ended cleanly; then the destination holds the temporary file's bytes with the expected digest, the temporary file is gone and the last report is the 100% one |
| Downloader.TransferCases | mc-launcher-tauri/launcher-lib/src/downloader.rs:220-238 | a bad status or a temporary file that cannot be created ends the request with an error and no change; otherwise the download is the chunk loop on the created file and what follows it |
| Downloader.TransferWriteRefused | mc-launcher-tauri/launcher-lib/src/downloader.rs:247-249 | on a full disk the first chunk with bytes ends the download with the File error "Failed to write chunk: …" carrying the system's text; the empty temporary file stays and only a prefix of the reports was made |
| Downloader.AppendTwice | mc-launcher-tauri/launcher-lib/src/downloader.rs:84-86 | two writes to a file are one write of the concatenation |
| Downloader.FinishFile | mc-launcher-tauri/launcher-lib/src/downloader.rs:257-282 | the hash check and rename give `Finish` |
| Downloader.FailuresCounted | mc-launcher-tauri/launcher-lib/src/downloader.rs:136-153 | no failure is collected iff every task succeeds, and there is at most one failure per task |
| Downloader.FirstFailure | mc-launcher-tauri/launcher-lib/src/downloader.rs:136-153 | the first collected failure is that of the first failing task |
| Downloader.BatchFailsIff | mc-launcher-tauri/launcher-lib/src/downloader.rs:120-170 | both directions: the batch fails iff some task fails, and its error is a Download error |
| Downloader.BatchNamesFirstFailure | mc-launcher-tauri/launcher-lib/src/downloader.rs:155-162 | the batch's message is "<n> downloads failed. First error: <first task's error>" |
| Downloader.DownloadFiles | mc-launcher-tauri/launcher-lib/src/downloader.rs:120-170 | the method's result is `DownloadAll`: nothing for no tasks, otherwise every task is run |
| Downloader.RunBatch | mc-launcher-tauri/launcher-lib/src/downloader.rs:128-153 | the task loop and the in-order awaiting collect `RunTasks`'s files and failures |
| Downloader.DownloadTaskFile | mc-launcher-tauri/launcher-lib/src/downloader.rs:133-136 | each task is a download with its digest given |
| Utils.ParseTakesFirstVersionLine | mc-launcher-tauri/launcher-lib/src/utils.rs:205-240 | the parse fails, with "Could not parse Java version", iff no line names a version; otherwise it gives the version of the first line that does, skipping lines whose quoted text does not parse |
| Utils.QuotedTextOf | mc-launcher-tauri/launcher-lib/src/utils.rs:214-216 | the version text is exactly what lies between the first two double quotes |
| Utils.QuotedLine | mc-launcher-tauri/launcher-lib/src/utils.rs:212-233 | a line that mentions "version" yields the major of its quoted text |
| Utils.LegacyMajor | mc-launcher-tauri/launcher-lib/src/utils.rs:219-225 | a "1.x.…" text names major x |
| Utils.ModernMajor | mc-launcher-tauri/launcher-lib/src/utils.rs:226-232 | any other text names its first dot-separated piece |
| Utils.LegacyExample | mc-launcher-tauri/launcher-lib/src/utils.rs:207 | "1.8.0_301" names 8 |
| Utils.ModernExample | mc-launcher-tauri/launcher-lib/src/utils.rs:208-209 | "17.0.2" names 17 |
| Utils.EarlyAccessExample | mc-launcher-tauri/launcher-lib/src/utils.rs:226-232 | "17-ea" names nothing, since "17-ea" is not an `i32` |
| Utils.VerifyJavaVersion | mc-launcher-tauri/launcher-lib/src/utils.rs:191-202 | both directions: `Ok(true)` iff `java -version` ran and its output parses to the required major; a failure to run is the Process error "Failed to run java -version: …" |
| Utils.JavaExecutableIn | mc-launcher-tauri/launcher-lib/src/utils.rs:171-188 | a hit exists and is one of `bin/java`, `Contents/Home/bin/java`, `java` (".exe" on Windows); no hit iff none of them exists |
| Utils.DirectoryHitVerified | mc-launcher-tauri/launcher-lib/src/utils.rs:128-150 | what a search directory yields exists and passed the version check |
| Utils.PathHitVerified | mc-launcher-tauri/launcher-lib/src/utils.rs:153-168 | what PATH yields exists and passed the version check |
| Utils.SearchFindsVerified | mc-launcher-tauri/launcher-lib/src/utils.rs:49-67 | whatever the search returns exists and passed the version check |
| Utils.SearchOrder | mc-launcher-tauri/launcher-lib/src/utils.rs:49-61 | the first search directory with a hit decides, before any later one and before PATH |
| Utils.FirstExisting | mc-launcher-tauri/launcher-lib/src/utils.rs:181-187 | the candidate loop returns the first candidate that exists |
| Utils.FindJavaExecutable | mc-launcher-tauri/launcher-lib/src/utils.rs:171-188 | the method gives `JavaExecutableIn` |
| Utils.FindJavaInDirectory | mc-launcher-tauri/launcher-lib/src/utils.rs:128-150 | the method gives the first entry, in listing order, that is a directory holding an executable that passes the check; nothing for a missing directory |
| Utils.FirstInstallation | mc-launcher-tauri/launcher-lib/src/utils.rs:137-147 | the entry loop returns the first passing installation |
| Utils.InstallationStep | mc-launcher-tauri/launcher-lib/src/utils.rs:138-145 | one entry is kept only when it is a directory with an executable whose check gives `Ok(true)` (an error counts as false) |
| Utils.FindJavaInPath | mc-launcher-tauri/launcher-lib/src/utils.rs:153-168 | the loop over PATH returns the first `entry/java` that exists and passes; nothing without PATH |
| Utils.PathStep | mc-launcher-tauri/launcher-lib/src/utils.rs:158-163 | one PATH entry is kept when its `java` exists and passes |
| Utils.SearchDirectories | mc-launcher-tauri/launcher-lib/src/utils.rs:52-56 | the loop over the search directories returns the first hit |
| Utils.SearchJavaInstallations | mc-launcher-tauri/launcher-lib/src/utils.rs:49-67 | the method gives `SearchJava`, falling back to PATH and then to the Config error "Could not find Java <n> installation" |
| Utils.FindJavaStep | mc-launcher-tauri/launcher-lib/src/utils.rs:25-46 | a cached path whose check fails with an error gives that error; one that passes is returned with the cache unchanged; otherwise the search result is returned and, when it is a hit, cached under the version |
| Utils.SecondLookupCached | mc-launcher-tauri/launcher-lib/src/utils.rs:25-46 | after a search found an installation, the next lookup of that version answers from the cache without searching |
| Utils.JavaFinder.constructor | mc-launcher-tauri/launcher-lib/src/utils.rs:18-22 | the cache starts empty |
| Utils.JavaFinder.FindJava | mc-launcher-tauri/launcher-lib/src/utils.rs:25-46 | the cache and the result change as `FindJavaStep` says |
| Utils.HashFile | mc-launcher-tauri/launcher-lib/src/utils.rs:287-297 | reading in pieces of at most 1024 bytes feeds the whole file, in order, to the hasher |
| Utils.PlainDownload | mc-launcher-tauri/launcher-lib/src/utils.rs:279-317 | an existing file with the given SHA-1 is kept and no request is sent; a request is sent iff the file is not kept and the path is not an unreadable non-file; a chunk that does not arrive is an HTTP error and one that cannot be written an I/O error |
| Utils.InstallsWithoutChecks | mc-launcher-tauri/launcher-lib/src/utils.rs:304-316 | any complete body whose writes are not refused is installed at the path, whatever the status and whatever its digest |
| Utils.DownloadFile | mc-launcher-tauri/launcher-lib/src/utils.rs:279-317 | the method gives `PlainDownload` |
| JavaRuntime.GetRequiredJavaVersion | mc-launcher-tauri/launcher-lib/src/java.rs:223-238 | the answer is always Java 8, 17 or 21 |
| JavaRuntime.ReleaseRequirement | mc-launcher-tauri/launcher-lib/src/java.rs:224-235 | a release "1.m", "1.m.p", … needs Java 21 from m = 20, Java 17 from m = 17, and Java 8 below |
| JavaRuntime.UndottedNeedsJava8 | mc-launcher-tauri/launcher-lib/src/java.rs:225-237 | a version without a dot (a snapshot name) needs Java 8 |
| JavaRuntime.QuotedMajorPasses | mc-launcher-tauri/launcher-lib/src/java.rs:211-216 | a first stderr line containing `"N` for the expected major N passes the check |
| JavaRuntime.UnquotedFirstLineFails | mc-launcher-tauri/launcher-lib/src/java.rs:211-219 | a first line without a double quote fails the check, whatever the later lines say |
| JavaRuntime.ExecutableBelowSound | mc-launcher-tauri/launcher-lib/src/java.rs:174-200 | what the recursive search returns lies below the searched directory, exists, and is called like the executable |
| JavaRuntime.ExecutableAmongSound | mc-launcher-tauri/launcher-lib/src/java.rs:188-196 | a hit in some subdirectory, in listing order, lies below the directory, exists, and has the executable's name |
| JavaRuntime.FindJavaExecutableRecursive | mc-launcher-tauri/launcher-lib/src/java.rs:174-200 | the method gives `ExecutableBelow`: `bin/<exe>`, then `Contents/Home/bin/<exe>`, then the subdirectories depth first |
| JavaRuntime.RuntimeAmongHit | mc-launcher-tauri/launcher-lib/src/java.rs:150-162 | a runtime the loop returns is the executable found below one of the runtime directory's subdirectories |
| JavaRuntime.RuntimeAmongSound | mc-launcher-tauri/launcher-lib/src/java.rs:150-162 | a runtime the loop returns passed the version check, lies below the runtime directory and exists |
| JavaRuntime.RuntimeInSound | mc-launcher-tauri/launcher-lib/src/java.rs:144-163 | a runtime found exists in the tree, has the executable's name, passed the check, and the tree is unchanged |
| JavaRuntime.FoundRuntimeSound | mc-launcher-tauri/launcher-lib/src/java.rs:144-163 | a runtime `find_java_runtime` returns exists, is the platform's `java`/`java.exe` and passes `check_java_version` for the major |
| JavaRuntime.MissingRuntimeDirCreated | mc-launcher-tauri/launcher-lib/src/java.rs:145-148 | a missing runtime directory gives no runtime and is created, as an empty directory, exactly when `create_dir_all` can make it |
| JavaRuntime.FindJavaRuntime | mc-launcher-tauri/launcher-lib/src/java.rs:144-163 | the method gives `JavaRuntimeIn`, about which the lemmas below speak |
| JavaRuntime.FirstPassingNone | mc-launcher-tauri/launcher-lib/src/java.rs:150-162 | both directions: the entry loop finds nothing iff every candidate is passed over, for lack of an executable or by a check answering false |
| JavaRuntime.FirstPassingFound | mc-launcher-tauri/launcher-lib/src/java.rs:150-162 | what the loop returns is the first candidate that is not passed over, and it passed the check |
| JavaRuntime.FirstPassingError | mc-launcher-tauri/launcher-lib/src/java.rs:155-157 | a check that fails to run ends the loop with its own error, at the first candidate that is not passed over |
| JavaRuntime.RuntimeHitsAt | mc-launcher-tauri/launcher-lib/src/java.rs:151-155 | there is one candidate per directory entry: the executable below the entry when it is a directory, nothing otherwise |
| JavaRuntime.RuntimeInFirst | mc-launcher-tauri/launcher-lib/src/java.rs:144-163 | in a runtime directory that can be listed, the tree is unchanged; nothing is found iff every entry is passed over; otherwise the first entry that is not decides, with its executable that passed the check or with the check's error |
| JavaRuntime.JavaRuntimeFirst | mc-launcher-tauri/launcher-lib/src/java.rs:144-163 | with `java -version` as the check: nothing is found iff no subdirectory's executable reports the major, and what is found is the first that does |
| JavaRuntime.GetJavaRuntime | mc-launcher-tauri/launcher-lib/src/java.rs:37-41 | a version's runtime is the one found for its required Java |
| JavaRuntime.ZipExtractionDir | mc-launcher-tauri/launcher-lib/src/java.rs:93-104 | a ".zip" archive unpacks into the directory named by its stem |
| JavaRuntime.TarGzExtractionDir | mc-launcher-tauri/launcher-lib/src/java.rs:93-104 | a ".tar.gz" archive unpacks into the directory named by its stem |
| JavaRuntime.GetOsArch | mc-launcher-tauri/launcher-lib/src/java.rs:107-127 | the OS name is "windows", "macos" or "linux", and the architecture is "x64" on x86-64 and on ARM64, otherwise "x32" |
| JavaRuntime.ExtractArchive | mc-launcher-tauri/launcher-lib/src/java.rs:130-141 | both directions: success iff the archive opens and its unpacker succeeds; a "gz" extension uses the tarball unpacker, "zip" the ZIP unpacker, and anything else is accepted as is; each failure keeps its error kind |
| JavaRuntime.TarballUnpacked | mc-launcher-tauri/launcher-lib/src/java.rs:132-135 | a ".tar.gz" name has extension "gz" and goes to the tarball unpacker |
| Version.LoaderNameInjective | mc-launcher-tauri/launcher-lib/src/version.rs:237-260 | both directions: two loader types display alike iff they are the same type, and every display name is lower case |
| Version.FetchVersionManifest | mc-launcher-tauri/launcher-lib/src/version.rs:310-323 | the manifest is returned iff the body decoded; a failed request is the Network error "Failed to fetch version manifest: …", an undecodable body the Json error "Failed to parse version manifest: …" |
| Version.FetchVersionInfo | mc-launcher-tauri/launcher-lib/src/version.rs:326-339 | the same three outcomes for a version's descriptor, with "version info" in the messages |
| Version.FirstWithId | mc-launcher-tauri/launcher-lib/src/version.rs:360-362 | the position found holds the identifier and no entry before it does; none is found iff no entry has it |
| Version.FindVersion | mc-launcher-tauri/launcher-lib/src/version.rs:357-364 | both directions: found iff some manifest entry has the identifier, and then it is the first such entry; otherwise `VersionNotFound(id)`; a failed fetch passes its error on |
| Version.GetLatestRelease | mc-launcher-tauri/launcher-lib/src/version.rs:366-370 | the result is `find_version` of the manifest's latest release, on a second fetch, and a hit carries that identifier |
| Version.GetLatestSnapshot | mc-launcher-tauri/launcher-lib/src/version.rs:372-376 | the same for the latest snapshot |
| Version.GetModLoaderVersions | mc-launcher-tauri/launcher-lib/src/version.rs:341-405 | every loader type answers with an empty list |
| Config.DefaultLauncherConfig | mc-launcher-tauri/launcher-lib/src/config.rs:33-57 | the directory is `<home or .>/.minecraft`, no Java path, no game arguments, no environment variables, debug off, and the minimum memory does not exceed the maximum |
| Config.NewLauncherConfig | mc-launcher-tauri/launcher-lib/src/config.rs:59-66 | every field has its default except the directory, which is the one given, whatever the home directory is |
| Config.WithJavaPath | mc-launcher-tauri/launcher-lib/src/config.rs:68-72 | the Java path is set and no other field changes |
| Config.WithMemory | mc-launcher-tauri/launcher-lib/src/config.rs:74-79 | both memory bounds are set and no other field changes |
| Config.WithJvmArgs | mc-launcher-tauri/launcher-lib/src/config.rs:81-85 | the new arguments follow the earlier ones, which keep their order, and no other field changes |
| Config.WithGameArgs | mc-launcher-tauri/launcher-lib/src/config.rs:87-91 | the same for the game arguments |
| Config.WithDebug | mc-launcher-tauri/launcher-lib/src/config.rs:93-97 | debug is on and no other field changes |
| Config.WithDownloadConfig | mc-launcher-tauri/launcher-lib/src/config.rs:99-104 | timeout and concurrency are set and no other field changes |
| Config.WithEnvVar | mc-launcher-tauri/launcher-lib/src/config.rs:106-110 | the variable is inserted or overwritten, the key set grows by that key only, every other variable keeps its value, and no other field changes |
| Config.NewLaunchConfig | mc-launcher-tauri/launcher-lib/src/config.rs:178-197 | version, instance and account as given; no mod loader and no custom directories; a 1280×720 window, not fullscreen; asset and library downloads on; no extra arguments |
| Config.WithModLoader | mc-launcher-tauri/launcher-lib/src/config.rs:199-207 | the loader is installed enabled, and no other field changes |
| Config.WithCustomDirs | mc-launcher-tauri/launcher-lib/src/config.rs:209-222 | all four directories are replaced (a `None` clears one), the game directory is not touched, and no other field changes |
| Config.WithWindow | mc-launcher-tauri/launcher-lib/src/config.rs:224-232 | the window is set and no other field changes |
| Config.WithoutDownloads | mc-launcher-tauri/launcher-lib/src/config.rs:234-239 | both downloads are off and no other field changes |
| Config.WithAdditionalArgs | mc-launcher-tauri/launcher-lib/src/config.rs:241-246 | both argument lists are extended after their earlier entries, and no other field changes |
| Config.WithJvmArgsAccumulates | mc-launcher-tauri/launcher-lib/src/config.rs:81-85 | two `with_jvm_args` calls equal one with both lists |
| Errors.LabelsDistinct | mc-launcher-tauri/launcher-lib/src/error.rs:10-35 | the displayed prefixes of the Auth, Download, Config, Launch and VersionNotFound variants differ whenever the variants do |
| Errors.VersionNotFoundDisplay | mc-launcher-tauri/launcher-lib/src/error.rs:13-14 | `version_not_found(v)` is the VersionNotFound variant and displays as "Version not found: v" |
| Errors.NetworkIsDownload | mc-launcher-tauri/launcher-lib/src/error.rs:68-71 | a network error is a Download error with the same message |
| Errors.ConfigFamily | mc-launcher-tauri/launcher-lib/src/error.rs:63-96 | validation, mod-loader and generic errors are all the Config variant, displayed as "Configuration error: …" |
| Errors.ProcessIsLaunch | mc-launcher-tauri/launcher-lib/src/error.rs:78-81 | a process error is a Launch error |
| Errors.HelpersKeepMessage | mc-launcher-tauri/launcher-lib/src/error.rs:37-108 | every helper keeps its message, and every error displays as its variant's fixed prefix followed by the message |
| Auth.NewAuthenticatorConfig | mc-launcher-tauri/launcher-lib/src/auth.rs:81-103 | the client id is the one given; the redirect is `http://localhost:8080/auth/callback`, the scopes `XboxLive.signin` and `offline_access`, the user agent `MinecraftLauncher/<version>`, the timeout 300 |
| Auth.WithRedirectUri | mc-launcher-tauri/launcher-lib/src/auth.rs:105-109 | the redirect address is set and no other field changes |
| Auth.WithScopes | mc-launcher-tauri/launcher-lib/src/auth.rs:111-115 | the scopes are replaced and no other field changes |
| Auth.WithUserAgent | mc-launcher-tauri/launcher-lib/src/auth.rs:117-121 | the user agent is set and no other field changes |
| Auth.WithTimeout | mc-launcher-tauri/launcher-lib/src/auth.rs:123-127 | the timeout is set and no other field changes |
| Auth.TokenValidity | mc-launcher-tauri/launcher-lib/src/auth.rs:227-230 | a token valid now was valid at every earlier instant, and none is valid within five minutes of its expiry |
| Auth.LoginAccount | mc-launcher-tauri/launcher-lib/src/auth.rs:190-198 | a new login is an "msa" account whose uuid, name and profile come from the Minecraft profile, whose access token is the Minecraft token, whose refresh token is the one received or empty, and which expires `expires_in` seconds from now |
| Auth.RefreshAccount | mc-launcher-tauri/launcher-lib/src/auth.rs:202-225 | an empty refresh token is the Auth error "No refresh token available"; a failing step passes its error on; a refreshed account takes uuid, name, profile and token from the new login, keeps the old account type, and keeps the old refresh token when none is received |
| Auth.RefreshWithoutTokenMakesNoRequest | mc-launcher-tauri/launcher-lib/src/auth.rs:203-205 | without a refresh token the outcome does not depend on anything the network or the clock would give |
| Auth.UserCode | mc-launcher-tauri/launcher-lib/src/auth.rs:245-249 | the user code is nine characters: four upper-case hexadecimal digits, a dash, four more |
| Auth.StartDeviceCodeFlow | mc-launcher-tauri/launcher-lib/src/auth.rs:260-267 | the session expires in 900 seconds, is polled every 5 and carries a message |
| Auth.DeviceCodeEncodesTimestamp | mc-launcher-tauri/launcher-lib/src/auth.rs:240-258 | the device code is "device_" followed by the decimal timestamp; the user code's groups are the low 16 bits and the next 16 bits of the timestamp in hexadecimal; the verification address names the configured client |
| Auth.Low32Split | mc-launcher-tauri/launcher-lib/src/auth.rs:246-248 | the user code's low group and high group, as 16-bit values, together make the timestamp's low 32 bits |
| Auth.CheckGameOwnership | mc-launcher-tauri/launcher-lib/src/auth.rs:471-489 | both directions: the check passes iff the entitlement answer decodes to a non-empty list; an empty list, a failed request and an undecodable answer are each their own Auth error |
| Commands.Success | mc-launcher-tauri/src-tauri/src/launcher.rs:86-93 | the front end reads a `success` reply as exactly its data |
| Commands.Failure | mc-launcher-tauri/src-tauri/src/launcher.rs:95-101 | the front end reads an `error` reply as exactly its message |
| Commands.OutcomeInverts | mc-launcher-tauri/src-tauri/src/launcher.rs:79-102 | every reply the front end can read was built by `success` or by `error` from what it carries |
| Commands.ParseModLoaderType | mc-launcher-tauri/src-tauri/src/launcher.rs:624-633 | both directions: a name parses iff its lower-case form is some loader's display name, and then to that loader; otherwise the Config error "Unknown mod loader type: <name as given>" |
| Commands.ParseDisplayRoundTrip | mc-launcher-tauri/src-tauri/src/launcher.rs:624-633 | every loader type's display name parses back to that type |
| Commands.ParseIgnoresCase | mc-launcher-tauri/src-tauri/src/launcher.rs:625 | upper-casing a name does not change what it parses to |
| Commands.InitialConfig | mc-launcher-tauri/src-tauri/src/launcher.rs:119-135 | memory is set only when both bounds are given, the download settings only when both are given, the Java path when given, and debug is always on; everything else has its default |
| Commands.CustomizedLaunch | mc-launcher-tauri/src-tauri/src/launcher.rs:434-453 | the instance name is replaced when given; a loader only when its name parses (unknown names are dropped); the window only when both sides are given, windowed unless asked otherwise; extra arguments only when both lists are given; nothing else changes |
| Commands.NameStep | mc-launcher-tauri/src-tauri/src/launcher.rs:434-436 | the instance name is replaced when given and nothing else changes |
| Commands.LoaderStep | mc-launcher-tauri/src-tauri/src/launcher.rs:438-442 | a loader whose name parses is installed enabled; nothing else changes |
| Commands.WindowStep | mc-launcher-tauri/src-tauri/src/launcher.rs:444-447 | the window is set only when both sides are given, fullscreen defaulting to false; nothing else changes |
| Commands.ExtraArgsStep | mc-launcher-tauri/src-tauri/src/launcher.rs:449-453 | both argument lists are extended only when both are given; nothing else changes |
| Commands.PollErrorMessage | mc-launcher-tauri/src-tauri/src/launcher.rs:276-289 | an error mentioning authorization_pending, slow_down or expired_token is passed on verbatim; any other is prefixed "Device code polling failed: " |
| Commands.PollMessageVerbatim | mc-launcher-tauri/src-tauri/src/launcher.rs:280-288 | both directions: the reply repeats the error verbatim iff it is one of those OAuth answers |
| Commands.StatusReply | mc-launcher-tauri/src-tauri/src/launcher.rs:520-531 | a process is reported running iff its handle holds a child, and its pid is reported only then |
| Commands.LauncherState.constructor | mc-launcher-tauri/src-tauri/src/launcher.rs:30-39 | no launcher, no authenticator, no processes, no account |
| Commands.LauncherState.InitializeLauncher | mc-launcher-tauri/src-tauri/src/launcher.rs:112-150 | a new launcher on `InitialConfig`, built as `LauncherSetup` says (directories, then the two HTTP clients), replaces the earlier one, or the error "Failed to initialize launcher: …" leaves it; nothing else in the state changes |
| Commands.LauncherState.SetupAuthenticator | mc-launcher-tauri/src-tauri/src/launcher.rs:152-178 | the authenticator is configured for the client, with the given redirect address or the default one |
| Commands.LauncherState.PollDeviceCode | mc-launcher-tauri/src-tauri/src/launcher.rs:256-294 | without an authenticator the reply is "Authenticator not initialized"; a new account is stored and returned; a failure is reported as `PollErrorMessage` says and the account is kept |
| Commands.LauncherState.AuthenticateWithCode | mc-launcher-tauri/src-tauri/src/launcher.rs:202-230 | the same for the code flow, a failure being "Authentication failed: …" |
| Commands.LauncherState.PrepareLaunch | mc-launcher-tauri/src-tauri/src/launcher.rs:427-462 | without a launcher "Launcher not available"; a failed `create_launch_config` is "Configuration error: …" with the launcher untouched; otherwise the customised configuration, with a requested Java path written into the launcher's configuration |
| Commands.LauncherState.RecordLaunch | mc-launcher-tauri/src-tauri/src/launcher.rs:465-494 | a launched process is stored under its new identifier, which is returned; a failure is "Failed to launch Minecraft: …" with the registry unchanged |
| Commands.LauncherState.GetProcessStatus | mc-launcher-tauri/src-tauri/src/launcher.rs:513-539 | an unknown identifier is reported not running with no pid; a known one as `StatusReply` of its handle |
| Commands.LauncherState.IsProcessRunning | mc-launcher-tauri/src-tauri/src/launcher.rs:596-609 | true iff the identifier is known and its handle holds a child |
| Commands.LauncherState.KillMinecraft | mc-launcher-tauri/src-tauri/src/launcher.rs:541-564 | the identifier is removed whether or not the kill succeeds; an unknown one is "Process not found"; the handle changes as `kill` does |
| Commands.LauncherState.GetMinecraftLogs | mc-launcher-tauri/src-tauri/src/launcher.rs:566-584 | an unknown identifier is "Process not found"; otherwise the logs, or "Failed to read logs: …" |
| Commands.LauncherState.ListActiveProcesses | mc-launcher-tauri/src-tauri/src/launcher.rs:586-594 | a success listing every registered identifier exactly once |
| ModLoaderExample.FabricOrLegacy | mc-launcher-tauri/launcher-lib/examples/mod_loader_example.rs:230-242 | Fabric and Legacy Fabric never both claim a version; from major 1 on exactly one of them does; a version whose major is 0 or below is claimed by neither (see also lines 273-285) |
| ModLoaderExample.NewerLoadersNeedFabric | mc-launcher-tauri/launcher-lib/examples/mod_loader_example.rs:243-272 | every version Quilt or NeoForge claims, Fabric claims too |
| ModLoaderExample.TwoPartRelease | mc-launcher-tauri/launcher-lib/examples/mod_loader_example.rs:256-272 | a two-part release reads back as its two numbers, and NeoForge never claims it |
| ModLoaderExample.ThreePartRelease | mc-launcher-tauri/launcher-lib/examples/mod_loader_example.rs:258-264 | a three-part release reads back as its three numbers |
| ModLoaderExample.NeoForgeNeedsPatch | mc-launcher-tauri/launcher-lib/examples/mod_loader_example.rs:259 | "1.21" is not NeoForge-compatible |
| ModLoaderExample.NeoForgeFrom | mc-launcher-tauri/launcher-lib/examples/mod_loader_example.rs:265 | "1.20.1" is NeoForge-compatible |
| ModLoaderExample.FabricFrom | mc-launcher-tauri/launcher-lib/examples/mod_loader_example.rs:235 | "1.14" is Fabric and not Legacy Fabric (see also line 278) |
| ModLoaderExample.LegacyFabricUpTo | mc-launcher-tauri/launcher-lib/examples/mod_loader_example.rs:235 | "1.13" is Legacy Fabric and not Fabric (see also line 278) |
| ModLoaderExample.StringOrder | mc-launcher-tauri/launcher-lib/examples/mod_loader_example.rs:218 | the order `sort` uses on names is a strict order |
| ModLoaderExample.ListInstalledMods | mc-launcher-tauri/launcher-lib/examples/mod_loader_example.rs:200-220 | the method gives `InstalledMods`: nothing for a missing directory, the error for one that cannot be opened |
| ModLoaderExample.CollectJars | mc-launcher-tauri/launcher-lib/examples/mod_loader_example.rs:206-215 | the entry loop stops at the first failed entry and keeps the jar names in listing order |
| ModLoaderExample.PickedMembership | mc-launcher-tauri/launcher-lib/examples/mod_loader_example.rs:208-213 | both directions: a name is kept iff some entry read is a jar with that name |
| ModLoaderExample.InstalledModsMeaning | mc-launcher-tauri/launcher-lib/examples/mod_loader_example.rs:200-220 | the result is sorted, is a permutation of the jar names read before the first failed entry, and holds a name iff such a jar has it |
| DownloadExample.Percentage | mc-launcher-tauri/launcher-lib/examples/download_example.rs:191-195 | the percentage stays a `u64`, with 0 for an unknown total |
| DownloadExample.ProgressBar | mc-launcher-tauri/launcher-lib/examples/download_example.rs:197-207 | the bar has 30 cells, the first `percentage * 30 / 100` full and the rest empty |
| DownloadExample.PercentageBounds | mc-launcher-tauri/launcher-lib/examples/download_example.rs:190-207 | while no more than the total has arrived and the product does not wrap, the percentage is at most 100, is 100 exactly when everything has arrived, and at most 30 cells are full |
| DownloadExample.PercentageWraps | mc-launcher-tauri/launcher-lib/examples/download_example.rs:192 | past `2^64 / 100` bytes the product wraps and the percentage falls back (to 0 in the example given) |
| DownloadExample.FormatBytes | mc-launcher-tauri/launcher-lib/examples/download_example.rs:219-236 | sizes below 1024 (and only those) print as the decimal number of bytes and " B" |
| DownloadExample.FormatBytesReadsBack | mc-launcher-tauri/launcher-lib/examples/download_example.rs:223-236 | that text reads back as the size |
| DownloadExample.WrapAdd | mc-launcher-tauri/launcher-lib/examples/download_example.rs:263-290 | adding in `u64` step by step is wrapping the whole sum once |
| DownloadExample.AddClassifiers | mc-launcher-tauri/launcher-lib/examples/download_example.rs:274-278 | the classifier loop adds every classifier's size to the `u64` total |
| DownloadExample.AddLibrary | mc-launcher-tauri/launcher-lib/examples/download_example.rs:270-279 | one library adds its artifact and every classifier, whatever its rules |
| DownloadExample.AddAssetIndex | mc-launcher-tauri/launcher-lib/examples/download_example.rs:282-288 | the asset index is added, then the total asset size when the index states it |
| DownloadExample.CalculateVersionDownloadSize | mc-launcher-tauri/launcher-lib/examples/download_example.rs:260-291 | the result is the client jar, every library download, the asset index and the stated asset total, summed and wrapped to `u64` |
| DownloadExample.LibrariesSizeAppend | mc-launcher-tauri/launcher-lib/examples/download_example.rs:269-280 | the library sizes add up over any split of the list |
| DownloadExample.StatisticsFrom | mc-launcher-tauri/launcher-lib/examples/download_example.rs:300-308 | a successful run has one line per identifier |
| DownloadExample.StatisticsSucceed | mc-launcher-tauri/launcher-lib/examples/download_example.rs:294-311 | both directions: the statistics succeed iff every identifier's lookup does |
| DownloadExample.StatisticsLines | mc-launcher-tauri/launcher-lib/examples/download_example.rs:300-308 | line k is the k-th identifier with its wrapped download size and its number of libraries plus one |
| DownloadExample.StatisticsFirstError | mc-launcher-tauri/launcher-lib/examples/download_example.rs:301-302 | a failure is the error of the first lookup that fails |
| DownloadExample.GatherStatistics | mc-launcher-tauri/launcher-lib/examples/download_example.rs:298-310 | the loop gives `StatisticsFrom` |
| DownloadExample.GetDownloadStatistics | mc-launcher-tauri/launcher-lib/examples/download_example.rs:294-311 | each identifier is looked up by `find_version` and then `fetch_version_info` |
| Cosmetics.With | custom-mod/src/main/java/de/linkum/simeon/clientmod/client/rendering/CosmeticsManager.java:27-29 | the chosen switch takes the value and the other two keep theirs (see also lines 39-41, 51-53) |
| Cosmetics.Flipped | custom-mod/src/main/java/de/linkum/simeon/clientmod/client/rendering/CosmeticsManager.java:23-25 | the chosen switch is inverted and the other two keep theirs (see also lines 35-37, 47-49) |
| Cosmetics.FlagsExtensional | custom-mod/src/main/java/de/linkum/simeon/clientmod/client/rendering/CosmeticsManager.java:6-8 | the state is exactly the three switches: agreeing on each means the same state |
| Cosmetics.FlipTwice | custom-mod/src/main/java/de/linkum/simeon/clientmod/client/rendering/CosmeticsManager.java:23-25 | toggling the same cosmetic twice restores the switches (see also lines 35-37, 47-49) |
| Cosmetics.WithSame | custom-mod/src/main/java/de/linkum/simeon/clientmod/client/rendering/CosmeticsManager.java:27-29 | setting a switch to its current value changes nothing (see also lines 39-41, 51-53) |
| Cosmetics.WithCommutes | custom-mod/src/main/java/de/linkum/simeon/clientmod/client/rendering/CosmeticsManager.java:27-29 | setting two different cosmetics gives the same state in either order (see also lines 39-41, 51-53) |
| Cosmetics.CosmeticsManager.constructor | custom-mod/src/main/java/de/linkum/simeon/clientmod/client/rendering/CosmeticsManager.java:6-10 | cape, wings and particles all start off |
| Cosmetics.CosmeticsManager.Toggle | custom-mod/src/main/java/de/linkum/simeon/clientmod/client/rendering/CosmeticsManager.java:23-25 | the new switches are the old ones with the chosen cosmetic inverted (see also lines 35-37, 47-49) |
| Cosmetics.CosmeticsManager.SetEnabled | custom-mod/src/main/java/de/linkum/simeon/clientmod/client/rendering/CosmeticsManager.java:27-29 | the new switches are the old ones with the chosen cosmetic set to the value (see also lines 39-41, 51-53) |
| Cosmetics.CosmeticsManagerHolder.constructor | custom-mod/src/main/java/de/linkum/simeon/clientmod/client/rendering/CosmeticsManager.java:4 | no instance exists before the first call |
| Cosmetics.CosmeticsManagerHolder.GetInstance | custom-mod/src/main/java/de/linkum/simeon/clientmod/client/rendering/CosmeticsManager.java:12-17 | the first call creates a fresh manager with every switch off and keeps it; later calls return that same object |
| ModFeatures.HookFor | custom-mod/src/main/java/de/linkum/simeon/clientmod/client/mods/ModFeature.java:19-28 | no hook when the flag already has the value; otherwise onEnable exactly when switching on and onDisable exactly when switching off |
| ModFeatures.ToggleHooks | custom-mod/src/main/java/de/linkum/simeon/clientmod/client/mods/ModFeature.java:19-32 | a toggle always runs a hook, and two toggles in a row run the two different hooks |
| ModFeatures.ModFeature.constructor | custom-mod/src/main/java/de/linkum/simeon/clientmod/client/mods/ModFeature.java:4-9 | a feature keeps the name it is given and starts disabled |
| ModFeatures.ModFeature.SetEnabled | custom-mod/src/main/java/de/linkum/simeon/clientmod/client/mods/ModFeature.java:19-28 | the flag takes the value and the hook reported is `HookFor` of the old flag and the value |
| ModFeatures.ModFeature.Toggle | custom-mod/src/main/java/de/linkum/simeon/clientmod/client/mods/ModFeature.java:30-32 | the flag is inverted and a hook always runs |
| CpsCounter.Recent | custom-mod/src/main/java/de/linkum/simeon/clientmod/client/mods/features/CPSCounterFeature.java:59-61 | pruning never adds clicks |
| CpsCounter.RecentCounts | custom-mod/src/main/java/de/linkum/simeon/clientmod/client/mods/features/CPSCounterFeature.java:59-61 | every click of the last second is kept as often as it was made, and every click older than 1000 ms is dropped (see also line 14) |
| CpsCounter.TimeoutBoundary | custom-mod/src/main/java/de/linkum/simeon/clientmod/client/mods/features/CPSCounterFeature.java:60 | a click exactly 1000 ms old is still counted, one 1001 ms old is not (see also line 14) |
| CpsCounter.RecentIdempotent | custom-mod/src/main/java/de/linkum/simeon/clientmod/client/mods/features/CPSCounterFeature.java:59-61 | pruning a second time at the same moment removes nothing more |
| CpsCounter.RecentAppend | custom-mod/src/main/java/de/linkum/simeon/clientmod/client/mods/features/CPSCounterFeature.java:60-61 | `removeIf` decides click by click: pruning a concatenation is the concatenation of the pruned parts |
| CpsCounter.IntToStringNoDollar | custom-mod/src/main/java/de/linkum/simeon/clientmod/client/mods/features/CPSCounterFeature.java:89-91 | a count rendered by `String.valueOf` never contains `$`, so a later replacement cannot reach into it |
| CpsCounter.ReplaceAfterPlain | custom-mod/src/main/java/de/linkum/simeon/clientmod/client/mods/features/CPSCounterFeature.java:88-91 | `replace` of a `$` placeholder leaves any text before the first `$` unchanged |
| CpsCounter.ReplacePlain | custom-mod/src/main/java/de/linkum/simeon/clientmod/client/mods/features/CPSCounterFeature.java:88-91 | `replace` of a `$` placeholder leaves a text without `$` unchanged |
| CpsCounter.RenderPlain | custom-mod/src/main/java/de/linkum/simeon/clientmod/client/mods/features/CPSCounterFeature.java:83-92 | a template without `$` is shown as written |
| CpsCounter.ReplaceHit | custom-mod/src/main/java/de/linkum/simeon/clientmod/client/mods/features/CPSCounterFeature.java:88-91 | the placeholder being replaced is swapped for the replacement, the text before it is kept, and replacing goes on after it |
| CpsCounter.ReplaceSkip | custom-mod/src/main/java/de/linkum/simeon/clientmod/client/mods/features/CPSCounterFeature.java:88-91 | a different placeholder is kept as written |
| CpsCounter.RenderOneHole | custom-mod/src/main/java/de/linkum/simeon/clientmod/client/mods/features/CPSCounterFeature.java:83-92 | a template with one of `$l`, `$r`, `$c` between plain texts shows the left, right or combined count in its place |
| CpsCounter.RenderLeftRight | custom-mod/src/main/java/de/linkum/simeon/clientmod/client/mods/features/CPSCounterFeature.java:83-92 | a template with `$l` and then `$r` shows the left and then the right count |
| CpsCounter.RenderDefault | custom-mod/src/main/java/de/linkum/simeon/clientmod/client/mods/features/CPSCounterFeature.java:83-92 | the default template shows `CPS: ` followed by the combined count (see also line 17) |
| CpsCounter.RenderSeparateDefault | custom-mod/src/main/java/de/linkum/simeon/clientmod/client/mods/features/CPSCounterFeature.java:83-92 | the default separate template shows `CPS: [`, the left count, a vertical bar, the right count and `]` (see also line 19) |
| CpsCounter.CPSCounterFeature.constructor | custom-mod/src/main/java/de/linkum/simeon/clientmod/client/mods/features/CPSCounterFeature.java:12-34 | named "CPS Counter", disabled, no clicks, zero counts, the default templates, position (10, 70), white, with a shadow |
| CpsCounter.CPSCounterFeature.DisplayText | custom-mod/src/main/java/de/linkum/simeon/clientmod/client/mods/features/CPSCounterFeature.java:83-92 | empty while disabled; while enabled, a chosen template without placeholders is shown as written |
| CpsCounter.CPSCounterFeature.OnEnable | custom-mod/src/main/java/de/linkum/simeon/clientmod/client/mods/features/CPSCounterFeature.java:37-41 | both click lists are cleared and the counts are kept |
| CpsCounter.CPSCounterFeature.OnDisable | custom-mod/src/main/java/de/linkum/simeon/clientmod/client/mods/features/CPSCounterFeature.java:44-51 | both click lists are cleared and all three counts are zero |
| CpsCounter.CPSCounterFeature.SetEnabled | custom-mod/src/main/java/de/linkum/simeon/clientmod/client/mods/features/CPSCounterFeature.java:37-51 | the flag takes the value; switching on or off clears the clicks, switching off zeroes the counts, and no change leaves everything as it was |
| CpsCounter.CPSCounterFeature.Tick | custom-mod/src/main/java/de/linkum/simeon/clientmod/client/mods/features/CPSCounterFeature.java:54-67 | disabled: nothing changes; enabled: both lists are pruned by `Recent`, the counts are their lengths, and the combined count is their 32-bit sum |
| CpsCounter.CPSCounterFeature.RegisterLeftClick | custom-mod/src/main/java/de/linkum/simeon/clientmod/client/mods/features/CPSCounterFeature.java:70-74 | the time is appended to the left clicks exactly when enabled, and nothing else changes |
| CpsCounter.CPSCounterFeature.RegisterRightClick | custom-mod/src/main/java/de/linkum/simeon/clientmod/client/mods/features/CPSCounterFeature.java:76-80 | the time is appended to the right clicks exactly when enabled, and nothing else changes |
| CpsCounter.CPSCounterFeature.SetDisplayFormat | custom-mod/src/main/java/de/linkum/simeon/clientmod/client/mods/features/CPSCounterFeature.java:99-101 | the template takes the value, and `null` restores "CPS: $c"; the click lists and the three counts are untouched |
| CpsCounter.CPSCounterFeature.SetSeparateFormat | custom-mod/src/main/java/de/linkum/simeon/clientmod/client/mods/features/CPSCounterFeature.java:115-117 | the separate template takes the value, and `null` restores the default separate template (`$l` and `$r` in brackets, split by a vertical bar); the click lists and the three counts are untouched |
| CpsCounter.CPSCounterFeature.SetShowSeparate | custom-mod/src/main/java/de/linkum/simeon/clientmod/client/mods/features/CPSCounterFeature.java:107-109 | the choice is stored, and the template shown afterwards is the separate one exactly when it is set (see also line 86); the click lists and the three counts are untouched |
| Keystrokes.ModeKeys | custom-mod/src/main/java/de/linkum/simeon/clientmod/client/mods/features/KeystrokesFeature.java:12-25 | every mode shows W, A, S, D first, then Space when the mode has it, then Shift when the mode has it |
| Keystrokes.ModesWellFormed | custom-mod/src/main/java/de/linkum/simeon/clientmod/client/mods/features/KeystrokesFeature.java:12-25 | no key appears twice in a mode, and no two modes share a display name |
| Keystrokes.PositionIsCell | custom-mod/src/main/java/de/linkum/simeon/clientmod/client/mods/features/KeystrokesFeature.java:115-148 | away from the edge of the `int` range, each key's corner is the origin plus its grid column and row times size plus spacing |
| Keystrokes.KeysApart | custom-mod/src/main/java/de/linkum/simeon/clientmod/client/mods/features/KeystrokesFeature.java:115-148 | two different keys of the overlay never overlap when size and spacing are not negative (see also line 155) |
| Keystrokes.KeyLabel | custom-mod/src/main/java/de/linkum/simeon/clientmod/client/mods/features/KeystrokesFeature.java:166-189 | empty when labels are hidden; the key's own name when it has no binding; otherwise at most five characters, and the bound text cut to four unless it is Space or a Shift |
| Keystrokes.LabelIgnoresCase | custom-mod/src/main/java/de/linkum/simeon/clientmod/client/mods/features/KeystrokesFeature.java:177-182 | "space" in any case shows "___", and "Left Shift"/"right shift" in any case show "SHIFT" |
| Keystrokes.ReleasedMeaning | custom-mod/src/main/java/de/linkum/simeon/clientmod/client/mods/features/KeystrokesFeature.java:102-106 | the mode's keys are present and released, other entries keep their value, and no other entry appears |
| Keystrokes.SpecialsMeaning | custom-mod/src/main/java/de/linkum/simeon/clientmod/client/mods/features/KeystrokesFeature.java:77-87 | the loop writes Space from the jump control and Shift from the sneak control exactly when the list holds them, and keeps every other entry |
| Keystrokes.SpecialsKeep | custom-mod/src/main/java/de/linkum/simeon/clientmod/client/mods/features/KeystrokesFeature.java:78-87 | the loop over the mode's keys writes no entry but Space and Shift |
| Keystrokes.TickedMovement | custom-mod/src/main/java/de/linkum/simeon/clientmod/client/mods/features/KeystrokesFeature.java:72-75 | after a tick W, A, S, D hold the forward, left, back and right controls |
| Keystrokes.TickedSpecials | custom-mod/src/main/java/de/linkum/simeon/clientmod/client/mods/features/KeystrokesFeature.java:72-87 | after a tick Space and Shift hold the jump and sneak controls when the mode shows them, no other entry is added and entries for keys outside the mode are kept |
| Keystrokes.Clamp | custom-mod/src/main/java/de/linkum/simeon/clientmod/client/mods/features/KeystrokesFeature.java:255-265 | `Math.max(lo, Math.min(hi, v))`: within bounds, the value itself inside them, and the nearest bound outside |
| Keystrokes.RenderInfoFor | custom-mod/src/main/java/de/linkum/simeon/clientmod/client/mods/features/KeystrokesFeature.java:116-160 | a key is a square of the key size at its layout position, with the pressed colours exactly when its state says held (a missing entry counts as released) |
| Keystrokes.KeystrokesFeature.constructor | custom-mod/src/main/java/de/linkum/simeon/clientmod/client/mods/features/KeystrokesFeature.java:28-49 | named "Keystrokes", disabled, WASD + Space, at (10, 90), keys 20 wide and 2 apart, labels on, the stated colours, and both maps empty |
| Keystrokes.KeystrokesFeature.UpdateKeyBindings | custom-mod/src/main/java/de/linkum/simeon/clientmod/client/mods/features/KeystrokesFeature.java:90-100 | without client options nothing changes; otherwise the six keys are bound to their six controls |
| Keystrokes.KeystrokesFeature.InitializeKeyStates | custom-mod/src/main/java/de/linkum/simeon/clientmod/client/mods/features/KeystrokesFeature.java:102-106 | the loop yields `Released` for the current mode's keys |
| Keystrokes.KeystrokesFeature.SetEnabled | custom-mod/src/main/java/de/linkum/simeon/clientmod/client/mods/features/KeystrokesFeature.java:52-61 | enabling binds the keys and releases the mode's keys, disabling clears both maps, and no change leaves both maps as they were |
| Keystrokes.KeystrokesFeature.Tick | custom-mod/src/main/java/de/linkum/simeon/clientmod/client/mods/features/KeystrokesFeature.java:64-88 | disabled or without client options nothing changes; otherwise the states are `Ticked` of the old ones |
| Keystrokes.KeystrokesFeature.KeysToRender | custom-mod/src/main/java/de/linkum/simeon/clientmod/client/mods/features/KeystrokesFeature.java:109-164 | nothing while disabled; else one entry per key of the mode, the i-th being `RenderInfoFor` of the i-th key |
| Keystrokes.KeystrokesFeature.GetKeysToRender | custom-mod/src/main/java/de/linkum/simeon/clientmod/client/mods/features/KeystrokesFeature.java:109-164 | the loop fills the array with `KeysToRender` |
| Keystrokes.KeystrokesFeature.SetDisplayMode | custom-mod/src/main/java/de/linkum/simeon/clientmod/client/mods/features/KeystrokesFeature.java:196-201 | the mode is set, and its keys are released only while the feature is enabled |
| Keystrokes.KeystrokesFeature.SetKeySize | custom-mod/src/main/java/de/linkum/simeon/clientmod/client/mods/features/KeystrokesFeature.java:255-257 | the size is clamped to 10..50 and the bounds keep holding |
| Keystrokes.KeystrokesFeature.SetKeySpacing | custom-mod/src/main/java/de/linkum/simeon/clientmod/client/mods/features/KeystrokesFeature.java:263-265 | the spacing is clamped to 0..10 and the bounds keep holding |
| Keystrokes.KeystrokesFeature.SetShowKeyLabels | custom-mod/src/main/java/de/linkum/simeon/clientmod/client/mods/features/KeystrokesFeature.java:271-273 | only the label switch changes |
| ModManagers.FirstNamed | custom-mod/src/main/java/de/linkum/simeon/clientmod/client/mods/ModManager.java:38-43 | the position found holds a feature of that name and none before it does; nothing is found exactly when no feature has the name |
| ModManagers.FirstNamedAt | custom-mod/src/main/java/de/linkum/simeon/clientmod/client/mods/ModManager.java:38-43 | a feature of that name with none before it is the one found |
| ModManagers.ModManager.constructor | custom-mod/src/main/java/de/linkum/simeon/clientmod/client/mods/ModManager.java:15-32 | the registry holds motion blur, zoom, the CPS counter and keystrokes, in that order, as four fresh disabled features with their defaults |
| ModManagers.ModManager.GetAllFeatures | custom-mod/src/main/java/de/linkum/simeon/clientmod/client/mods/ModManager.java:34-36 | the features in registry order |
| ModManagers.ModManager.GetFeature | custom-mod/src/main/java/de/linkum/simeon/clientmod/client/mods/ModManager.java:38-43 | a feature found is registered under that name; none is found exactly when no registered feature has the name |
| ModManagers.ModManager.Tick | custom-mod/src/main/java/de/linkum/simeon/clientmod/client/mods/ModManager.java:45-51 | each enabled feature ticks: the CPS counter prunes its clicks and recounts, keystrokes records the held keys, and the disabled ones keep their state |
| ModManagers.UnknownFeature | custom-mod/src/main/java/de/linkum/simeon/clientmod/client/mods/ModManager.java:27-32 | a name outside the four registered ones finds nothing (see also lines 38-43) |
| ModManagers.FeaturesByName | custom-mod/src/main/java/de/linkum/simeon/clientmod/client/mods/ModManager.java:27-32 | each of the four names finds its own feature (see also lines 38-43) |
| ModManagers.ModManagerHolder.constructor | custom-mod/src/main/java/de/linkum/simeon/clientmod/client/mods/ModManager.java:12 | no instance exists before the first call |
| ModManagers.ModManagerHolder.GetInstance | custom-mod/src/main/java/de/linkum/simeon/clientmod/client/mods/ModManager.java:20-25 | the first call creates a fresh, well-formed registry and keeps it; later calls return that same object |
| UiElements.DraggableUIElement.constructor | custom-mod/src/main/java/de/linkum/simeon/clientmod/client/ui/elements/DraggableUIElement.java:6-17 | the element keeps its name, corner and size, and starts visible |
| UiElements.DraggableUIElement.IsMouseOver | custom-mod/src/main/java/de/linkum/simeon/clientmod/client/ui/elements/DraggableUIElement.java:21-23 | away from `int` overflow, the mouse is over the element exactly when it lies in the rectangle, every edge included |
| UiElements.DraggableUIElement.SetPosition | custom-mod/src/main/java/de/linkum/simeon/clientmod/client/ui/elements/DraggableUIElement.java:25-28 | the corner moves to the point, and size and visibility stay |
| UiElements.DraggableUIElement.SetVisible | custom-mod/src/main/java/de/linkum/simeon/clientmod/client/ui/elements/DraggableUIElement.java:36 | only visibility changes |
| UiElements.CornersAreOver | custom-mod/src/main/java/de/linkum/simeon/clientmod/client/ui/elements/DraggableUIElement.java:21-23 | both corners of an element of non-negative size are over it |
| UiElements.WrappedEdgeHidesElement | custom-mod/src/main/java/de/linkum/simeon/clientmod/client/ui/elements/DraggableUIElement.java:21-23 | once `x + width` passes the largest `int`, the wrapped far edge lies left of `x` and the mouse is never over the element |
| UiElements.FirstIndex | custom-mod/src/main/java/de/linkum/simeon/clientmod/client/ui/elements/UIElementManager.java:41-43 | `List.remove` finds the first occurrence: the element sits there and not before; nothing is found exactly when the element is absent |
| UiElements.RemoveFirstCount | custom-mod/src/main/java/de/linkum/simeon/clientmod/client/ui/elements/UIElementManager.java:41-43 | removing takes away exactly one occurrence of the element when there is one, and nothing else |
| UiElements.RemoveAdded | custom-mod/src/main/java/de/linkum/simeon/clientmod/client/ui/elements/UIElementManager.java:37-43 | removing an element just added to a list that did not hold it gives the list back |
| UiElements.LastBelow | custom-mod/src/main/java/de/linkum/simeon/clientmod/client/ui/elements/UIElementManager.java:45-50 | the place found is at or after `j` and below `n` |
| UiElements.LastOf | custom-mod/src/main/java/de/linkum/simeon/clientmod/client/ui/elements/UIElementManager.java:45-50 | the place found is at or after `j` and inside the list |
| UiElements.LastBelowIsLast | custom-mod/src/main/java/de/linkum/simeon/clientmod/client/ui/elements/UIElementManager.java:45-50 | the place found holds the same element as `j`, and no later place below `n` does |
| UiElements.LastOfIsLast | custom-mod/src/main/java/de/linkum/simeon/clientmod/client/ui/elements/UIElementManager.java:45-50 | the place found is the last one holding that element |
| UiElements.LastOfDistinct | custom-mod/src/main/java/de/linkum/simeon/clientmod/client/ui/elements/UIElementManager.java:45-50 | in a list without repeats, each element's last place is its own |
| UiElements.ResetAt | custom-mod/src/main/java/de/linkum/simeon/clientmod/client/ui/elements/UIElementManager.java:48 | one loop step moves element `i` to (10, row i), after which every element so far sits at the row of its last place so far, and sizes and visibility stay |
| UiElements.ResetColumnOf | custom-mod/src/main/java/de/linkum/simeon/clientmod/client/ui/elements/UIElementManager.java:47-49 | after the loop every element is at x = 10 and at the row of its last place in the list, and sizes and visibility stay |
| UiElements.UIElementManager.constructor | custom-mod/src/main/java/de/linkum/simeon/clientmod/client/ui/elements/UIElementManager.java:10-13 | five fresh, distinct, visible elements: FPS, coordinates and direction texts sized by the text renderer when there is one (100 by 10 otherwise), the CPS overlay 100 by 10 and the keystrokes overlay 70 by 70, in a column at x = 10 and y = 10, 30, 50, 70, 90 (see also lines 22-31) |
| UiElements.UIElementManager.GetAllElements | custom-mod/src/main/java/de/linkum/simeon/clientmod/client/ui/elements/UIElementManager.java:33-35 | the elements in list order |
| UiElements.UIElementManager.AddElement | custom-mod/src/main/java/de/linkum/simeon/clientmod/client/ui/elements/UIElementManager.java:37-39 | the element is appended at the end |
| UiElements.UIElementManager.RemoveElement | custom-mod/src/main/java/de/linkum/simeon/clientmod/client/ui/elements/UIElementManager.java:41-43 | the list becomes `RemoveFirst` of the old list |
| UiElements.UIElementManager.ResetAllPositions | custom-mod/src/main/java/de/linkum/simeon/clientmod/client/ui/elements/UIElementManager.java:45-50 | every element is at x = 10 and the wrapped `10 + 20 i` of its last place, and nothing else changes |
| UiElements.ResetColumn | custom-mod/src/main/java/de/linkum/simeon/clientmod/client/ui/elements/UIElementManager.java:45-50 | without repeated elements and away from overflow, the reset puts element `i` at y = 10 + 20 i |
| UiElements.UIElementManagerHolder.constructor | custom-mod/src/main/java/de/linkum/simeon/clientmod/client/ui/elements/UIElementManager.java:7 | no instance exists before the first call |
| UiElements.UIElementManagerHolder.GetInstance | custom-mod/src/main/java/de/linkum/simeon/clientmod/client/ui/elements/UIElementManager.java:15-20 | the first call creates a fresh manager of five elements and keeps it; later calls return that same object |
| DirTree.MakeDirsMakesDir | mc-launcher-tauri/launcher-lib/src/java.rs:145-147 | `create_dir_all` on the runtime directory leaves it a directory, and one that did not exist before is created empty |
| FileSystem.CreateDirAll | mc-launcher-tauri/launcher-lib/src/downloader.rs:50-54 | `create_dir_all` succeeds exactly when no prefix of the path is a file or read-only, then every prefix is a directory and nothing else changes; a failure carries the I/O error |
| FileSystem.Write | mc-launcher-tauri/launcher-lib/src/downloader.rs:85-87 | `write_all` fails, with the system's text, exactly when the disk is full and there are bytes to write; otherwise the bytes come after what the file held |
| FileSystem.SetMode | mc-launcher-tauri/launcher-lib/src/launcher.rs:692-693 | `set_permissions` fails, with the system's text, exactly when modes cannot be changed; otherwise only the path's mode changes |
| FileSystem.RemoveFile | mc-launcher-tauri/launcher-lib/src/downloader.rs:98-101 | the file is gone and the directories are as they were |
| FileSystem.Rename | mc-launcher-tauri/launcher-lib/src/downloader.rs:110-113 | the rename succeeds exactly when the source is a file and the target is neither a directory nor read-only; the target then holds the source's bytes and the source is gone |
| Paths.WithExtension | mc-launcher-tauri/launcher-lib/src/downloader.rs:75 | `with_extension("tmp")` keeps the directories and replaces the extension of the last component |
| Paths.WithExtensionDiffers | mc-launcher-tauri/launcher-lib/src/downloader.rs:75 | a file with another extension never shares its path with its temporary file |

## Left out

- HTTP and the network: every reqwest call becomes a parameter that gives the reply. This covers the manifest and descriptor fetches, the file bodies, the Microsoft, Xbox Live, XSTS and Minecraft-services exchanges of auth.rs, and the Azul runtime query.
- SHA-1 itself (FIPS 180-4): the digest of a byte string is a function parameter, and only its comparison with the expected hex string is modelled.
- Concurrency: the tokio semaphore and spawned download tasks, the `Mutex`/`RwLock` wrappers and `Arc` sharing are run one after the other, in list order.
- Process and OS calls: spawning, the Rosetta `arch -x86_64` wrapper and the environment setup of minecraft.rs. The spawn result, the exit status and the result of waiting are inputs.
- The output of `java -version` is an input string. Running the executable is not modelled.
- Archive decoding: zip, tar and gzip internals are not modelled. An archive is a list of entries (name, directory flag, bytes, Unix mode), and a tarball is a list of unpacked entries.
- `get_java_search_paths` (utils.rs:70-125) reads environment variables and the home directory. Its result is an input list. `list_java_installations` (utils.rs:243-270) is left out for the same reason.
- `download_java_runtime` (java.rs:43-91) is the Azul query and a download without a hash check. It is left out as network code. `get_java_runtime` and the extraction helpers it relies on are modelled.
- `get_auth_url` (auth.rs:160-168) and the Tauri `get_auth_url` command only format a URL with url-encoding. They are left out.
- The token-exchange steps of `authenticate_with_code`, `poll_device_code` and `refresh_account` are network sequences. The model takes their outcome as an input and proves how the account is assembled from it.
- Commands.LauncherState.SetupAuthenticator: the failures of `Authenticator::new` (an invalid user-agent header, a failed HTTP client build) are not modelled. Setup always succeeds.
- The Tauri commands `start_device_code_flow`, `refresh_account`, `get_version_manifest`, `get_java_runtime` and `get_home_directory` are not modelled as commands. Each only passes a library call or a `dirs` lookup through to the reply.
- The Tauri runtime, `app.emit` events and `State` plumbing (src-tauri/src/lib.rs, and the emit calls in src-tauri/src/launcher.rs).
- `Launcher::launch` (launcher.rs:101-149) is not composed into one member. Each of its steps is modelled and proved on its own.
- The mod-loader setup and version listing are stubs. Only the dispatch with its empty result is modelled.
- auth_example.rs and basic_launch.rs, and the `main` bodies of the other two examples: they read stdin and files and use the network.
- launcher-lib/src/lib.rs only re-exports modules and holds a version constant.
- Floating point: ZoomFeature.java and MotionBlurFeature.java, the KB-and-up branch of `format_size`, and `estimate_download_time`. Motion blur and zoom keep only the enable/disable state they share with every feature. Their ticks are not modelled.
- UI screens, mixins, `render` methods, and the glue that moves the HUD overlays into their features' position settings.
- TextUIElement's `setText`/`setColor` and the render-time size updates of the overlay elements. The game's text renderer is an input.
- The plain x, y, colour and shadow setters of the CPS counter and the keystrokes overlay. Each assigns one field.
- ModFeature's default `tick` does nothing. It has no member of its own.
- Dynamic dispatch of a subclass's `tick` is replaced by direct calls in `ModManagers.ModManager.Tick`.
- serde_json object iteration order is taken to be the order of the input list.
- The slice `&hash[0..2]` in `download_assets` panics on a short hash. The model gives no plan (`None`) in that case.
- `get_download_statistics` fetches the manifest anew for each identifier. In the model that fetch is `fetchManifest(id)`, so each identifier may see a different manifest, but two fetches for the same identifier give the same reply.
- Account UUIDs and the clock (`Utc::now`, `SystemTime`) are parameters.
- Paths arrive as component sequences. `Path::starts_with("META-INF")` compares whole components.
- Errors.ZipError keeps its message as given. How the zip crate wraps an I/O error into its own message is not modelled.
- DownloadExample.PercentageWraps: `downloaded * 100` in `print_progress` wraps at 2^64. This is the release-build behaviour; a debug build panics instead.
- CpsCounter.CPSCounterFeature.Tick: the Java `long` subtraction `currentTime - clickTime` is taken without wrap-around.
- ModLoaderExample.FabricOrLegacy: for a major version below 1, neither Fabric nor LegacyFabric holds, so exactly one of them holds only from major version 1 up. The model follows the code.
- Commands.ParseModLoaderType: lower-casing is ASCII only. That is exact for input that can match one of the five loader names.
- Keystrokes.KeyLabel: `toUpperCase` is ASCII only here, so it differs from Java for characters such as 'ſ' and 'ı'. `substring(0, 4)` counts characters where Java counts UTF-16 units.
- ModManagers.ModManager.GetAllFeatures and UiElements.UIElementManager.GetAllElements: the copy is a sequence value, so it cannot alias the registry's list.
- UiElements.UIElementManager.RemoveElement: equality on elements is reference identity, which is what `equals` is for these classes.
- Utils.DownloadFile: like the source, it never creates the parent directory.
- Downloader.StreamToFile: `file.flush()` after the chunk loop (downloader.rs:90-92 and 255-257) cannot fail in the model: a write is complete once `write_all` returns, so the "Failed to flush file" error is not modelled.
- NativeExtraction.WriteFileWritten: `output_file.metadata()` in `extract_native_jar` (launcher.rs:688-689) cannot fail in the model, so the "Failed to get file metadata" error is not modelled.
- A refused write writes nothing: the model has no partial writes. The file system has a single "disk full" flag for all files and a single "modes fixed" flag for all paths.
- JavaRuntime.RuntimeInFirst: the I/O error of one directory entry in `find_java_runtime` (`entry?`, java.rs:151) is not modelled: a listing that succeeds yields all its entries.

## Findings

| source | as written | input that shows it | evidently intended | confidence | as-written member | corrected member |
|---|---|---|---|---|---|---|
| mc-launcher-tauri/launcher-lib/src/minecraft.rs:76-82 | only an argument that itself contains "accessToken" or "access_token" is redacted. The launcher passes the flag and the token as two arguments, so the token is logged in clear | `["--accessToken", "eyJhbGciOi"]`: the second element is logged unchanged | the value after a sensitive flag is hidden as well | not executed | Minecraft.RedactArgs, Minecraft.TokenLoggedInClear | Minecraft.RedactArgsFixed, Minecraft.TokenHidden |
| mc-launcher-tauri/launcher-lib/src/launcher.rs:151-163 | `get_active_processes` keeps the processes whose `get_status` is Running, but `get_status` always answers Running (minecraft.rs:161-165). No finished process is ever dropped | a process that was killed stays on the list that is returned | the filter uses the stored status, so killed and exited processes leave the list | not executed | Launchers.Launcher.GetActiveProcesses, Launchers.KilledIsNotRunning | Launchers.Launcher.RetainRunningProcesses |
