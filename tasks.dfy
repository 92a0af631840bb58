/** The download plans of a launch (the task-list parts of
    `download_libraries` and `download_assets` in launcher.rs): which files
    are fetched from where, where they go, and which SHA-1 each must have. */
module LaunchTasks {
  import opened Wrappers
  import opened Ints
  import opened Platform
  import opened Paths
  import opened Version
  import opened Rules
  import opened Libraries
  import opened Seqs

  /** One file to fetch: source address, destination, expected SHA-1. */
  datatype DownloadTask = DownloadTask(url: string, path: Path, sha1: string)

  function LibrariesDir(instanceDir: Path): Path
  {
    instanceDir + ["libraries"]
  }

  /** `versions/<id>/<id>.jar` inside the instance. */
  function ClientJarPath(info: VersionInfo, instanceDir: Path): Path
  {
    instanceDir + ["versions", info.id, info.id + ".jar"]
  }

  function ClientTask(info: VersionInfo, instanceDir: Path): DownloadTask
  {
    DownloadTask(info.downloads.client.url, ClientJarPath(info, instanceDir), info.downloads.client.sha1)
  }

  /** A library without rules always applies; one with rules applies when
      they allow. */
  predicate LibraryApplies(lib: Library, os: Os)
  {
    lib.rules.None? || RulesAllow(lib.rules.value, os)
  }

  function ArtifactTask(lib: Library, librariesDir: Path, a: DownloadInfo): DownloadTask
  {
    DownloadTask(a.url, LibraryPath(lib.name, librariesDir), a.sha1)
  }

  function NativeTask(lib: Library, librariesDir: Path, classifier: string, d: DownloadInfo): DownloadTask
  {
    DownloadTask(d.url, NativePath(lib.name, classifier, librariesDir), d.sha1)
  }

  /** The native jars of `lib` among `classifiers` that suit the system, in
      table order. */
  function NativeTasks(lib: Library, classifiers: seq<(string, DownloadInfo)>, librariesDir: Path, os: Os): seq<DownloadTask>
  {
    if classifiers == [] then []
    else
      var (c, d) := classifiers[|classifiers| - 1];
      NativeTasks(lib, classifiers[..|classifiers| - 1], librariesDir, os)
        + (if IsNativeFor(c, os) then [NativeTask(lib, librariesDir, c, d)] else [])
  }

  /** What one library adds: nothing when it does not apply, otherwise its
      artifact (when it has one) and then its native jars. */
  function LibraryTasks(lib: Library, librariesDir: Path, os: Os): seq<DownloadTask>
  {
    if !LibraryApplies(lib, os) || lib.downloads.None? then []
    else
      var dl := lib.downloads.value;
      (if dl.artifact.Some? then [ArtifactTask(lib, librariesDir, dl.artifact.value)] else [])
        + (if dl.classifiers.Some? then NativeTasks(lib, dl.classifiers.value, librariesDir, os) else [])
  }

  function AllLibraryTasks(libs: seq<Library>, librariesDir: Path, os: Os): seq<DownloadTask>
  {
    FlatMap(libs, TasksOf(librariesDir, os))
  }

  function TasksOf(librariesDir: Path, os: Os): Library -> seq<DownloadTask>
  {
    lib => LibraryTasks(lib, librariesDir, os)
  }

  /** The plan `download_libraries` hands to the downloader: the client jar
      first, then every library's files in library order. */
  function LibraryPlan(info: VersionInfo, instanceDir: Path, os: Os): seq<DownloadTask>
  {
    [ClientTask(info, instanceDir)] + AllLibraryTasks(info.libraries, LibrariesDir(instanceDir), os)
  }

  /** The task-building loops of `download_libraries`. */
  method PlanLibraryDownloads(info: VersionInfo, instanceDir: Path, os: Os) returns (tasks: seq<DownloadTask>)
    ensures tasks == LibraryPlan(info, instanceDir, os)
  {
    var librariesDir := LibrariesDir(instanceDir);
    var libs := info.libraries;
    var rest := [];
    var i := 0;
    while i < |libs|
      invariant 0 <= i <= |libs|
      invariant rest == AllLibraryTasks(libs[..i], librariesDir, os)
    {
      FlatMapSnoc(libs, i, TasksOf(librariesDir, os));
      var more := PlanLibrary(libs[i], librariesDir, os);
      rest := rest + more;
      i := i + 1;
    }
    assert libs[..i] == libs;
    tasks := [ClientTask(info, instanceDir)] + rest;
  }

  /** The body of the library loop: the rule check, the artifact, and the
      loop over the classifier table. */
  method PlanLibrary(lib: Library, librariesDir: Path, os: Os) returns (tasks: seq<DownloadTask>)
    ensures tasks == LibraryTasks(lib, librariesDir, os)
  {
    tasks := [];
    var applies := true;
    if lib.rules.Some? {
      applies := EvaluateRules(lib.rules.value, os);
    }
    if !applies || lib.downloads.None? {
      return;
    }
    var dl := lib.downloads.value;
    if dl.artifact.Some? {
      tasks := [ArtifactTask(lib, librariesDir, dl.artifact.value)];
    }
    if dl.classifiers.Some? {
      var cs := dl.classifiers.value;
      var j := 0;
      ghost var before := tasks;
      while j < |cs|
        invariant 0 <= j <= |cs|
        invariant tasks == before + NativeTasks(lib, cs[..j], librariesDir, os)
      {
        assert cs[..j + 1][..j] == cs[..j];
        var (c, d) := cs[j];
        if IsNativeFor(c, os) {
          tasks := tasks + [NativeTask(lib, librariesDir, c, d)];
        }
        j := j + 1;
      }
      assert cs[..j] == cs;
    }
  }

  /** A task `lib` contributes. */
  predicate TaskOf(t: DownloadTask, lib: Library, librariesDir: Path, os: Os)
  {
    && LibraryApplies(lib, os)
    && lib.downloads.Some?
    && ((lib.downloads.value.artifact.Some? && t == ArtifactTask(lib, librariesDir, lib.downloads.value.artifact.value))
        || (lib.downloads.value.classifiers.Some?
            && exists k :: 0 <= k < |lib.downloads.value.classifiers.value|
                 && IsNativeFor(lib.downloads.value.classifiers.value[k].0, os)
                 && t == NativeTask(lib, librariesDir, lib.downloads.value.classifiers.value[k].0, lib.downloads.value.classifiers.value[k].1)))
  }

  lemma {:induction false} NativeTasksExactly(lib: Library, cs: seq<(string, DownloadInfo)>, librariesDir: Path, os: Os, t: DownloadTask)
    ensures t in NativeTasks(lib, cs, librariesDir, os) <==>
      exists k :: 0 <= k < |cs| && IsNativeFor(cs[k].0, os) && t == NativeTask(lib, librariesDir, cs[k].0, cs[k].1)
  {
    if cs != [] {
      var init := cs[..|cs| - 1];
      NativeTasksExactly(lib, init, librariesDir, os, t);
      if exists k :: 0 <= k < |cs| && IsNativeFor(cs[k].0, os) && t == NativeTask(lib, librariesDir, cs[k].0, cs[k].1) {
        var k :| 0 <= k < |cs| && IsNativeFor(cs[k].0, os) && t == NativeTask(lib, librariesDir, cs[k].0, cs[k].1);
        if k < |cs| - 1 {
          assert init[k] == cs[k];
        }
      }
      if exists k :: 0 <= k < |init| && IsNativeFor(init[k].0, os) && t == NativeTask(lib, librariesDir, init[k].0, init[k].1) {
        var k :| 0 <= k < |init| && IsNativeFor(init[k].0, os) && t == NativeTask(lib, librariesDir, init[k].0, init[k].1);
        assert cs[k] == init[k];
      }
    }
  }

  /** A library's own tasks are exactly the ones it contributes. */
  lemma LibraryTaskExactly(lib: Library, librariesDir: Path, os: Os, t: DownloadTask)
    ensures t in LibraryTasks(lib, librariesDir, os) <==> TaskOf(t, lib, librariesDir, os)
  {
    if lib.downloads.Some? && lib.downloads.value.classifiers.Some? {
      NativeTasksExactly(lib, lib.downloads.value.classifiers.value, librariesDir, os, t);
    }
  }

  /** The plan after the client jar holds exactly the files of the
      libraries that apply: each task is the artifact or a suitable native
      jar of such a library, and each of those is planned. */
  lemma LibraryTasksExactly(libs: seq<Library>, librariesDir: Path, os: Os, t: DownloadTask)
    ensures t in AllLibraryTasks(libs, librariesDir, os) <==> exists i :: 0 <= i < |libs| && TaskOf(t, libs[i], librariesDir, os)
  {
    FlatMapMembership(libs, TasksOf(librariesDir, os), t);
    forall i | 0 <= i < |libs|
      ensures t in LibraryTasks(libs[i], librariesDir, os) <==> TaskOf(t, libs[i], librariesDir, os)
    {
      LibraryTaskExactly(libs[i], librariesDir, os, t);
    }
  }

  /** Planning a longer list plans the lists one after the other. */
  lemma AllLibraryTasksAppend(a: seq<Library>, b: seq<Library>, librariesDir: Path, os: Os)
    ensures AllLibraryTasks(a + b, librariesDir, os) == AllLibraryTasks(a, librariesDir, os) + AllLibraryTasks(b, librariesDir, os)
  {
    FlatMapAppend(a, b, TasksOf(librariesDir, os));
  }

  // ---------------------------------------------------------------------
  // Assets

  const ASSET_HOST := "https://resources.download.minecraft.net/"

  /** An entry of the asset index's `objects`: `hash` when it is a JSON
      string, `size` when it is a JSON integer. */
  datatype AssetObject = AssetObject(hash: Option<string>, size: Option<int>)

  /** The object has a string hash and a size `as_u64` accepts. */
  predicate Complete(o: AssetObject)
  {
    o.hash.Some? && o.size.Some? && 0 <= o.size.value < TWO_64
  }

  /** The number of bytes a character takes in UTF-8. */
  function Utf8Width(c: char): nat
  {
    if c as int < 0x80 then 1 else if c as int < 0x800 then 2 else if c as int < 0x1_0000 then 3 else 4
  }

  /** `&hash[0..2]`: the first two bytes of the hash, when they are whole
      characters; `None` is the panic of a slice that is too short or cuts
      a character. */
  function HashPrefix(h: string): (r: Option<string>)
    ensures r.Some? ==> r.value <= h && 1 <= |r.value| <= 2
  {
    if |h| >= 1 && Utf8Width(h[0]) == 2 then Some(h[..1])
    else if |h| >= 2 && Utf8Width(h[0]) == 1 && Utf8Width(h[1]) == 1 then Some(h[..2])
    else None
  }

  /** The task of one complete object, or `None` when slicing its hash
      panics. */
  function AssetTask(h: string, assetsDir: Path): Option<DownloadTask>
  {
    match HashPrefix(h)
    case None => None
    case Some(pre) => Some(DownloadTask(ASSET_HOST + pre + "/" + h, assetsDir + ["objects", pre, h], h))
  }

  /** The asset plan in the index's order; `None` when planning panics. */
  function AssetPlan(objects: seq<(string, AssetObject)>, assetsDir: Path): Option<seq<DownloadTask>>
  {
    if objects == [] then Some([])
    else
      match AssetPlan(objects[..|objects| - 1], assetsDir)
      case None => None
      case Some(tasks) =>
        var o := objects[|objects| - 1].1;
        if !Complete(o) then Some(tasks)
        else
          match AssetTask(o.hash.value, assetsDir)
          case None => None
          case Some(t) => Some(tasks + [t])
  }

  /** The task-building loop of `download_assets`. */
  method PlanAssetDownloads(objects: seq<(string, AssetObject)>, assetsDir: Path) returns (r: Option<seq<DownloadTask>>)
    ensures r == AssetPlan(objects, assetsDir)
  {
    var tasks := [];
    var i := 0;
    while i < |objects|
      invariant 0 <= i <= |objects|
      invariant AssetPlan(objects[..i], assetsDir) == Some(tasks)
    {
      assert objects[..i + 1][..i] == objects[..i];
      var (_, o) := objects[i];
      if o.hash.Some? && o.size.Some? && 0 <= o.size.value < TWO_64 {
        var t := AssetTask(o.hash.value, assetsDir);
        if t.None? {
          assert AssetPlan(objects[..i + 1], assetsDir).None?;
          AssetPlanPanicSticks(objects, i + 1, assetsDir);
          assert objects[..|objects|] == objects;
          return None;
        }
        tasks := tasks + [t.value];
      }
      i := i + 1;
    }
    assert objects[..i] == objects;
    return Some(tasks);
  }

  /** Once a prefix panics, so does the whole plan. */
  lemma {:induction false} AssetPlanPanicSticks(objects: seq<(string, AssetObject)>, n: nat, assetsDir: Path)
    requires n <= |objects| && AssetPlan(objects[..n], assetsDir).None?
    ensures AssetPlan(objects, assetsDir).None?
    decreases |objects| - n
  {
    if n < |objects| {
      assert objects[..n + 1][..n] == objects[..n];
      AssetPlanPanicSticks(objects, n + 1, assetsDir);
    } else {
      assert objects[..n] == objects;
    }
  }

  /** The number of objects that yield a task. */
  function CompleteCount(objects: seq<(string, AssetObject)>): nat
  {
    if objects == [] then 0
    else CompleteCount(objects[..|objects| - 1]) + (if Complete(objects[|objects| - 1].1) then 1 else 0)
  }

  /** The positions of the complete objects in the index, in order. */
  function CompleteIndices(objects: seq<(string, AssetObject)>): (ix: seq<nat>)
    ensures forall k :: 0 <= k < |ix| ==> ix[k] < |objects| && Complete(objects[ix[k]].1)
  {
    if objects == [] then []
    else
      var init := objects[..|objects| - 1];
      var ix := CompleteIndices(init);
      assert forall k :: 0 <= k < |ix| ==> objects[ix[k]] == init[ix[k]];
      ix + (if Complete(objects[|objects| - 1].1) then [|objects| - 1] else [])
  }

  /** The positions are increasing, there is one per complete object, and
      every complete object has one. */
  lemma {:induction false} CompleteIndicesMeaning(objects: seq<(string, AssetObject)>)
    ensures var ix := CompleteIndices(objects);
      && |ix| == CompleteCount(objects)
      && (forall k, l :: 0 <= k < l < |ix| ==> ix[k] < ix[l])
      && (forall i :: 0 <= i < |objects| && Complete(objects[i].1) ==> i in ix)
  {
    if objects != [] {
      var init := objects[..|objects| - 1];
      CompleteIndicesMeaning(init);
      assert forall i :: 0 <= i < |init| ==> init[i] == objects[i];
    }
  }

  /** A plan that does not panic holds, in order, the task of each complete
      object: the `k`-th task is built from the hash of the `k`-th complete
      object. */
  lemma {:induction false} AssetPlanOrder(objects: seq<(string, AssetObject)>, assetsDir: Path)
    ensures AssetPlan(objects, assetsDir).Some? ==>
      var tasks := AssetPlan(objects, assetsDir).value;
      var ix := CompleteIndices(objects);
      && |tasks| == |ix|
      && forall k :: 0 <= k < |tasks| ==> AssetTask(objects[ix[k]].1.hash.value, assetsDir) == Some(tasks[k])
  {
    if objects != [] && AssetPlan(objects, assetsDir).Some? {
      var init := objects[..|objects| - 1];
      AssetPlanOrder(init, assetsDir);
      var ix := CompleteIndices(init);
      assert forall k :: 0 <= k < |ix| ==> objects[ix[k]] == init[ix[k]];
    }
  }

  /** Planning panics exactly when a complete object's hash cannot be
      sliced; otherwise there is one task per complete object, its address
      and its destination both built from the hash's first two bytes and
      the hash, which is also the expected SHA-1. */
  lemma {:induction false} AssetPlanMeaning(objects: seq<(string, AssetObject)>, assetsDir: Path)
    ensures AssetPlan(objects, assetsDir).None? <==>
      exists i :: 0 <= i < |objects| && Complete(objects[i].1) && HashPrefix(objects[i].1.hash.value).None?
    ensures AssetPlan(objects, assetsDir).Some? ==>
      var tasks := AssetPlan(objects, assetsDir).value;
      && |tasks| == CompleteCount(objects)
      && forall t :: t in tasks ==>
           exists i, pre ::
             && 0 <= i < |objects| && Complete(objects[i].1) && t.sha1 == objects[i].1.hash.value
             && HashPrefix(t.sha1) == Some(pre)
             && t.url == ASSET_HOST + pre + "/" + t.sha1 && t.path == assetsDir + ["objects", pre, t.sha1]
  {
    if objects != [] {
      var init := objects[..|objects| - 1];
      var o := objects[|objects| - 1].1;
      AssetPlanMeaning(init, assetsDir);
      forall i | 0 <= i < |init|
        ensures init[i] == objects[i]
      {
      }
      if AssetPlan(init, assetsDir).None? {
        var i :| 0 <= i < |init| && Complete(init[i].1) && HashPrefix(init[i].1.hash.value).None?;
        assert objects[i] == init[i];
      } else if AssetPlan(objects, assetsDir).Some? {
        var tasks := AssetPlan(init, assetsDir).value;
        forall t | t in AssetPlan(objects, assetsDir).value
          ensures exists i, pre ::
            && 0 <= i < |objects| && Complete(objects[i].1) && t.sha1 == objects[i].1.hash.value
            && HashPrefix(t.sha1) == Some(pre)
            && t.url == ASSET_HOST + pre + "/" + t.sha1 && t.path == assetsDir + ["objects", pre, t.sha1]
        {
          if t in tasks {
            var i, pre :| 0 <= i < |init| && Complete(init[i].1) && t.sha1 == init[i].1.hash.value
             && HashPrefix(t.sha1) == Some(pre)
             && t.url == ASSET_HOST + pre + "/" + t.sha1 && t.path == assetsDir + ["objects", pre, t.sha1];
            assert objects[i] == init[i];
          } else {
            var k := |objects| - 1;
            assert Complete(objects[k].1) && t.sha1 == objects[k].1.hash.value;
          }
        }
      }
    }
  }
}
