/** Where the launcher keeps library jars (`get_library_path`,
    `get_native_path`, `is_native_for_current_os` in launcher.rs). A library
    is named by a Maven coordinate `group:artifact:version[:classifier]`;
    the group's dots become directory separators. */
module Libraries {
  import opened Strings
  import opened Platform
  import opened Paths

  /** The directory part of a coordinate with at least three segments:
      group (dots turned into slashes), artifact, version. */
  function CoordinateDir(parts: seq<string>): Path
    requires |parts| >= 3
  {
    [Replace(parts[0], ".", "/"), parts[1], parts[2]]
  }

  /** `get_library_path`. Only the fourth segment is used as classifier;
      a name with fewer than three segments is used as a file name as is. */
  function LibraryPath(name: string, librariesDir: Path): Path
  {
    var parts := Split(name, ':');
    if |parts| >= 3 then
      var classifier := if |parts| > 3 then "-" + parts[3] else "";
      librariesDir + CoordinateDir(parts) + [parts[1] + "-" + parts[2] + classifier + ".jar"]
    else librariesDir + [name]
  }

  /** `get_native_path`: the jar of one native classifier of a library. */
  function NativePath(name: string, classifier: string, librariesDir: Path): Path
  {
    var parts := Split(name, ':');
    if |parts| >= 3 then
      librariesDir + CoordinateDir(parts) + [parts[1] + "-" + parts[2] + "-" + classifier + ".jar"]
    else librariesDir + [name + "-" + classifier + ".jar"]
  }

  /** `is_native_for_current_os`: the classifier mentions the system. */
  predicate IsNativeFor(classifier: string, os: Os)
  {
    match os
    case Windows => Contains(classifier, "natives-windows")
    case MacOs => Contains(classifier, "natives-osx") || Contains(classifier, "natives-macos")
    case Linux => Contains(classifier, "natives-linux")
  }

  /** The layout of a coordinate built from its segments: the path goes
      through the group (dots as slashes), the artifact and the version, and
      the file is `artifact-version[-classifier].jar`, where only the first
      extra segment counts. */
  lemma LibraryPathOfCoordinate(group: string, artifact: string, version: string, extra: seq<string>, librariesDir: Path)
    requires ':' !in group && ':' !in artifact && ':' !in version
    requires forall i :: 0 <= i < |extra| ==> ':' !in extra[i]
    ensures LibraryPath(Join([group, artifact, version] + extra, ":"), librariesDir)
      == librariesDir + [Replace(group, ".", "/"), artifact, version,
                         artifact + "-" + version + (if extra == [] then "" else "-" + extra[0]) + ".jar"]
  {
    var parts := [group, artifact, version] + extra;
    assert forall i :: 0 <= i < |parts| ==> ':' !in parts[i] by {
      forall i | 0 <= i < |parts|
        ensures ':' !in parts[i]
      {
        if i >= 3 {
          assert parts[i] == extra[i - 3];
        }
      }
    }
    SplitJoin(parts, ':');
    assert [':'] == ":";
    var sp := Split(Join(parts, ":"), ':');
    assert sp == parts;
    assert sp[0] == group && sp[1] == artifact && sp[2] == version;
    if extra != [] {
      assert sp[3] == extra[0];
    }
  }

  /** A native jar sits in the same directory as the library's own jar,
      for coordinates and plain names alike. */
  lemma NativeBesideLibrary(name: string, classifier: string, librariesDir: Path)
    ensures var lib := LibraryPath(name, librariesDir);
      var native := NativePath(name, classifier, librariesDir);
      |lib| == |native| && lib[..|lib| - 1] == native[..|native| - 1]
      && librariesDir < lib
  {
  }
}
