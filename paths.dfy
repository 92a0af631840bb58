/** File-system paths as the launcher builds them: a base directory and the
    pieces later joined onto it with `Path::join`. */
module Paths {
  import opened Wrappers
  import opened Strings
  import opened Platform

  /** The pieces a path was built from, in join order; the first is the base
      directory as configured. */
  type Path = seq<string>

  /** How `Path::display` shows the path: the pieces with the platform's
      separator between them. */
  function Display(p: Path, os: Os): string
  {
    Join(p, [PathSeparator(os)])
  }

  /** `Path::parent` of a path with at least one joined piece. */
  function Parent(p: Path): (r: Option<Path>)
    ensures r.Some? ==> |p| >= 2 && r.value + [p[|p| - 1]] == p
  {
    if |p| >= 2 then Some(p[..|p| - 1]) else None
  }

  /** `Path::extension` of a file name: the text after the last dot, unless
      the only dot starts the name (".bashrc") or the name is "..". */
  function Extension(name: string): (r: Option<string>)
    ensures r.Some? ==> '.' !in r.value && Contains(name, "." + r.value)
  {
    if name == ".." then None
    else
      match LastIndexOf(name, '.')
      case None => None
      case Some(k) =>
        if k == 0 then None
        else
          assert name == name[..k] + "." + name[k + 1..];
          ContainsInfix(name[..k], "." + name[k + 1..], []);
          assert name[..k] + ("." + name[k + 1..]) + [] == name;
          Some(name[k + 1..])
  }

  /** The file name without its extension (`Path::file_stem`). */
  function Stem(name: string): string
  {
    if Extension(name).None? then name
    else
      match LastIndexOf(name, '.')
      case None => name
      case Some(k) => name[..k]
  }

  /** `Path::with_extension(ext)`: the extension of the last piece replaced,
      or added when it has none. The directory part stays as it was. */
  function WithExtension(p: Path, ext: string): (q: Path)
    ensures |q| == |p|
    ensures p != [] ==> q[..|p| - 1] == p[..|p| - 1] && q[|p| - 1] == Stem(p[|p| - 1]) + "." + ext
  {
    if p == [] then p
    else p[..|p| - 1] + [Stem(p[|p| - 1]) + "." + ext]
  }

  /** A path with a replaced extension differs from the original whenever the
      original's extension was a different one, so the temporary file never
      overwrites the destination of ".jar" or ".json" files. */
  lemma WithExtensionDiffers(p: Path, ext: string)
    requires p != []
    requires Extension(p[|p| - 1]).Some? && Extension(p[|p| - 1]).value != ext
    ensures WithExtension(p, ext) != p
  {
    var name := p[|p| - 1];
    var k := LastIndexOf(name, '.').value;
    var q := WithExtension(p, ext);
    assert q[|p| - 1] == name[..k] + "." + ext;
    assert (name[..k] + "." + ext)[k + 1..] == ext;
    assert name[k + 1..] != ext;
  }
}
