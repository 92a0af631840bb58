/** A directory tree for the Java searches: unlike the file map the
    downloader works on, a directory lists its entries in the order
    `read_dir` yields them, and the searches return the first hit in that
    order. A path is a list of names from the root. */
module DirTree {
  import opened Wrappers
  import opened Paths

  datatype Node = FileNode | DirNode(entries: seq<(string, Node)>)

  /** The first entry called `name`. */
  function EntryIndex(entries: seq<(string, Node)>, name: string): (r: Option<nat>)
    ensures r.Some? ==> r.value < |entries| && entries[r.value].0 == name
    ensures r.Some? ==> forall j :: 0 <= j < r.value ==> entries[j].0 != name
    ensures r.None? <==> forall j :: 0 <= j < |entries| ==> entries[j].0 != name
    decreases |entries|
  {
    if entries == [] then None
    else if entries[0].0 == name then Some(0)
    else
      var r := EntryIndex(entries[1..], name);
      assert forall j :: 0 < j < |entries| ==> entries[j] == entries[1..][j - 1];
      match r
      case None => None
      case Some(k) => Some(k + 1)
  }

  /** What is at `p` below `n`. */
  function Lookup(n: Node, p: Path): Option<Node>
    decreases |p|
  {
    if p == [] then Some(n)
    else
      match n
      case FileNode => None
      case DirNode(es) =>
        match EntryIndex(es, p[0])
        case None => None
        case Some(k) => Lookup(es[k].1, p[1..])
  }

  /** `Path::exists`. */
  predicate PathExists(root: Node, p: Path)
  {
    Lookup(root, p).Some?
  }

  /** `Path::is_dir`. */
  predicate PathIsDir(root: Node, p: Path)
  {
    Lookup(root, p).Some? && Lookup(root, p).value.DirNode?
  }

  /** The names `read_dir` lists at a directory, in order. */
  function Listing(root: Node, dir: Path): seq<string>
    requires PathIsDir(root, dir)
  {
    var es := Lookup(root, dir).value.entries;
    seq(|es|, i requires 0 <= i < |es| => es[i].0)
  }

  /** Looking up `a + b` is looking up `b` below what `a` names. */
  lemma {:induction false} LookupAppend(n: Node, a: Path, b: Path)
    ensures Lookup(n, a + b) == if Lookup(n, a).Some? then Lookup(Lookup(n, a).value, b) else None
    decreases |a|
  {
    if a == [] {
      assert a + b == b;
    } else {
      assert (a + b)[0] == a[0];
      assert (a + b)[1..] == a[1..] + b;
      match n
      case FileNode =>
      case DirNode(es) =>
        match EntryIndex(es, a[0])
        case None =>
        case Some(k) => LookupAppend(es[k].1, a[1..], b);
    }
  }

  /** A fresh chain of empty directories along `p`. */
  function Chain(p: Path): Node
    decreases |p|
  {
    if p == [] then DirNode([]) else DirNode([(p[0], Chain(p[1..]))])
  }

  /** `fs::create_dir_all`: the missing directories along `p` are added
      (a new one is listed last); it fails when a file is in the way. */
  function MakeDirs(n: Node, p: Path): Option<Node>
    decreases |p|
  {
    match n
    case FileNode => None
    case DirNode(es) =>
      if p == [] then Some(n)
      else
        match EntryIndex(es, p[0])
        case None => Some(DirNode(es + [(p[0], Chain(p[1..]))]))
        case Some(k) =>
          match MakeDirs(es[k].1, p[1..])
          case None => None
          case Some(c) => Some(DirNode(es[k := (p[0], c)]))
  }

  lemma {:induction false} ChainLookup(p: Path)
    ensures Lookup(Chain(p), p) == Some(DirNode([]))
    decreases |p|
  {
    if p != [] {
      ChainLookup(p[1..]);
    }
  }

  /** After `create_dir_all` succeeds the path is a directory, and a
      directory that was missing is empty. */
  lemma {:induction false} MakeDirsMakesDir(n: Node, p: Path)
    requires MakeDirs(n, p).Some?
    ensures PathIsDir(MakeDirs(n, p).value, p)
    ensures !PathExists(n, p) ==> Lookup(MakeDirs(n, p).value, p) == Some(DirNode([]))
    decreases |p|
  {
    if p != [] {
      var es := n.entries;
      match EntryIndex(es, p[0])
      case None =>
        var es' := es + [(p[0], Chain(p[1..]))];
        assert es'[|es|].0 == p[0];
        assert EntryIndex(es', p[0]) == Some(|es|);
        ChainLookup(p[1..]);
      case Some(k) =>
        MakeDirsMakesDir(es[k].1, p[1..]);
        var c := MakeDirs(es[k].1, p[1..]).value;
        var es' := es[k := (p[0], c)];
        assert forall j :: 0 <= j < k ==> es'[j].0 == es[j].0;
        assert es'[k].0 == p[0];
        assert EntryIndex(es', p[0]) == Some(k);
    }
  }
}
