/** The helpers of the mod loader example (examples/mod_loader_example.rs):
    the rough check of which game versions a loader supports, and the
    listing of the mods installed in a directory. */
module ModLoaderExample {
  import opened Wrappers
  import opened Strings
  import opened Paths
  import opened Sorting
  import opened Version
  import opened Minecraft

  // ---------------------------------------------------------------------
  // Compatibility

  /** The first two dot-separated segments, when both parse as `i32`. */
  function MajorMinor(v: string): Option<(int, int)>
  {
    var p := Split(v, '.');
    if |p| >= 2 && ParseI32(p[0]).Some? && ParseI32(p[1]).Some?
    then Some((ParseI32(p[0]).value, ParseI32(p[1]).value))
    else None
  }

  /** The first three segments, when all three parse as `i32`. */
  function MajorMinorPatch(v: string): Option<(int, int, int)>
  {
    var p := Split(v, '.');
    if |p| >= 3 && ParseI32(p[0]).Some? && ParseI32(p[1]).Some? && ParseI32(p[2]).Some?
    then Some((ParseI32(p[0]).value, ParseI32(p[1]).value, ParseI32(p[2]).value))
    else None
  }

  /** `major.minor` is at least `1.least`. */
  predicate FromOne(mm: Option<(int, int)>, least: int)
  {
    mm.Some? && (mm.value.0 > 1 || (mm.value.0 == 1 && mm.value.1 >= least))
  }

  /** `check_mod_compatibility`. */
  function CheckModCompatibility(loader: ModLoaderType, version: string): bool
  {
    match loader
    case Forge => true
    case Fabric => FromOne(MajorMinor(version), 14)
    case Quilt => FromOne(MajorMinor(version), 17)
    case NeoForge =>
      var mmp := MajorMinorPatch(version);
      mmp.Some? &&
        var (major, minor, patch) := mmp.value;
        major > 1 || (major == 1 && minor > 20) || (major == 1 && minor == 20 && patch >= 1)
    case LegacyFabric =>
      var mm := MajorMinor(version);
      mm.Some? && mm.value.0 == 1 && mm.value.1 < 14
  }

  /** Fabric and Legacy Fabric never both claim a version, and for a
      version from 1.0 on exactly one of them does; a version whose major
      segment is 0 or below is claimed by neither. */
  lemma FabricOrLegacy(version: string)
    ensures !(CheckModCompatibility(Fabric, version) && CheckModCompatibility(LegacyFabric, version))
    ensures MajorMinor(version).Some? && MajorMinor(version).value.0 >= 1 ==>
      CheckModCompatibility(Fabric, version) || CheckModCompatibility(LegacyFabric, version)
    ensures MajorMinor(version).Some? && MajorMinor(version).value.0 < 1 ==>
      !CheckModCompatibility(Fabric, version) && !CheckModCompatibility(LegacyFabric, version)
  {
  }

  /** Quilt and NeoForge claim only versions Fabric claims too. */
  lemma NewerLoadersNeedFabric(version: string)
    ensures CheckModCompatibility(Quilt, version) ==> CheckModCompatibility(Fabric, version)
    ensures CheckModCompatibility(NeoForge, version) ==> CheckModCompatibility(Fabric, version)
  {
  }

  /** The text of a release number `a.b`. */
  function TwoPart(a: nat, b: nat): string
  {
    NatToString(a) + "." + NatToString(b)
  }

  /** The text of a release number `a.b.c`. */
  function ThreePart(a: nat, b: nat, c: nat): string
  {
    NatToString(a) + "." + NatToString(b) + "." + NatToString(c)
  }

  lemma NoDot(n: nat)
    ensures '.' !in NatToString(n)
  {
    var s := NatToString(n);
    assert forall i :: 0 <= i < |s| ==> IsDigit(s[i]);
  }

  lemma {:induction false} TwoPartSplit(a: nat, b: nat)
    ensures Split(TwoPart(a, b), '.') == [NatToString(a), NatToString(b)]
  {
    NoDot(a);
    NoDot(b);
    SplitAfterPiece(NatToString(a), '.', NatToString(b));
    SplitWithoutSeparator(NatToString(b), '.');
  }

  lemma {:induction false} ThreePartSplit(a: nat, b: nat, c: nat)
    ensures Split(ThreePart(a, b, c), '.') == [NatToString(a), NatToString(b), NatToString(c)]
  {
    NoDot(a);
    NoDot(b);
    var x, y, z := NatToString(a), NatToString(b), NatToString(c);
    assert ThreePart(a, b, c) == x + ['.'] + (y + ['.'] + z);
    SplitAfterPiece(x, '.', y + ['.'] + z);
    TwoPartSplit(b, c);
  }

  /** A two-part release reads back as its numbers, and NeoForge never
      accepts it, since it asks for three segments. */
  lemma {:induction false} TwoPartRelease(a: nat, b: nat)
    requires a <= I32_MAX && b <= I32_MAX
    ensures MajorMinor(TwoPart(a, b)) == Some((a, b))
    ensures !CheckModCompatibility(NeoForge, TwoPart(a, b))
  {
    TwoPartSplit(a, b);
    ParseI32OfIntToString(a);
    ParseI32OfIntToString(b);
  }

  /** A three-part release reads back as its numbers. */
  lemma {:induction false} ThreePartRelease(a: nat, b: nat, c: nat)
    requires a <= I32_MAX && b <= I32_MAX && c <= I32_MAX
    ensures MajorMinorPatch(ThreePart(a, b, c)) == Some((a, b, c))
    ensures MajorMinor(ThreePart(a, b, c)) == Some((a, b))
  {
    ThreePartSplit(a, b, c);
    ParseI32OfIntToString(a);
    ParseI32OfIntToString(b);
    ParseI32OfIntToString(c);
  }

  lemma SmallNumerals()
    ensures NatToString(1) == "1" && NatToString(13) == "13" && NatToString(14) == "14"
    ensures NatToString(20) == "20" && NatToString(21) == "21"
  {
    assert NatToString(2) == "2";
  }

  /** "1.21" is not NeoForge-compatible, since it has two segments. */
  lemma NeoForgeNeedsPatch()
    ensures !CheckModCompatibility(NeoForge, "1.21")
  {
    SmallNumerals();
    TwoPartRelease(1, 21);
    assert TwoPart(1, 21) == "1.21";
  }

  /** 1.20.1 is the first NeoForge release. */
  lemma NeoForgeFrom()
    ensures CheckModCompatibility(NeoForge, "1.20.1")
  {
    SmallNumerals();
    ThreePartRelease(1, 20, 1);
    assert ThreePart(1, 20, 1) == "1.20.1";
    assert MajorMinorPatch("1.20.1") == Some((1, 20, 1));
  }

  /** 1.14 is the first Fabric release. */
  lemma FabricFrom()
    ensures CheckModCompatibility(Fabric, "1.14") && !CheckModCompatibility(LegacyFabric, "1.14")
  {
    SmallNumerals();
    TwoPartRelease(1, 14);
    assert TwoPart(1, 14) == "1.14";
    assert MajorMinor("1.14") == Some((1, 14));
  }

  /** 1.13 is the last Legacy Fabric release. */
  lemma LegacyFabricUpTo()
    ensures CheckModCompatibility(LegacyFabric, "1.13") && !CheckModCompatibility(Fabric, "1.13")
  {
    SmallNumerals();
    TwoPartRelease(1, 13);
    assert TwoPart(1, 13) == "1.13";
    assert MajorMinor("1.13") == Some((1, 13));
  }

  // ---------------------------------------------------------------------
  // Installed mods

  /** Rust's order on strings: lexicographic by code point, which is the
      byte order of their UTF-8 encoding. */
  predicate Less(a: string, b: string)
    decreases |a|
  {
    if a == [] then b != []
    else if b == [] then false
    else if a[0] != b[0] then a[0] < b[0]
    else Less(a[1..], b[1..])
  }

  function StringLess(): (string, string) -> bool
  {
    (a: string, b: string) => Less(a, b)
  }

  lemma {:induction false} LessIrreflexive(a: string)
    ensures !Less(a, a)
    decreases |a|
  {
    if a != [] {
      LessIrreflexive(a[1..]);
    }
  }

  lemma {:induction false} LessTransitive(a: string, b: string, c: string)
    requires Less(a, b) && Less(b, c)
    ensures Less(a, c)
    decreases |a|
  {
    if a != [] && a[0] == b[0] && b[0] == c[0] {
      LessTransitive(a[1..], b[1..], c[1..]);
    }
  }

  /** Any two different strings are ordered one way or the other. */
  lemma {:induction false} LessTotal(a: string, b: string)
    requires a != b
    ensures Less(a, b) || Less(b, a)
    decreases |a|
  {
    if a != [] && b != [] && a[0] == b[0] {
      assert a == [a[0]] + a[1..] && b == [b[0]] + b[1..];
      LessTotal(a[1..], b[1..]);
    }
  }

  lemma StringOrder()
    ensures StrictOrder(StringLess())
  {
    forall a ensures !StringLess()(a, a) {
      LessIrreflexive(a);
    }
    forall a, b, c | StringLess()(a, b) && StringLess()(b, c) ensures StringLess()(a, c) {
      LessTransitive(a, b, c);
    }
  }

  /** An entry whose extension is exactly "jar" (a directory so named
      counts too). */
  predicate IsJar(e: DirEntry)
  {
    Extension(e.name) == Some("jar")
  }

  function JarFilter(): DirEntry -> bool
  {
    (e: DirEntry) => IsJar(e)
  }

  /** The names of the entries `keep` picks, in listing order. */
  function Picked(items: seq<Result<DirEntry, string>>, keep: DirEntry -> bool): seq<string>
  {
    if items == [] then []
    else
      var last := items[|items| - 1];
      Picked(items[..|items| - 1], keep) + if last.Ok? && keep(last.value) then [last.value.name] else []
  }

  /** `list_installed_mods`: nothing when the directory is missing, the
      error when it cannot be opened, otherwise the jar names read before
      the first failed entry, sorted. */
  function InstalledMods(dirExists: bool, listing: Listing): Result<seq<string>, string>
  {
    if !dirExists then Ok([])
    else
      match listing
      case Err(e) => Err(e)
      case Ok(items) => Ok(SortBy(Picked(items[..ReadCount(items)], JarFilter()), StringLess()))
  }

  method ListInstalledMods(dirExists: bool, listing: Listing) returns (r: Result<seq<string>, string>)
    ensures r == InstalledMods(dirExists, listing)
  {
    var mods: seq<string> := [];
    if dirExists {
      if listing.Err? {
        return Err(listing.error);
      }
      var read;
      mods, read := CollectJars(listing.value);
    }
    return Ok(SortBy(mods, StringLess()));
  }

  /** One more entry read adds its name when it is a jar. */
  lemma PickedStep(items: seq<Result<DirEntry, string>>, i: nat, keep: DirEntry -> bool)
    requires i < |items| && items[i].Ok?
    ensures Picked(items[..i + 1], keep) == Picked(items[..i], keep) + if keep(items[i].value) then [items[i].value.name] else []
  {
    assert items[..i + 1][..i] == items[..i];
  }

  /** The loop of `list_installed_mods`: the entries are read until the
      first failure and the jar names kept in listing order. */
  method CollectJars(items: seq<Result<DirEntry, string>>) returns (mods: seq<string>, i: nat)
    ensures i == ReadCount(items) && mods == Picked(items[..i], JarFilter())
  {
    mods := [];
    i := 0;
    while i < |items| && items[i].Ok?
      invariant 0 <= i <= |items|
      invariant forall j :: 0 <= j < i ==> items[j].Ok?
      invariant mods == Picked(items[..i], JarFilter())
    {
      var e := items[i].value;
      PickedStep(items, i, JarFilter());
      if JarFilter()(e) {
        mods := mods + [e.name];
      }
      i := i + 1;
    }
    ReadCountAt(items, i);
  }

  lemma {:induction false} PickedMembership(items: seq<Result<DirEntry, string>>, keep: DirEntry -> bool, name: string)
    ensures name in Picked(items, keep) <==> exists j :: 0 <= j < |items| && items[j].Ok? && keep(items[j].value) && items[j].value.name == name
    decreases |items|
  {
    if items != [] {
      var init := items[..|items| - 1];
      PickedMembership(init, keep, name);
      if exists j :: 0 <= j < |items| && items[j].Ok? && keep(items[j].value) && items[j].value.name == name {
        var j :| 0 <= j < |items| && items[j].Ok? && keep(items[j].value) && items[j].value.name == name;
        if j < |init| {
          assert init[j] == items[j];
        }
      }
      if exists j :: 0 <= j < |init| && init[j].Ok? && keep(init[j].value) && init[j].value.name == name {
        var j :| 0 <= j < |init| && init[j].Ok? && keep(init[j].value) && init[j].value.name == name;
        assert items[j] == init[j];
      }
    }
  }

  /** The listing is sorted, and holds each jar read before the first
      failed entry as often as it was listed, and nothing else. */
  lemma InstalledModsMeaning(items: seq<Result<DirEntry, string>>, name: string)
    ensures var r := InstalledMods(true, Ok(items));
      && r.Ok? && SortedBy(r.value, StringLess())
      && multiset(r.value) == multiset(Picked(items[..ReadCount(items)], JarFilter()))
      && (name in r.value <==> exists j :: 0 <= j < ReadCount(items) && IsJar(items[j].value) && items[j].value.name == name)
  {
    var read := items[..ReadCount(items)];
    var jars := Picked(read, JarFilter());
    StringOrder();
    SortBySorted(jars, StringLess());
    PickedMembership(read, JarFilter(), name);
    var r := SortBy(jars, StringLess());
    assert name in r <==> name in multiset(r);
    assert name in jars <==> name in multiset(jars);
    assert forall j :: 0 <= j < |read| ==> read[j] == items[j];
  }
}
