/** The helpers of the download example (examples/download_example.rs):
    the progress bar, the byte branch of the size formatter, and the
    download size and file count of versions. The example is built in
    release mode, so `u64` arithmetic wraps around. */
module DownloadExample {
  import opened Wrappers
  import opened Strings
  import opened Ints
  import opened Errors
  import opened Version

  // ---------------------------------------------------------------------
  // print_progress

  const BAR_LENGTH: nat := 30
  const FULL_CELL: char := '█'
  const EMPTY_CELL: char := '░'

  predicate IsU64(x: int)
  {
    0 <= x < TWO_64
  }

  /** The percentage `print_progress` shows: `downloaded * 100 / total`,
      the product wrapping in `u64`, and 0 for an unknown total. */
  function Percentage(downloaded: nat, total: nat): (p: nat)
    requires IsU64(downloaded) && IsU64(total)
    ensures IsU64(p)
  {
    if total > 0 then WrapU64(downloaded * 100) / total else 0
  }

  /** How many cells are full: `percentage * 30 / 100`, wrapping too. */
  function FilledLength(percentage: nat): (n: nat)
    requires IsU64(percentage)
  {
    WrapU64(percentage * BAR_LENGTH) / 100
  }

  /** The loop of `print_progress` that draws the bar. */
  method ProgressBar(downloaded: nat, total: nat) returns (bar: string, percentage: nat)
    requires IsU64(downloaded) && IsU64(total)
    ensures percentage == Percentage(downloaded, total)
    ensures |bar| == BAR_LENGTH
    ensures forall i :: 0 <= i < BAR_LENGTH ==> bar[i] == if i < FilledLength(percentage) then FULL_CELL else EMPTY_CELL
  {
    percentage := if total > 0 then WrapU64(downloaded * 100) / total else 0;
    var filled := WrapU64(percentage * BAR_LENGTH) / 100;
    bar := [];
    var i := 0;
    while i < BAR_LENGTH
      invariant 0 <= i <= BAR_LENGTH && |bar| == i
      invariant forall j :: 0 <= j < i ==> bar[j] == if j < filled then FULL_CELL else EMPTY_CELL
    {
      if i < filled {
        bar := bar + [FULL_CELL];
      } else {
        bar := bar + [EMPTY_CELL];
      }
      i := i + 1;
    }
  }

  lemma {:induction false} MulLe(a: nat, b: nat, d: nat)
    requires a <= b
    ensures a * d <= b * d
    decreases b - a
  {
    if a < b {
      MulLe(a, b - 1, d);
      assert b * d == (b - 1) * d + d;
    }
  }

  lemma MulCompare(a: nat, b: nat, d: nat)
    ensures a >= b ==> a * d >= b * d
  {
    if a >= b {
      MulLe(b, a, d);
    }
  }

  /** `n / d` lies between the multiples of `d` around `n`. */
  lemma DivBelow(n: nat, d: nat, m: nat)
    requires 0 < d && n < m * d
    ensures n / d < m
  {
    var q := n / d;
    assert q * d + n % d == n;
    MulCompare(q, m, d);
  }

  lemma DivAbove(n: nat, d: nat, m: nat)
    requires 0 < d && m * d <= n
    ensures m <= n / d
  {
    var q := n / d;
    assert q * d + n % d == n;
    assert (q + 1) * d == q * d + d;
    MulCompare(m, q + 1, d);
  }

  /** While no more than the total has arrived (and the product does not
      wrap), the percentage is at most 100, it reaches 100 exactly when all
      has arrived, and `percentage * 30 / 100` of the 30 cells are full. */
  lemma PercentageBounds(downloaded: nat, total: nat)
    requires 0 < total < TWO_64 && downloaded <= total && downloaded * 100 < TWO_64
    ensures Percentage(downloaded, total) <= 100
    ensures Percentage(downloaded, total) == 100 <==> downloaded == total
    ensures FilledLength(Percentage(downloaded, total)) == Percentage(downloaded, total) * 30 / 100 <= BAR_LENGTH
  {
    var n := downloaded * 100;
    assert WrapU64(n) == n;
    var p := n / total;
    assert Percentage(downloaded, total) == p;
    if downloaded < total {
      assert n < 100 * total;
      DivBelow(n, total, 100);
    } else {
      DivBelow(n, total, 101);
      DivAbove(n, total, 100);
    }
    assert p * 30 <= 3000;
    assert WrapU64(p * 30) == p * 30;
  }

  /** A product that overflows `u64` wraps: past about 184 PB downloaded the
      percentage falls back. */
  lemma PercentageWraps()
    ensures Percentage(TWO_64 / 100 + 1, TWO_64 - 1) == 0
  {
    assert WrapU64((TWO_64 / 100 + 1) * 100) == 84;
  }

  // ---------------------------------------------------------------------
  // format_size, below one kilobyte

  /** `format_size` for sizes below 1024: the number of bytes and " B";
      larger sizes are printed from a floating-point value and are not
      given here. */
  function FormatBytes(size: nat): (r: Option<string>)
    requires IsU64(size)
    ensures r.Some? <==> size < 1024
    ensures r.Some? ==> r.value == NatToString(size) + " B"
  {
    if size == 0 then Some("0 B")
    else if size < 1024 then Some(NatToString(size) + " B")
    else None
  }

  /** The text reads back as the size. */
  lemma FormatBytesReadsBack(size: nat)
    requires size < 1024
    ensures var t := FormatBytes(size).value;
      |t| >= 3 && t[|t| - 2..] == " B" && AllDigits(t[..|t| - 2]) && DigitsValue(t[..|t| - 2]) == size
  {
    var t := FormatBytes(size).value;
    assert t[..|t| - 2] == NatToString(size);
    NatToStringValue(size);
  }

  // ---------------------------------------------------------------------
  // calculate_version_download_size

  /** The size of one library's downloads: its artifact and every
      classifier, whatever the rules or the platform. */
  function LibrarySize(lib: Library): nat
  {
    if lib.downloads.None? then 0
    else
      (if lib.downloads.value.artifact.Some? then lib.downloads.value.artifact.value.size else 0)
      + (if lib.downloads.value.classifiers.Some? then ClassifiersSize(lib.downloads.value.classifiers.value) else 0)
  }

  function ClassifiersSize(cs: seq<(string, DownloadInfo)>): nat
  {
    if cs == [] then 0 else ClassifiersSize(cs[..|cs| - 1]) + cs[|cs| - 1].1.size
  }

  function LibrariesSize(libs: seq<Library>): nat
  {
    if libs == [] then 0 else LibrariesSize(libs[..|libs| - 1]) + LibrarySize(libs[|libs| - 1])
  }

  /** What the example adds up: the client jar, every library download, the
      asset index and, when the index states it, the size of all assets. */
  function DownloadSize(info: VersionInfo): nat
  {
    info.downloads.client.size + LibrariesSize(info.libraries) + info.assetIndex.size + info.assetIndex.totalSize.UnwrapOr(0)
  }

  /** Adding in `u64` and wrapping at each step is wrapping the sum. */
  lemma WrapAdd(x: int, y: int)
    ensures WrapU64(WrapU64(x) + y) == WrapU64(x + y)
  {
    var q := x / TWO_64;
    assert x == q * TWO_64 + WrapU64(x);
    assert WrapU64(x) + y == (x + y) - q * TWO_64;
  }

  /** The classifier loop of `calculate_version_download_size`. */
  method AddClassifiers(total: nat, ghost before: int, cs: seq<(string, DownloadInfo)>) returns (t: nat)
    requires total == WrapU64(before)
    ensures t == WrapU64(before + ClassifiersSize(cs))
  {
    t := total;
    var j := 0;
    while j < |cs|
      invariant 0 <= j <= |cs|
      invariant t == WrapU64(before + ClassifiersSize(cs[..j]))
    {
      assert cs[..j + 1][..j] == cs[..j];
      WrapAdd(before + ClassifiersSize(cs[..j]), cs[j].1.size);
      t := WrapU64(t + cs[j].1.size);
      j := j + 1;
    }
    assert cs[..j] == cs;
  }

  /** The body of the library loop of `calculate_version_download_size`:
      the artifact, then each classifier, added to the `u64` total. */
  method AddLibrary(total: nat, ghost before: int, lib: Library) returns (t: nat)
    requires total == WrapU64(before)
    ensures t == WrapU64(before + LibrarySize(lib))
  {
    t := total;
    if lib.downloads.Some? {
      var d := lib.downloads.value;
      ghost var base := before;
      if d.artifact.Some? {
        WrapAdd(before, d.artifact.value.size);
        t := WrapU64(t + d.artifact.value.size);
        base := before + d.artifact.value.size;
      }
      if d.classifiers.Some? {
        t := AddClassifiers(t, base, d.classifiers.value);
      }
    }
  }

  /** The last additions of `calculate_version_download_size`: the asset
      index and, when stated, the size of all assets. */
  method AddAssetIndex(total: nat, ghost before: int, index: AssetIndex) returns (t: nat)
    requires total == WrapU64(before)
    ensures t == WrapU64(before + index.size + index.totalSize.UnwrapOr(0))
  {
    WrapAdd(before, index.size);
    t := WrapU64(total + index.size);
    WrapAdd(before + index.size, index.totalSize.UnwrapOr(0));
    if index.totalSize.Some? {
      t := WrapU64(t + index.totalSize.value);
    }
  }

  /** `calculate_version_download_size`: the running total is a `u64`. */
  method CalculateVersionDownloadSize(info: VersionInfo) returns (total: nat)
    ensures total == WrapU64(DownloadSize(info))
  {
    var client := info.downloads.client.size;
    total := WrapU64(client);
    var libs := info.libraries;
    var i := 0;
    while i < |libs|
      invariant 0 <= i <= |libs|
      invariant total == WrapU64(client + LibrariesSize(libs[..i]))
    {
      assert libs[..i + 1][..i] == libs[..i];
      total := AddLibrary(total, client + LibrariesSize(libs[..i]), libs[i]);
      i := i + 1;
    }
    assert libs[..i] == libs;
    total := AddAssetIndex(total, client + LibrariesSize(libs), info.assetIndex);
  }

  /** The libraries' download sizes add up: the order in which the loop
      meets them, split anywhere, does not matter to the total. */
  lemma {:induction false} LibrariesSizeAppend(a: seq<Library>, b: seq<Library>)
    ensures LibrariesSize(a + b) == LibrariesSize(a) + LibrariesSize(b)
    decreases |b|
  {
    if b == [] {
      assert a + b == a;
    } else {
      var b' := b[..|b| - 1];
      assert (a + b)[..|a + b| - 1] == a + b';
      LibrariesSizeAppend(a, b');
    }
  }

  // ---------------------------------------------------------------------
  // get_download_statistics

  /** What the example looks up for one identifier: the manifest entry
      (`fetchManifest(id)` is the manifest fetch `find_version` makes for
      it), then the descriptor the entry points to. */
  function Lookup(id: string, fetchManifest: string -> JsonFetch<VersionManifest>,
                  fetchInfo: VersionEntry -> JsonFetch<VersionInfo>): LResult<VersionInfo>
  {
    match FindVersion(fetchManifest(id), id)
    case Err(e) => Err(e)
    case Ok(entry) => FetchVersionInfo(fetchInfo(entry))
  }

  /** One line of the statistics: the identifier, the download size and
      the number of files (the libraries and the client jar). */
  function StatisticOf(id: string, info: VersionInfo): (string, nat, nat)
  {
    (id, WrapU64(DownloadSize(info)), |info.libraries| + 1)
  }

  /** The statistics of `ids[i..]`, each identifier looked up by
      `lookup`: one line per identifier in order, or the first lookup that
      fails. */
  function StatisticsFrom(ids: seq<string>, i: nat, lookup: string -> LResult<VersionInfo>): (r: LResult<seq<(string, nat, nat)>>)
    requires i <= |ids|
    ensures r.Ok? ==> |r.value| == |ids| - i
    decreases |ids| - i
  {
    if i == |ids| then Ok([])
    else
      match lookup(ids[i])
      case Err(e) => Err(e)
      case Ok(info) =>
        match StatisticsFrom(ids, i + 1, lookup)
        case Err(e) => Err(e)
        case Ok(rest) => Ok([StatisticOf(ids[i], info)] + rest)
  }

  /** The statistics succeed exactly when every lookup does. */
  lemma {:induction false} StatisticsSucceed(ids: seq<string>, i: nat, lookup: string -> LResult<VersionInfo>)
    requires i <= |ids|
    ensures StatisticsFrom(ids, i, lookup).Ok? <==> forall k :: i <= k < |ids| ==> lookup(ids[k]).Ok?
    decreases |ids| - i
  {
    if i < |ids| {
      StatisticsSucceed(ids, i + 1, lookup);
    }
  }

  /** They then hold one line per identifier, in order. */
  lemma {:induction false} StatisticsLines(ids: seq<string>, i: nat, lookup: string -> LResult<VersionInfo>)
    requires i <= |ids| && StatisticsFrom(ids, i, lookup).Ok?
    ensures forall k :: i <= k < |ids| ==> lookup(ids[k]).Ok? && StatisticsFrom(ids, i, lookup).value[k - i] == StatisticOf(ids[k], lookup(ids[k]).value)
    decreases |ids| - i
  {
    if i < |ids| {
      StatisticsLines(ids, i + 1, lookup);
      var rest := StatisticsFrom(ids, i + 1, lookup).value;
      assert StatisticsFrom(ids, i, lookup).value == [StatisticOf(ids[i], lookup(ids[i]).value)] + rest;
    }
  }

  /** Otherwise they report the error of the first lookup that fails. */
  lemma {:induction false} StatisticsFirstError(ids: seq<string>, i: nat, lookup: string -> LResult<VersionInfo>)
    requires i <= |ids| && StatisticsFrom(ids, i, lookup).Err?
    ensures exists k :: i <= k < |ids| && lookup(ids[k]).Err? && StatisticsFrom(ids, i, lookup).error == lookup(ids[k]).error
                        && forall m :: i <= m < k ==> lookup(ids[m]).Ok?
    decreases |ids| - i
  {
    if lookup(ids[i]).Err? {
      assert StatisticsFrom(ids, i, lookup).error == lookup(ids[i]).error;
    } else {
      StatisticsFirstError(ids, i + 1, lookup);
      var k :| i + 1 <= k < |ids| && lookup(ids[k]).Err? && StatisticsFrom(ids, i + 1, lookup).error == lookup(ids[k]).error
               && forall m :: i + 1 <= m < k ==> lookup(ids[m]).Ok?;
      assert StatisticsFrom(ids, i, lookup).error == lookup(ids[k]).error;
    }
  }

  /** Lines already gathered in front of the statistics of the rest. */
  function Prepended(lines: seq<(string, nat, nat)>, rest: LResult<seq<(string, nat, nat)>>): LResult<seq<(string, nat, nat)>>
  {
    match rest
    case Err(e) => Err(e)
    case Ok(more) => Ok(lines + more)
  }

  lemma PrependedEmpty(rest: LResult<seq<(string, nat, nat)>>)
    ensures Prepended([], rest) == rest
  {
    if rest.Ok? {
      assert [] + rest.value == rest.value;
    }
  }

  /** One successful lookup moves its line from the statistics still to
      gather to the lines gathered. */
  lemma PrependedStep(lines: seq<(string, nat, nat)>, ids: seq<string>, i: nat, lookup: string -> LResult<VersionInfo>, info: VersionInfo)
    requires i < |ids| && lookup(ids[i]) == Ok(info)
    ensures Prepended(lines, StatisticsFrom(ids, i, lookup)) == Prepended(lines + [StatisticOf(ids[i], info)], StatisticsFrom(ids, i + 1, lookup))
  {
    var rest := StatisticsFrom(ids, i + 1, lookup);
    if rest.Ok? {
      assert lines + ([StatisticOf(ids[i], info)] + rest.value) == (lines + [StatisticOf(ids[i], info)]) + rest.value;
    }
  }

  /** The loop of `get_download_statistics`, each identifier looked up by
      `lookup`; the first failing lookup ends it. */
  method GatherStatistics(ids: seq<string>, lookup: string -> LResult<VersionInfo>) returns (r: LResult<seq<(string, nat, nat)>>)
    ensures r == StatisticsFrom(ids, 0, lookup)
  {
    var stats: seq<(string, nat, nat)> := [];
    PrependedEmpty(StatisticsFrom(ids, 0, lookup));
    var i := 0;
    while i < |ids|
      invariant 0 <= i <= |ids|
      invariant StatisticsFrom(ids, 0, lookup) == Prepended(stats, StatisticsFrom(ids, i, lookup))
    {
      var info := lookup(ids[i]);
      if info.Err? {
        return Err(info.error);
      }
      var total := CalculateVersionDownloadSize(info.value);
      var line := (ids[i], total, |info.value.libraries| + 1);
      assert line == StatisticOf(ids[i], info.value);
      PrependedStep(stats, ids, i, lookup, info.value);
      stats := stats + [line];
      i := i + 1;
    }
    assert stats + [] == stats;
    return Ok(stats);
  }

  /** `get_download_statistics`: the manifest entry and descriptor of
      each identifier, fetched by `find_version` and `fetch_version_info`. */
  method GetDownloadStatistics(ids: seq<string>, fetchManifest: string -> JsonFetch<VersionManifest>,
                               fetchInfo: VersionEntry -> JsonFetch<VersionInfo>) returns (r: LResult<seq<(string, nat, nat)>>)
    ensures r == StatisticsFrom(ids, 0, id => Lookup(id, fetchManifest, fetchInfo))
  {
    r := GatherStatistics(ids, id => Lookup(id, fetchManifest, fetchInfo));
  }
}
