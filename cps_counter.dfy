/** The clicks-per-second counter (mods/features/CPSCounterFeature.java):
    clicks are remembered for one second, counted each tick, and shown
    through a template. Times are milliseconds, given by the caller where
    the source reads the system clock. */
module CpsCounter {
  import opened Wrappers
  import opened Strings
  import opened Ints
  import opened ModFeatures

  const CLICK_TIMEOUT: int := 1000
  const DEFAULT_FORMAT: string := "CPS: $c"
  const DEFAULT_SEPARATE_FORMAT: string := "CPS: [$l|$r]"

  /** Whether a click at `t` is still counted at `now`: only a click more
      than one second old is dropped. */
  predicate Fresh(t: int, now: int)
  {
    !(now - t > CLICK_TIMEOUT)
  }

  /** `removeIf(t -> now - t > 1000)`: the clicks of the last second, in
      their order. */
  function Recent(clicks: seq<int>, now: int): (r: seq<int>)
    ensures |r| <= |clicks|
    decreases |clicks|
  {
    if clicks == [] then []
    else Recent(clicks[..|clicks| - 1], now) + (if Fresh(clicks[|clicks| - 1], now) then [clicks[|clicks| - 1]] else [])
  }

  /** Every click of the last second is kept, as often as it was made, and
      every older one is dropped. */
  lemma {:induction false} RecentCounts(clicks: seq<int>, now: int)
    ensures forall t :: multiset(Recent(clicks, now))[t] == if Fresh(t, now) then multiset(clicks)[t] else 0
    decreases |clicks|
  {
    if clicks != [] {
      var init := clicks[..|clicks| - 1];
      var last := clicks[|clicks| - 1];
      assert clicks == init + [last];
      RecentCounts(init, now);
    }
  }

  /** A click exactly one second old is still counted; one a millisecond
      older is not. */
  lemma TimeoutBoundary(t: int)
    ensures Recent([t], t + CLICK_TIMEOUT) == [t]
    ensures Recent([t], t + CLICK_TIMEOUT + 1) == []
  {
    assert [t][..0] == [];
  }

  /** Pruning twice at the same time is pruning once. */
  lemma {:induction false} RecentIdempotent(clicks: seq<int>, now: int)
    ensures Recent(Recent(clicks, now), now) == Recent(clicks, now)
    decreases |clicks|
  {
    if clicks != [] {
      var init := clicks[..|clicks| - 1];
      var last := clicks[|clicks| - 1];
      RecentIdempotent(init, now);
      RecentAppend(Recent(init, now), if Fresh(last, now) then [last] else [], now);
      if Fresh(last, now) {
        assert Recent([last], now) == [last] by {
          assert [last][..0] == [];
        }
      }
    }
  }

  /** Pruning works element by element. */
  lemma {:induction false} RecentAppend(a: seq<int>, b: seq<int>, now: int)
    ensures Recent(a + b, now) == Recent(a, now) + Recent(b, now)
    decreases |b|
  {
    if b == [] {
      assert a + b == a;
    } else {
      var b' := b[..|b| - 1];
      assert (a + b)[..|a + b| - 1] == a + b';
      assert (a + b)[|a + b| - 1] == b[|b| - 1];
      RecentAppend(a, b', now);
    }
  }

  /** `getDisplayText` once a template is chosen: `$l`, then `$r`, then
      `$c` replaced by the counts, in that order. */
  function Render(format: string, left: int, right: int, combined: int): string
  {
    Replace(Replace(Replace(format, "$l", IntToString(left)), "$r", IntToString(right)), "$c", IntToString(combined))
  }

  predicate NoDollar(s: string)
  {
    forall i :: 0 <= i < |s| ==> s[i] != '$'
  }

  lemma IntToStringNoDollar(n: int)
    ensures NoDollar(IntToString(n))
  {
    var s := IntToString(n);
    if n < 0 {
      assert s == "-" + NatToString(-n);
      assert forall i :: 1 <= i < |s| ==> s[i] == NatToString(-n)[i - 1];
    }
  }

  /** A text without `$` is left alone, and so is any text ahead of the
      first `$`. */
  lemma ReplaceAfterPlain(a: string, b: string, pat: string, rep: string)
    requires pat != [] && pat[0] == '$' && NoDollar(a)
    ensures Replace(a + b, pat, rep) == a + Replace(b, pat, rep)
  {
    forall i | 0 <= i < |a|
      ensures !(pat <= (a + b)[i..])
    {
      assert (a + b)[i..][0] == a[i];
    }
    ReplaceAfter(a, b, pat, rep);
  }

  lemma ReplacePlain(a: string, pat: string, rep: string)
    requires pat != [] && pat[0] == '$' && NoDollar(a)
    ensures Replace(a, pat, rep) == a
  {
    ReplaceAfterPlain(a, [], pat, rep);
    assert a + [] == a;
  }

  /** A template without `$` is shown as it is. */
  lemma RenderPlain(format: string, left: int, right: int, combined: int)
    requires NoDollar(format)
    ensures Render(format, left, right, combined) == format
  {
    ReplacePlain(format, "$l", IntToString(left));
    ReplacePlain(format, "$r", IntToString(right));
    ReplacePlain(format, "$c", IntToString(combined));
  }

  /** A placeholder `$x` is two characters, `$` and a letter. */
  predicate IsHole(h: string)
  {
    |h| == 2 && h[0] == '$' && h[1] != '$'
  }

  /** The placeholder that is replaced: the text before it is kept, the
      replacement takes its place, and replacing goes on after it. */
  lemma ReplaceHit(p: string, pat: string, s: string, rep: string)
    requires IsHole(pat) && NoDollar(p)
    ensures Replace(p + pat + s, pat, rep) == p + rep + Replace(s, pat, rep)
  {
    assert p + pat + s == p + (pat + s);
    ReplaceAfterPlain(p, pat + s, pat, rep);
    assert pat <= pat + s;
    assert (pat + s)[|pat|..] == s;
  }

  /** Another placeholder is kept as it is. */
  lemma ReplaceSkip(p: string, hole: string, s: string, pat: string, rep: string)
    requires IsHole(pat) && IsHole(hole) && hole[1] != pat[1] && NoDollar(p)
    ensures Replace(p + hole + s, pat, rep) == p + hole + Replace(s, pat, rep)
  {
    assert p + hole + s == p + (hole + s);
    ReplaceAfterPlain(p, hole + s, pat, rep);
    assert !(pat <= hole + s) by {
      assert (hole + s)[1] == hole[1];
    }
    assert (hole + s)[1..] == [hole[1]] + s;
    ReplaceAfterPlain([hole[1]], s, pat, rep);
  }

  /** A template with one placeholder `h` between plain texts shows the
      count `h` names. */
  lemma RenderOneHole(p: string, h: string, q: string, left: int, right: int, combined: int)
    requires NoDollar(p) && NoDollar(q) && h in {"$l", "$r", "$c"}
    ensures Render(p + h + q, left, right, combined)
         == p + (if h == "$l" then IntToString(left) else if h == "$r" then IntToString(right) else IntToString(combined)) + q
  {
    var l, r, c := IntToString(left), IntToString(right), IntToString(combined);
    IntToStringNoDollar(left);
    IntToStringNoDollar(right);
    IntToStringNoDollar(combined);
    var s := p + h + q;
    var s1 := Replace(s, "$l", l);
    if h == "$l" {
      ReplaceHit(p, "$l", q, l);
      ReplacePlain(q, "$l", l);
      assert s1 == p + l + q;
      assert NoDollar(p + l + q);
      ReplacePlain(p + l + q, "$r", r);
      ReplacePlain(p + l + q, "$c", c);
    } else {
      ReplaceSkip(p, h, q, "$l", l);
      ReplacePlain(q, "$l", l);
      assert s1 == s;
      if h == "$r" {
        ReplaceHit(p, "$r", q, r);
        ReplacePlain(q, "$r", r);
        assert NoDollar(p + r + q);
        ReplacePlain(p + r + q, "$c", c);
      } else {
        ReplaceSkip(p, h, q, "$r", r);
        ReplacePlain(q, "$r", r);
        ReplaceHit(p, "$c", q, c);
        ReplacePlain(q, "$c", c);
      }
    }
  }

  /** A template `p $l q $r t` (plain `p`, `q`, `t`) shows the left and
      the right count. */
  lemma RenderLeftRight(p: string, q: string, t: string, left: int, right: int, combined: int)
    requires NoDollar(p) && NoDollar(q) && NoDollar(t)
    ensures Render(p + "$l" + q + "$r" + t, left, right, combined) == p + IntToString(left) + q + IntToString(right) + t
  {
    var l, r, c := IntToString(left), IntToString(right), IntToString(combined);
    IntToStringNoDollar(left);
    IntToStringNoDollar(right);
    var rest := q + "$r" + t;
    assert p + "$l" + q + "$r" + t == p + "$l" + rest;
    ReplaceHit(p, "$l", rest, l);
    ReplaceSkip(q, "$r", t, "$l", l);
    ReplacePlain(t, "$l", l);
    var s1 := p + l + q + "$r" + t;
    assert Replace(p + "$l" + rest, "$l", l) == s1;
    assert NoDollar(p + l + q);
    ReplaceHit(p + l + q, "$r", t, r);
    ReplacePlain(t, "$r", r);
    var s2 := p + l + q + r + t;
    assert Replace(s1, "$r", r) == s2;
    assert NoDollar(s2);
    ReplacePlain(s2, "$c", c);
  }

  /** The default template shows the combined count. */
  lemma RenderDefault(left: int, right: int, combined: int)
    ensures Render(DEFAULT_FORMAT, left, right, combined) == "CPS: " + IntToString(combined)
  {
    assert DEFAULT_FORMAT == "CPS: " + "$c" + "";
    RenderOneHole("CPS: ", "$c", "", left, right, combined);
  }

  /** The default separate template shows the left and the right count. */
  lemma RenderSeparateDefault(left: int, right: int, combined: int)
    ensures Render(DEFAULT_SEPARATE_FORMAT, left, right, combined) == "CPS: [" + IntToString(left) + "|" + IntToString(right) + "]"
  {
    assert DEFAULT_SEPARATE_FORMAT == "CPS: [" + "$l" + "|" + "$r" + "]";
    RenderLeftRight("CPS: [", "|", "]", left, right, combined);
  }

  /** The display settings of the counter: the two templates, which one
      is shown, and where and how the text is drawn. */
  datatype Settings = Settings(displayFormat: string, showSeparate: bool, separateFormat: string,
                               x: int, y: int, color: int, shadow: bool)

  const DEFAULT_SETTINGS := Settings(DEFAULT_FORMAT, false, DEFAULT_SEPARATE_FORMAT, 10, 70, 0xFFFFFF, true)

  /** The template `getDisplayText` uses. */
  function Format(s: Settings): string
  {
    if s.showSeparate then s.separateFormat else s.displayFormat
  }

  class CPSCounterFeature {
    const feature: ModFeature
    var leftClicks: seq<int>
    var rightClicks: seq<int>
    var settings: Settings
    var leftCPS: int
    var rightCPS: int
    var combinedCPS: int

    /** The defaults: disabled, no clicks, at (10, 70) in white with a
        shadow, the combined template. */
    constructor()
      ensures fresh(feature) && feature.name == "CPS Counter" && !feature.enabled
      ensures leftClicks == [] && rightClicks == []
      ensures settings == DEFAULT_SETTINGS
      ensures leftCPS == 0 && rightCPS == 0 && combinedCPS == 0
    {
      feature := new ModFeature("CPS Counter");
      leftClicks, rightClicks := [], [];
      settings := DEFAULT_SETTINGS;
      leftCPS, rightCPS, combinedCPS := 0, 0, 0;
    }

    /** `getDisplayText`: nothing while disabled, else the chosen template
        filled in with the counts of the last tick. */
    function DisplayText(): (t: string)
      reads this, feature
      ensures !feature.enabled ==> t == ""
      ensures feature.enabled && NoDollar(Format(settings)) ==> t == Format(settings)
    {
      if !feature.enabled then ""
      else
        var f := Format(settings);
        var t := Render(f, leftCPS, rightCPS, combinedCPS);
        assert NoDollar(f) ==> t == f by {
          if NoDollar(f) {
            RenderPlain(f, leftCPS, rightCPS, combinedCPS);
          }
        }
        t
    }

    /** `onEnable`: both click lists are emptied. */
    method OnEnable()
      modifies this
      ensures leftClicks == [] && rightClicks == []
      ensures leftCPS == old(leftCPS) && rightCPS == old(rightCPS) && combinedCPS == old(combinedCPS)
      ensures settings == old(settings)
    {
      leftClicks, rightClicks := [], [];
    }

    /** `onDisable`: both click lists are emptied and the counts zeroed. */
    method OnDisable()
      modifies this
      ensures leftClicks == [] && rightClicks == []
      ensures leftCPS == 0 && rightCPS == 0 && combinedCPS == 0
      ensures settings == old(settings)
    {
      leftClicks, rightClicks := [], [];
      leftCPS, rightCPS, combinedCPS := 0, 0, 0;
    }

    /** `setEnabled` with this feature's hooks. */
    method SetEnabled(b: bool)
      modifies this, feature
      ensures feature.enabled == b
      ensures old(feature.enabled) != b ==> leftClicks == [] && rightClicks == []
      ensures old(feature.enabled) && !b ==> leftCPS == 0 && rightCPS == 0 && combinedCPS == 0
      ensures old(feature.enabled) == b ==> leftClicks == old(leftClicks) && rightClicks == old(rightClicks)
      ensures !(old(feature.enabled) && !b) ==> leftCPS == old(leftCPS) && rightCPS == old(rightCPS) && combinedCPS == old(combinedCPS)
      ensures settings == old(settings)
    {
      var fired := feature.SetEnabled(b);
      if fired == Some(Hook.OnEnable) {
        OnEnable();
      } else if fired == Some(Hook.OnDisable) {
        OnDisable();
      }
    }

    /** `tick` at time `now`: while enabled, clicks older than a second
        are dropped and the counts are the remaining clicks. */
    method Tick(now: int)
      modifies this
      ensures !feature.enabled ==> leftClicks == old(leftClicks) && rightClicks == old(rightClicks)
                                   && leftCPS == old(leftCPS) && rightCPS == old(rightCPS) && combinedCPS == old(combinedCPS)
      ensures feature.enabled ==> leftClicks == Recent(old(leftClicks), now) && rightClicks == Recent(old(rightClicks), now)
                                  && leftCPS == |leftClicks| && rightCPS == |rightClicks|
                                  && combinedCPS == Wrap32(leftCPS + rightCPS)
      ensures settings == old(settings)
    {
      if !feature.enabled {
        return;
      }
      var l := Recent(leftClicks, now);
      var r := Recent(rightClicks, now);
      leftClicks, rightClicks := l, r;
      leftCPS, rightCPS, combinedCPS := |l|, |r|, Wrap32(|l| + |r|);
    }

    /** `registerLeftClick` at time `now`: recorded only while enabled. */
    method RegisterLeftClick(now: int)
      modifies this
      ensures leftClicks == old(leftClicks) + (if feature.enabled then [now] else [])
      ensures rightClicks == old(rightClicks)
      ensures leftCPS == old(leftCPS) && rightCPS == old(rightCPS) && combinedCPS == old(combinedCPS)
      ensures settings == old(settings)
    {
      if feature.enabled {
        leftClicks := leftClicks + [now];
      }
    }

    /** `registerRightClick` at time `now`: recorded only while enabled. */
    method RegisterRightClick(now: int)
      modifies this
      ensures rightClicks == old(rightClicks) + (if feature.enabled then [now] else [])
      ensures leftClicks == old(leftClicks)
      ensures leftCPS == old(leftCPS) && rightCPS == old(rightCPS) && combinedCPS == old(combinedCPS)
      ensures settings == old(settings)
    {
      if feature.enabled {
        rightClicks := rightClicks + [now];
      }
    }

    /** `setDisplayFormat`: `null` restores the default template. */
    method SetDisplayFormat(format: Option<string>)
      modifies this
      ensures settings == old(settings).(displayFormat := format.UnwrapOr(DEFAULT_FORMAT))
      ensures leftClicks == old(leftClicks) && rightClicks == old(rightClicks)
      ensures leftCPS == old(leftCPS) && rightCPS == old(rightCPS) && combinedCPS == old(combinedCPS)
    {
      settings := settings.(displayFormat := if format.Some? then format.value else DEFAULT_FORMAT);
    }

    /** `setSeparateFormat`: `null` restores the default template. */
    method SetSeparateFormat(format: Option<string>)
      modifies this
      ensures settings == old(settings).(separateFormat := format.UnwrapOr(DEFAULT_SEPARATE_FORMAT))
      ensures leftClicks == old(leftClicks) && rightClicks == old(rightClicks)
      ensures leftCPS == old(leftCPS) && rightCPS == old(rightCPS) && combinedCPS == old(combinedCPS)
    {
      settings := settings.(separateFormat := if format.Some? then format.value else DEFAULT_SEPARATE_FORMAT);
    }

    /** `setShowSeparate`: which template is shown. */
    method SetShowSeparate(separate: bool)
      modifies this
      ensures settings == old(settings).(showSeparate := separate)
      ensures Format(settings) == if separate then settings.separateFormat else settings.displayFormat
      ensures leftClicks == old(leftClicks) && rightClicks == old(rightClicks)
      ensures leftCPS == old(leftCPS) && rightCPS == old(rightCPS) && combinedCPS == old(combinedCPS)
    {
      settings := settings.(showSeparate := separate);
    }
  }
}
