/** The keystrokes overlay (mods/features/KeystrokesFeature.java): which
    movement keys are held, laid out as a keyboard grid. What the game
    client reports about its key bindings is an input. */
module Keystrokes {
  import opened Wrappers
  import opened Strings
  import opened Ints
  import opened ModFeatures

  datatype DisplayMode = Wasd | WasdSpace | WasdShift | WasdSpaceShift

  /** The name the mode shows in the settings. */
  function ModeName(m: DisplayMode): string
  {
    match m
    case Wasd => "WASD"
    case WasdSpace => "WASD + Space"
    case WasdShift => "WASD + Shift"
    case WasdSpaceShift => "WASD + Space + Shift"
  }

  function HasSpace(m: DisplayMode): bool
  {
    m.WasdSpace? || m.WasdSpaceShift?
  }

  function HasShift(m: DisplayMode): bool
  {
    m.WasdShift? || m.WasdSpaceShift?
  }

  /** The keys a mode shows, in order: always W, A, S, D, then Space
      and Shift when the mode has them. */
  function ModeKeys(m: DisplayMode): (keys: seq<string>)
    ensures |keys| >= 4 && keys[..4] == ["W", "A", "S", "D"]
    ensures keys == ["W", "A", "S", "D"] + (if HasSpace(m) then ["Space"] else []) + (if HasShift(m) then ["Shift"] else [])
  {
    match m
    case Wasd => ["W", "A", "S", "D"]
    case WasdSpace => ["W", "A", "S", "D", "Space"]
    case WasdShift => ["W", "A", "S", "D", "Shift"]
    case WasdSpaceShift => ["W", "A", "S", "D", "Space", "Shift"]
  }

  /** Every key appears once in a mode, and the modes are told apart by
      their names. */
  lemma ModesWellFormed(m: DisplayMode, n: DisplayMode)
    ensures forall i, j :: 0 <= i < j < |ModeKeys(m)| ==> ModeKeys(m)[i] != ModeKeys(m)[j]
    ensures ModeName(m) == ModeName(n) ==> m == n
  {
  }

  /** The game controls the overlay reads. */
  datatype Control = Forward | Left | Back | Right | Jump | Sneak

  /** What the client's options say about a control: whether it is held,
      and the localised name of the key bound to it. */
  datatype Options = Options(pressed: Control -> bool, boundText: Control -> string)

  /** `updateKeyBindings`: each key of the overlay and its control. */
  const BINDINGS: map<string, Control> :=
    map["W" := Forward, "A" := Left, "S" := Back, "D" := Right, "Space" := Jump, "Shift" := Sneak]

  // ---------------------------------------------------------------------
  // Layout

  /** Where `getKeysToRender` places a key: the grid column and row,
      scaled by size plus spacing. */
  function Cell(key: string): (int, int)
  {
    if key == "W" then (1, 0)
    else if key == "A" then (0, 1)
    else if key == "S" then (1, 1)
    else if key == "D" then (2, 1)
    else if key == "Space" then (0, 2)
    else if key == "Shift" then (2, 2)
    else (0, 0)
  }

  /** The corner of a key in Java `int` arithmetic. `x + size + spacing`
      and `x + (size + spacing) * 2` wrap to the same value as the
      mathematical sum, so one wrap at the end is enough. */
  function KeyPosition(key: string, x: int, y: int, size: int, spacing: int): (int, int)
  {
    var s := size + spacing;
    if key == "W" then (Wrap32(x + s), y)
    else if key == "A" then (x, Wrap32(y + s))
    else if key == "S" then (Wrap32(x + s), Wrap32(y + s))
    else if key == "D" then (Wrap32(x + s * 2), Wrap32(y + s))
    else if key == "Space" then (x, Wrap32(y + s * 2))
    else if key == "Shift" then (Wrap32(x + s * 2), Wrap32(y + s * 2))
    else (x, y)
  }

  predicate IsOverlayKey(key: string)
  {
    key in {"W", "A", "S", "D", "Space", "Shift"}
  }

  /** Away from the edge of the `int` range, a key sits at its grid cell. */
  lemma PositionIsCell(key: string, x: int, y: int, size: int, spacing: int)
    requires 0 <= size + spacing
    requires IsJavaInt(x) && IsJavaInt(y) && IsJavaInt(x + 2 * (size + spacing)) && IsJavaInt(y + 2 * (size + spacing))
    ensures KeyPosition(key, x, y, size, spacing)
         == (x + Cell(key).0 * (size + spacing), y + Cell(key).1 * (size + spacing))
  {
  }

  /** Two different keys of the overlay never overlap: their corners lie at
      least size plus spacing apart in one direction, and a key is only
      `size` wide and high. */
  lemma KeysApart(a: string, b: string, x: int, y: int, size: int, spacing: int)
    requires IsOverlayKey(a) && IsOverlayKey(b) && a != b
    requires 0 <= size && 0 <= spacing
    requires IsJavaInt(x) && IsJavaInt(y) && IsJavaInt(x + 2 * (size + spacing)) && IsJavaInt(y + 2 * (size + spacing))
    ensures var p, q := KeyPosition(a, x, y, size, spacing), KeyPosition(b, x, y, size, spacing);
      p.0 + size <= q.0 || q.0 + size <= p.0 || p.1 + size <= q.1 || q.1 + size <= p.1
  {
    PositionIsCell(a, x, y, size, spacing);
    PositionIsCell(b, x, y, size, spacing);
    var s := size + spacing;
    var ca, cb := Cell(a), Cell(b);
    assert ca != cb;
    if ca.0 < cb.0 {
      assert ca.0 * s + s <= cb.0 * s;
    } else if cb.0 < ca.0 {
      assert cb.0 * s + s <= ca.0 * s;
    } else if ca.1 < cb.1 {
      assert ca.1 * s + s <= cb.1 * s;
    } else {
      assert cb.1 * s + s <= ca.1 * s;
    }
  }

  // ---------------------------------------------------------------------
  // Labels

  /** `getKeyDisplayText`: nothing when labels are hidden; the key's own
      name when it has no binding; otherwise the bound key's text with
      Space shown as "___", either Shift as "SHIFT", and anything else cut
      to four characters. */
  function KeyLabel(showLabels: bool, bound: Option<string>, key: string): (r: string)
    ensures !showLabels ==> r == ""
    ensures showLabels && bound.None? ==> r == key
    ensures showLabels && bound.Some? ==> |r| <= 5
    ensures showLabels && bound.Some? && ToUpper(bound.value) !in {"SPACE", "LEFT SHIFT", "RIGHT SHIFT"} ==> r == Take(bound.value, 4)
  {
    if !showLabels then ""
    else if bound.None? then key
    else
      var upper := ToUpper(bound.value);
      if upper == "SPACE" then "___"
      else if upper == "LEFT SHIFT" || upper == "RIGHT SHIFT" then "SHIFT"
      else Take(bound.value, 4)
  }

  /** The names are compared without regard to case. */
  lemma LabelIgnoresCase(key: string)
    ensures KeyLabel(true, Some("space"), key) == "___" && KeyLabel(true, Some("Space"), key) == "___"
    ensures KeyLabel(true, Some("Left Shift"), key) == "SHIFT" && KeyLabel(true, Some("right shift"), key) == "SHIFT"
  {
    assert ToUpper("space") == "SPACE";
    assert ToUpper("Space") == "SPACE";
    assert ToUpper("Left Shift") == "LEFT SHIFT";
    assert ToUpper("right shift") == "RIGHT SHIFT";
  }

  // ---------------------------------------------------------------------
  // Key states

  /** `initializeKeyStates`: each key of the list is set to released; the
      other entries stay. */
  function Released(states: map<string, bool>, keys: seq<string>): map<string, bool>
    decreases |keys|
  {
    if keys == [] then states else Released(states, keys[..|keys| - 1])[keys[|keys| - 1] := false]
  }

  lemma {:induction false} ReleasedMeaning(states: map<string, bool>, keys: seq<string>)
    ensures forall k :: k in Released(states, keys) <==> k in states || k in keys
    ensures forall k :: k in keys ==> Released(states, keys)[k] == false
    ensures forall k :: k in states && k !in keys ==> Released(states, keys)[k] == states[k]
    decreases |keys|
  {
    if keys != [] {
      var init := keys[..|keys| - 1];
      assert keys == init + [keys[|keys| - 1]];
      ReleasedMeaning(states, init);
    }
  }

  /** The entries `tick` writes for the keys it meets after W, A, S, D:
      Space and Shift, when the mode has them. */
  function Specials(states: map<string, bool>, keys: seq<string>, o: Options): map<string, bool>
    decreases |keys|
  {
    if keys == [] then states
    else
      var s := Specials(states, keys[..|keys| - 1], o);
      var k := keys[|keys| - 1];
      if k == "Space" then s["Space" := o.pressed(Jump)]
      else if k == "Shift" then s["Shift" := o.pressed(Sneak)]
      else s
  }

  /** The first four entries `tick` writes: W, A, S, D. */
  function Movement(states: map<string, bool>, o: Options): map<string, bool>
  {
    states["W" := o.pressed(Forward)]["A" := o.pressed(Left)]["S" := o.pressed(Back)]["D" := o.pressed(Right)]
  }

  /** `tick` with the client's options: the held state of W, A, S, D, then
      of the mode's special keys. */
  function Ticked(states: map<string, bool>, m: DisplayMode, o: Options): map<string, bool>
  {
    Specials(Movement(states, o), ModeKeys(m), o)
  }

  lemma {:induction false} SpecialsMeaning(states: map<string, bool>, keys: seq<string>, o: Options)
    ensures forall k :: k in Specials(states, keys, o) <==> k in states || (k in keys && k in {"Space", "Shift"})
    ensures "Space" in keys ==> Specials(states, keys, o)["Space"] == o.pressed(Jump)
    ensures "Shift" in keys ==> Specials(states, keys, o)["Shift"] == o.pressed(Sneak)
    ensures forall k :: k in states && k !in keys ==> Specials(states, keys, o)[k] == states[k]
    decreases |keys|
  {
    if keys != [] {
      var init := keys[..|keys| - 1];
      assert keys == init + [keys[|keys| - 1]];
      SpecialsMeaning(states, init, o);
    }
  }

  /** The special keys pass leaves every other entry alone. */
  lemma {:induction false} SpecialsKeep(states: map<string, bool>, keys: seq<string>, o: Options, k: string)
    requires k in states && k != "Space" && k != "Shift"
    ensures k in Specials(states, keys, o) && Specials(states, keys, o)[k] == states[k]
    decreases |keys|
  {
    if keys != [] {
      SpecialsKeep(states, keys[..|keys| - 1], o, k);
    }
  }

  /** After a tick W, A, S, D hold what the controls report. */
  lemma TickedMovement(states: map<string, bool>, m: DisplayMode, o: Options)
    ensures var t := Ticked(states, m, o);
      && "W" in t && "A" in t && "S" in t && "D" in t
      && t["W"] == o.pressed(Forward) && t["A"] == o.pressed(Left) && t["S"] == o.pressed(Back) && t["D"] == o.pressed(Right)
  {
    var w := Movement(states, o);
    assert w["W"] == o.pressed(Forward) && w["A"] == o.pressed(Left) && w["S"] == o.pressed(Back) && w["D"] == o.pressed(Right);
    SpecialsKeep(w, ModeKeys(m), o, "W");
    SpecialsKeep(w, ModeKeys(m), o, "A");
    SpecialsKeep(w, ModeKeys(m), o, "S");
    SpecialsKeep(w, ModeKeys(m), o, "D");
  }

  /** Space and Shift hold what the controls report when the mode shows
      them; any other entry is as it was, and no other entry appears. */
  lemma TickedSpecials(states: map<string, bool>, m: DisplayMode, o: Options)
    ensures var t := Ticked(states, m, o);
      && (HasSpace(m) ==> "Space" in t && t["Space"] == o.pressed(Jump))
      && (HasShift(m) ==> "Shift" in t && t["Shift"] == o.pressed(Sneak))
      && (forall k :: k in t <==> k in states || k in {"W", "A", "S", "D"} || (k in ModeKeys(m) && k in {"Space", "Shift"}))
      && (forall k :: k in states && k !in ModeKeys(m) ==> t[k] == states[k])
  {
    var keys := ModeKeys(m);
    SpecialsMeaning(Movement(states, o), keys, o);
    assert HasSpace(m) ==> keys[4] == "Space";
    assert HasShift(m) ==> keys[|keys| - 1] == "Shift";
  }

  // ---------------------------------------------------------------------
  // The feature

  /** What `getKeysToRender` reports for one key. */
  datatype KeyRenderInfo = KeyRenderInfo(key: string, x: int, y: int, width: int, height: int,
                                         backgroundColor: int, textColor: int, displayText: string, pressed: bool)

  /** Position, size, colours and labels of the overlay. */
  datatype Style = Style(x: int, y: int, normalColor: int, pressedColor: int, textColor: int, pressedTextColor: int,
                         keySize: int, keySpacing: int, showKeyLabels: bool)

  /** The defaults: at (10, 90), 20-pixel keys 2 apart, labels shown,
      half-transparent black keys that turn half-transparent white, white
      text that turns black. The colours are Java `int`s, so the ones
      with the top bit set are negative. */
  const DEFAULT_STYLE := Style(10, 90, Wrap32(0x8000_0000), Wrap32(0x80FF_FFFF), 0xFF_FFFF, 0, 20, 2, true)

  /** `Math.max(lo, Math.min(hi, v))`. */
  function Clamp(lo: int, hi: int, v: int): (r: int)
    requires lo <= hi
    ensures lo <= r <= hi
    ensures lo <= v <= hi ==> r == v
    ensures v < lo ==> r == lo
    ensures hi < v ==> r == hi
  {
    if v < lo then lo else if v > hi then hi else v
  }

  /** What one key looks like: its corner, a square of the key size, the
      colours for its held state, and its label. */
  function RenderInfoFor(key: string, style: Style, states: map<string, bool>,
                         bindings: map<string, Control>, boundText: Control -> string): (r: KeyRenderInfo)
    ensures r.key == key && r.width == style.keySize && r.height == style.keySize
    ensures r.pressed == (key in states && states[key])
    ensures r.backgroundColor == (if r.pressed then style.pressedColor else style.normalColor)
    ensures r.textColor == (if r.pressed then style.pressedTextColor else style.textColor)
    ensures (r.x, r.y) == KeyPosition(key, style.x, style.y, style.keySize, style.keySpacing)
  {
    var pressed := if key in states then states[key] else false;
    var pos := KeyPosition(key, style.x, style.y, style.keySize, style.keySpacing);
    var bound := if key in bindings then Some(boundText(bindings[key])) else None;
    KeyRenderInfo(key, pos.0, pos.1, style.keySize, style.keySize,
                  if pressed then style.pressedColor else style.normalColor,
                  if pressed then style.pressedTextColor else style.textColor,
                  KeyLabel(style.showKeyLabels, bound, key), pressed)
  }

  class KeystrokesFeature {
    const feature: ModFeature
    var displayMode: DisplayMode
    var style: Style
    var keyStates: map<string, bool>
    var keyBindings: map<string, Control>

    /** The clamps of the size setters hold throughout. */
    predicate Valid()
      reads this
    {
      10 <= style.keySize <= 50 && 0 <= style.keySpacing <= 10
    }

    constructor()
      ensures Valid()
      ensures fresh(feature) && feature.name == "Keystrokes" && !feature.enabled
      ensures displayMode == WasdSpace && style == DEFAULT_STYLE
      ensures keyStates == map[] && keyBindings == map[]
    {
      feature := new ModFeature("Keystrokes");
      displayMode := WasdSpace;
      style := DEFAULT_STYLE;
      keyStates, keyBindings := map[], map[];
    }

    /** `updateKeyBindings`: nothing before the client has options. */
    method UpdateKeyBindings(options: Option<Options>)
      modifies this
      ensures keyBindings == if options.None? then old(keyBindings) else old(keyBindings) + BINDINGS
      ensures keyStates == old(keyStates) && displayMode == old(displayMode) && style == old(style)
    {
      if options.None? {
        return;
      }
      keyBindings := keyBindings + BINDINGS;
    }

    /** `initializeKeyStates`: the mode's keys are set to released. */
    method InitializeKeyStates()
      modifies this
      ensures keyStates == Released(old(keyStates), ModeKeys(displayMode))
      ensures keyBindings == old(keyBindings) && displayMode == old(displayMode) && style == old(style)
    {
      var keys := ModeKeys(displayMode);
      for i := 0 to |keys|
        invariant keyStates == Released(old(keyStates), keys[..i])
        invariant keyBindings == old(keyBindings) && displayMode == old(displayMode) && style == old(style)
      {
        assert keys[..i + 1][..i] == keys[..i];
        keyStates := keyStates[keys[i] := false];
      }
      assert keys[..|keys|] == keys;
    }

    /** `setEnabled` with this feature's hooks: enabling takes the key
        bindings and releases the mode's keys; disabling forgets both maps. */
    method SetEnabled(b: bool, options: Option<Options>)
      modifies this, feature
      ensures feature.enabled == b
      ensures !old(feature.enabled) && b ==>
        && keyBindings == (if options.None? then old(keyBindings) else old(keyBindings) + BINDINGS)
        && keyStates == Released(old(keyStates), ModeKeys(displayMode))
      ensures old(feature.enabled) && !b ==> keyStates == map[] && keyBindings == map[]
      ensures old(feature.enabled) == b ==> keyStates == old(keyStates) && keyBindings == old(keyBindings)
      ensures displayMode == old(displayMode) && style == old(style)
    {
      var fired := feature.SetEnabled(b);
      if fired == Some(Hook.OnEnable) {
        UpdateKeyBindings(options);
        InitializeKeyStates();
      } else if fired == Some(Hook.OnDisable) {
        keyStates, keyBindings := map[], map[];
      }
    }

    /** `tick`: while enabled and once the client has options, the held
        state of the keys is recorded. */
    method Tick(options: Option<Options>)
      modifies this
      ensures keyStates == if feature.enabled && options.Some? then Ticked(old(keyStates), displayMode, options.value) else old(keyStates)
      ensures keyBindings == old(keyBindings) && displayMode == old(displayMode) && style == old(style)
    {
      if !feature.enabled || options.None? {
        return;
      }
      var o := options.value;
      var base := Movement(keyStates, o);
      var states := base;
      var keys := ModeKeys(displayMode);
      for i := 0 to |keys|
        invariant states == Specials(base, keys[..i], o)
      {
        assert keys[..i + 1][..i] == keys[..i];
        if keys[i] == "Space" {
          states := states["Space" := o.pressed(Jump)];
        } else if keys[i] == "Shift" {
          states := states["Shift" := o.pressed(Sneak)];
        }
      }
      assert keys[..|keys|] == keys;
      keyStates := states;
    }

    /** What `getKeysToRender` reports, with `boundText` the current text
        of each binding. */
    function KeysToRender(boundText: Control -> string): (r: seq<KeyRenderInfo>)
      reads this, feature
      ensures !feature.enabled ==> r == []
      ensures feature.enabled ==> |r| == |ModeKeys(displayMode)|
      ensures feature.enabled ==> forall i :: 0 <= i < |r| ==> r[i] == RenderInfoFor(ModeKeys(displayMode)[i], style, keyStates, keyBindings, boundText)
    {
      if !feature.enabled then []
      else
        var keys, s, states, bindings := ModeKeys(displayMode), style, keyStates, keyBindings;
        seq(|keys|, i requires 0 <= i < |keys| => RenderInfoFor(keys[i], s, states, bindings, boundText))
    }

    /** `getKeysToRender`: one entry per key of the mode, in its order. */
    method GetKeysToRender(boundText: Control -> string) returns (r: seq<KeyRenderInfo>)
      ensures r == KeysToRender(boundText)
    {
      if !feature.enabled {
        return [];
      }
      var keys := ModeKeys(displayMode);
      r := [];
      for i := 0 to |keys|
        invariant |r| == i
        invariant forall j :: 0 <= j < i ==> r[j] == RenderInfoFor(keys[j], style, keyStates, keyBindings, boundText)
      {
        var key := keys[i];
        var pressed := if key in keyStates then keyStates[key] else false;
        var pos := KeyPosition(key, style.x, style.y, style.keySize, style.keySpacing);
        var bound := if key in keyBindings then Some(boundText(keyBindings[key])) else None;
        var info := KeyRenderInfo(key, pos.0, pos.1, style.keySize, style.keySize,
                                  if pressed then style.pressedColor else style.normalColor,
                                  if pressed then style.pressedTextColor else style.textColor,
                                  KeyLabel(style.showKeyLabels, bound, key), pressed);
        r := r + [info];
      }
    }

    /** `setDisplayMode`: the new mode's keys are released, but only while
        the feature is enabled. */
    method SetDisplayMode(m: DisplayMode)
      modifies this
      ensures displayMode == m
      ensures keyStates == if feature.enabled then Released(old(keyStates), ModeKeys(m)) else old(keyStates)
      ensures keyBindings == old(keyBindings) && style == old(style)
    {
      displayMode := m;
      if feature.enabled {
        InitializeKeyStates();
      }
    }

    /** `setKeySize`: clamped to 10..50. */
    method SetKeySize(size: int)
      requires Valid()
      modifies this
      ensures Valid()
      ensures style == old(style).(keySize := Clamp(10, 50, size))
      ensures keyStates == old(keyStates) && keyBindings == old(keyBindings) && displayMode == old(displayMode)
    {
      style := style.(keySize := if size < 10 then 10 else if size > 50 then 50 else size);
    }

    /** `setKeySpacing`: clamped to 0..10. */
    method SetKeySpacing(spacing: int)
      requires Valid()
      modifies this
      ensures Valid()
      ensures style == old(style).(keySpacing := Clamp(0, 10, spacing))
      ensures keyStates == old(keyStates) && keyBindings == old(keyBindings) && displayMode == old(displayMode)
    {
      style := style.(keySpacing := if spacing < 0 then 0 else if spacing > 10 then 10 else spacing);
    }

    /** `setShowKeyLabels`. */
    method SetShowKeyLabels(show: bool)
      modifies this
      ensures style == old(style).(showKeyLabels := show)
      ensures keyStates == old(keyStates) && keyBindings == old(keyBindings) && displayMode == old(displayMode)
    {
      style := style.(showKeyLabels := show);
    }
  }
}
