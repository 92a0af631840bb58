/** The feature registry (mods/ModManager.java): a fixed list of the four
    features, looked up by name and ticked in order. Motion blur and zoom
    keep only the state they share with every feature. */
module ModManagers {
  import opened Wrappers
  import opened ModFeatures
  import CpsCounter
  import Keystrokes

  const FEATURE_NAMES: seq<string> := ["Motion Blur", "Zoom", "CPS Counter", "Keystrokes"]

  /** Where `getFeature`'s stream search stops: the first feature called
      `name`. */
  function FirstNamed(fs: seq<ModFeature>, name: string): (r: Option<nat>)
    ensures r.Some? ==> r.value < |fs| && fs[r.value].name == name
    ensures r.Some? ==> forall j :: 0 <= j < r.value ==> fs[j].name != name
    ensures r.None? <==> forall j :: 0 <= j < |fs| ==> fs[j].name != name
    decreases |fs|
  {
    if fs == [] then None
    else if fs[0].name == name then Some(0)
    else
      assert forall j :: 0 < j < |fs| ==> fs[j] == fs[1..][j - 1];
      match FirstNamed(fs[1..], name)
      case None => None
      case Some(k) => Some(k + 1)
  }

  /** The first match is at `k` when the name is there and nowhere before. */
  lemma FirstNamedAt(fs: seq<ModFeature>, name: string, k: nat)
    requires k < |fs| && fs[k].name == name && forall j :: 0 <= j < k ==> fs[j].name != name
    ensures FirstNamed(fs, name) == Some(k)
  {
  }

  class ModManager {
    const motionBlur: ModFeature
    const zoom: ModFeature
    const cps: CpsCounter.CPSCounterFeature
    const keystrokes: Keystrokes.KeystrokesFeature
    const features: seq<ModFeature>

    /** The registry lists the four features, each its own object, in the
        order `initializeFeatures` adds them. */
    predicate Valid()
    {
      && features == [motionBlur, zoom, cps.feature, keystrokes.feature]
      && motionBlur != zoom && motionBlur != cps.feature && motionBlur != keystrokes.feature
      && zoom != cps.feature && zoom != keystrokes.feature && cps.feature != keystrokes.feature
      && motionBlur.name == FEATURE_NAMES[0] && zoom.name == FEATURE_NAMES[1]
      && cps.feature.name == FEATURE_NAMES[2] && keystrokes.feature.name == FEATURE_NAMES[3]
    }

    constructor()
      ensures Valid() && fresh(motionBlur) && fresh(zoom) && fresh(cps) && fresh(cps.feature)
      ensures fresh(keystrokes) && fresh(keystrokes.feature) && keystrokes.Valid()
      ensures forall i :: 0 <= i < |features| ==> !features[i].enabled
      ensures cps.leftClicks == [] && cps.rightClicks == [] && cps.settings == CpsCounter.DEFAULT_SETTINGS
      ensures keystrokes.displayMode == Keystrokes.WasdSpace && keystrokes.style == Keystrokes.DEFAULT_STYLE
    {
      var mb := new ModFeature("Motion Blur");
      var z := new ModFeature("Zoom");
      var c := new CpsCounter.CPSCounterFeature();
      var k := new Keystrokes.KeystrokesFeature();
      motionBlur, zoom, cps, keystrokes := mb, z, c, k;
      features := [mb, z, c.feature, k.feature];
    }

    /** `getAllFeatures`: a copy of the list, which Dafny's value sequences
        give for free. */
    method GetAllFeatures() returns (r: seq<ModFeature>)
      ensures r == features
    {
      r := features;
    }

    /** `getFeature`: the first feature with that name, or none. */
    function GetFeature(name: string): (r: Option<ModFeature>)
      ensures r.Some? ==> r.value in features && r.value.name == name
      ensures r.None? <==> forall j :: 0 <= j < |features| ==> features[j].name != name
    {
      match FirstNamed(features, name)
      case None => None
      case Some(i) => Some(features[i])
    }

    /** `tick` at time `now` with the client's options: each enabled
        feature ticks, in registry order. Motion blur and zoom work on
        floating-point values, so their ticks are not given here. */
    method Tick(now: int, options: Option<Keystrokes.Options>)
      requires Valid()
      modifies cps, keystrokes
      ensures cps.feature.enabled ==> cps.leftClicks == CpsCounter.Recent(old(cps.leftClicks), now)
                                      && cps.rightClicks == CpsCounter.Recent(old(cps.rightClicks), now)
                                      && cps.leftCPS == |cps.leftClicks| && cps.rightCPS == |cps.rightClicks|
      ensures !cps.feature.enabled ==> cps.leftClicks == old(cps.leftClicks) && cps.rightClicks == old(cps.rightClicks)
                                       && cps.leftCPS == old(cps.leftCPS) && cps.rightCPS == old(cps.rightCPS)
      ensures cps.settings == old(cps.settings)
      ensures keystrokes.keyStates == if keystrokes.feature.enabled && options.Some?
                                      then Keystrokes.Ticked(old(keystrokes.keyStates), keystrokes.displayMode, options.value)
                                      else old(keystrokes.keyStates)
      ensures keystrokes.displayMode == old(keystrokes.displayMode) && keystrokes.style == old(keystrokes.style)
    {
      for i := 0 to |features|
        invariant i <= 2 ==> cps.leftClicks == old(cps.leftClicks) && cps.rightClicks == old(cps.rightClicks)
                             && cps.leftCPS == old(cps.leftCPS) && cps.rightCPS == old(cps.rightCPS)
        invariant i > 2 && cps.feature.enabled ==>
          && cps.leftClicks == CpsCounter.Recent(old(cps.leftClicks), now)
          && cps.rightClicks == CpsCounter.Recent(old(cps.rightClicks), now)
          && cps.leftCPS == |cps.leftClicks| && cps.rightCPS == |cps.rightClicks|
        invariant i > 2 && !cps.feature.enabled ==>
          && cps.leftClicks == old(cps.leftClicks) && cps.rightClicks == old(cps.rightClicks)
          && cps.leftCPS == old(cps.leftCPS) && cps.rightCPS == old(cps.rightCPS)
        invariant cps.settings == old(cps.settings)
        invariant i <= 3 ==> keystrokes.keyStates == old(keystrokes.keyStates)
        invariant i > 3 ==> keystrokes.keyStates == if keystrokes.feature.enabled && options.Some?
                                                    then Keystrokes.Ticked(old(keystrokes.keyStates), keystrokes.displayMode, options.value)
                                                    else old(keystrokes.keyStates)
        invariant keystrokes.displayMode == old(keystrokes.displayMode) && keystrokes.style == old(keystrokes.style)
      {
        var f := features[i];
        if f.enabled {
          if f == cps.feature {
            cps.Tick(now);
          } else if f == keystrokes.feature {
            keystrokes.Tick(options);
          }
        }
      }
    }
  }

  /** A name that is not registered finds nothing. */
  lemma UnknownFeature(m: ModManager, name: string)
    requires m.Valid() && name !in FEATURE_NAMES
    ensures m.GetFeature(name).None?
  {
    assert forall j :: 0 <= j < |m.features| ==> m.features[j].name == FEATURE_NAMES[j];
  }

  /** Every registered feature is found under its name. */
  lemma FeaturesByName(m: ModManager)
    requires m.Valid()
    ensures m.GetFeature("Motion Blur") == Some(m.motionBlur) && m.GetFeature("Zoom") == Some(m.zoom)
    ensures m.GetFeature("CPS Counter") == Some(m.cps.feature) && m.GetFeature("Keystrokes") == Some(m.keystrokes.feature)
  {
    var fs := m.features;
    assert fs[0].name == "Motion Blur" && fs[1].name == "Zoom" && fs[2].name == "CPS Counter" && fs[3].name == "Keystrokes";
    assert "Motion Blur" != "Zoom" && "Motion Blur" != "CPS Counter" && "Motion Blur" != "Keystrokes";
    assert "Zoom" != "CPS Counter" && "Zoom" != "Keystrokes" && "CPS Counter" != "Keystrokes";
    FirstNamedAt(fs, "Motion Blur", 0);
    FirstNamedAt(fs, "Zoom", 1);
    FirstNamedAt(fs, "CPS Counter", 2);
    FirstNamedAt(fs, "Keystrokes", 3);
  }

  /** The lazily created singleton of `getInstance`. */
  class ModManagerHolder {
    var instance: Option<ModManager>

    constructor()
      ensures instance.None?
    {
      instance := None;
    }

    /** `getInstance`: the first call creates the manager, later calls
        return that same one. */
    method GetInstance() returns (m: ModManager)
      modifies this
      ensures old(instance).Some? ==> m == old(instance).value && instance == old(instance)
      ensures old(instance).None? ==> fresh(m) && m.Valid() && instance == Some(m)
    {
      if instance.None? {
        var created := new ModManager();
        instance := Some(created);
      }
      m := instance.value;
    }
  }
}
