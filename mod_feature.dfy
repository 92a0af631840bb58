/** The enable/disable state machine every client-mod feature shares
    (mods/ModFeature.java). A feature class of its own owns one
    `ModFeature` and runs the hook `SetEnabled` hands back, in the place
    where the Java subclass overrides `onEnable`/`onDisable`. */
module ModFeatures {
  import opened Wrappers

  /** The hook `setEnabled` calls after changing the flag. */
  datatype Hook = OnEnable | OnDisable

  /** The hook that setting the flag from `enabled` to `b` runs: none when
      the flag already has that value, otherwise the one for the new value. */
  function HookFor(enabled: bool, b: bool): (h: Option<Hook>)
    ensures h.None? <==> enabled == b
    ensures h == Some(OnEnable) <==> !enabled && b
    ensures h == Some(OnDisable) <==> enabled && !b
  {
    if enabled == b then None else if b then Some(OnEnable) else Some(OnDisable)
  }

  /** Toggling twice runs the two hooks, one after the other, and toggling
      always runs exactly one. */
  lemma ToggleHooks(enabled: bool)
    ensures HookFor(enabled, !enabled).Some? && HookFor(!enabled, enabled).Some?
    ensures HookFor(enabled, !enabled) != HookFor(!enabled, enabled)
  {
  }

  class ModFeature {
    const name: string
    var enabled: bool

    /** A feature starts disabled under the name it is given. */
    constructor(name: string)
      ensures this.name == name && !enabled
    {
      this.name := name;
      enabled := false;
    }

    /** `setEnabled`: the flag takes the value, and the hook to run is
        reported (none when the flag did not change). */
    method SetEnabled(b: bool) returns (fired: Option<Hook>)
      modifies this
      ensures enabled == b
      ensures fired == HookFor(old(enabled), b)
    {
      fired := None;
      if enabled != b {
        enabled := b;
        fired := if b then Some(OnEnable) else Some(OnDisable);
      }
    }

    /** `toggle`: `setEnabled(!enabled)`. */
    method Toggle() returns (fired: Option<Hook>)
      modifies this
      ensures enabled == !old(enabled)
      ensures fired.Some? && fired == HookFor(old(enabled), enabled)
    {
      fired := SetEnabled(!enabled);
    }
  }
}
