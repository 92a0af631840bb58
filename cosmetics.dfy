/** The cosmetic switches (client/rendering/CosmeticsManager.java): a
    cape, wings and particles, each on or off, all off at first. */
module Cosmetics {
  import opened Wrappers

  datatype Cosmetic = Cape | Wings | Particles

  /** The three switches as one value. */
  datatype Flags = Flags(cape: bool, wings: bool, particles: bool)
  {
    function Get(c: Cosmetic): bool
    {
      match c
      case Cape => cape
      case Wings => wings
      case Particles => particles
    }
  }

  /** The switches with `c` set to `b` and the other two as they were. */
  function With(f: Flags, c: Cosmetic, b: bool): (r: Flags)
    ensures r.Get(c) == b
    ensures forall d :: d != c ==> r.Get(d) == f.Get(d)
  {
    match c
    case Cape => f.(cape := b)
    case Wings => f.(wings := b)
    case Particles => f.(particles := b)
  }

  /** The switches with `c` turned over. */
  function Flipped(f: Flags, c: Cosmetic): (r: Flags)
    ensures r.Get(c) == !f.Get(c)
    ensures forall d :: d != c ==> r.Get(d) == f.Get(d)
  {
    With(f, c, !f.Get(c))
  }

  /** Two switch values are equal when every switch agrees. */
  lemma FlagsExtensional(f: Flags, g: Flags)
    requires forall c :: f.Get(c) == g.Get(c)
    ensures f == g
  {
    assert f.Get(Cape) == g.Get(Cape);
    assert f.Get(Wings) == g.Get(Wings);
    assert f.Get(Particles) == g.Get(Particles);
  }

  /** Toggling twice gives the switches back. */
  lemma FlipTwice(f: Flags, c: Cosmetic)
    ensures Flipped(Flipped(f, c), c) == f
  {
    FlagsExtensional(Flipped(Flipped(f, c), c), f);
  }

  /** Setting a switch to what it already is changes nothing. */
  lemma WithSame(f: Flags, c: Cosmetic)
    ensures With(f, c, f.Get(c)) == f
  {
    FlagsExtensional(With(f, c, f.Get(c)), f);
  }

  /** Switches on different cosmetics do not interfere: the order of two
      settings does not matter. */
  lemma WithCommutes(f: Flags, c: Cosmetic, d: Cosmetic, b: bool, e: bool)
    requires c != d
    ensures With(With(f, c, b), d, e) == With(With(f, d, e), c, b)
  {
    FlagsExtensional(With(With(f, c, b), d, e), With(With(f, d, e), c, b));
  }

  class CosmeticsManager {
    var capeEnabled: bool
    var wingsEnabled: bool
    var particlesEnabled: bool

    /** All three switches start off. */
    constructor()
      ensures Current() == Flags(false, false, false)
    {
      capeEnabled, wingsEnabled, particlesEnabled := false, false, false;
    }

    /** `isCapeEnabled`, `areWingsEnabled` and `areParticlesEnabled`. */
    function Current(): Flags
      reads this
    {
      Flags(capeEnabled, wingsEnabled, particlesEnabled)
    }

    /** `toggleCape`, `toggleWings` and `toggleParticles`. */
    method Toggle(c: Cosmetic)
      modifies this
      ensures Current() == Flipped(old(Current()), c)
    {
      match c
      case Cape => capeEnabled := !capeEnabled;
      case Wings => wingsEnabled := !wingsEnabled;
      case Particles => particlesEnabled := !particlesEnabled;
    }

    /** `setCapeEnabled`, `setWingsEnabled` and `setParticlesEnabled`. */
    method SetEnabled(c: Cosmetic, enabled: bool)
      modifies this
      ensures Current() == With(old(Current()), c, enabled)
    {
      match c
      case Cape => capeEnabled := enabled;
      case Wings => wingsEnabled := enabled;
      case Particles => particlesEnabled := enabled;
    }
  }

  /** The lazily created singleton of `getInstance`. */
  class CosmeticsManagerHolder {
    var instance: Option<CosmeticsManager>

    constructor()
      ensures instance.None?
    {
      instance := None;
    }

    /** `getInstance`: the first call creates the manager with every
        switch off, later calls return the same one. */
    method GetInstance() returns (m: CosmeticsManager)
      modifies this
      ensures old(instance).Some? ==> m == old(instance).value && instance == old(instance)
      ensures old(instance).None? ==> fresh(m) && m.Current() == Flags(false, false, false) && instance == Some(m)
    {
      if instance.None? {
        var created := new CosmeticsManager();
        instance := Some(created);
      }
      m := instance.value;
    }
  }
}
