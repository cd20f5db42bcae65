/** Progressive enhancement: the device's capabilities are derived from browser probes, the feature
    flags from the capabilities, and the user's stored overrides are applied on top. The probes are
    inputs here (the user-agent test, the WebGL canvas test and the media query are already
    evaluated). */
module FeatureFlags {
  import opened Types

  /** Where the user's overrides are stored. */
  const PreferencesKey: string := "schluck-mal-feature-flags"

  /** The network information the browser exposes, when it exposes any. */
  datatype Connection = Connection(effectiveType: string, saveData: bool)

  /** The browser probes. Missing numbers are None; 0 is what a browser reports for nothing. */
  datatype Probes = Probes(
    isMobile: bool,
    hardwareConcurrency: Option<int>,
    deviceMemory: Option<real>,
    screenWidth: real,
    devicePixelRatio: real,
    connection: Option<Connection>,
    prefersReducedMotion: bool,
    supportsWebGL: bool)

  datatype Capabilities = Capabilities(
    isLowEndDevice: bool,
    supportsAdvancedAnimations: bool,
    supportsWebGL: bool,
    hasGoodNetwork: bool)

  datatype Flags = Flags(
    enableGlowEffects: bool,
    enableComplexAnimations: bool,
    enableParticleEffects: bool,
    enableSounds: bool,
    enableHaptics: bool,
    reducedMotion: bool,
    lazyLoadImages: bool)

  datatype FlagKey =
    | GlowEffects | ComplexAnimations | ParticleEffects | Sounds | Haptics | ReducedMotion | LazyLoadImages

  // ---------------------------------------------------------------------------------------------
  // Detection

  /** `navigator.hardwareConcurrency || 4`. */
  function Cores(p: Probes): (c: int)
    ensures p.hardwareConcurrency.None? ==> c == 4
    ensures p.hardwareConcurrency.Some? && p.hardwareConcurrency.value != 0 ==> c == p.hardwareConcurrency.value
  {
    if p.hardwareConcurrency.Some? && p.hardwareConcurrency.value != 0 then p.hardwareConcurrency.value else 4
  }

  /** `navigator.deviceMemory || 4`, in gigabytes. */
  function Memory(p: Probes): (m: real)
    ensures p.deviceMemory.None? ==> m == 4.0
    ensures p.deviceMemory.Some? && p.deviceMemory.value != 0.0 ==> m == p.deviceMemory.value
  {
    if p.deviceMemory.Some? && p.deviceMemory.value != 0.0 then p.deviceMemory.value else 4.0
  }

  /** A mobile device with a screen at least 1080 physical pixels wide and four cores. */
  predicate IsModernMobile(p: Probes) {
    p.isMobile && p.screenWidth * p.devicePixelRatio >= 1080.0 && Cores(p) >= 4
  }

  /** A connection reported as 2G, slower, or in data-saving mode. */
  predicate SlowConnection(p: Probes) {
    p.connection.Some?
    && (p.connection.value.effectiveType == "slow-2g" || p.connection.value.effectiveType == "2g"
        || p.connection.value.saveData)
  }

  /** detectLowEndDevice. */
  predicate IsLowEnd(p: Probes) {
    if IsModernMobile(p) then false
    else Cores(p) < 2 || Memory(p) < 2.0 || (SlowConnection(p) && Cores(p) < 4)
  }

  /** detectNetworkQuality: good without network information, otherwise 4G or 3G. */
  predicate HasGoodNetwork(p: Probes) {
    p.connection.None? || p.connection.value.effectiveType == "4g" || p.connection.value.effectiveType == "3g"
  }

  function DetectCapabilities(p: Probes): (c: Capabilities)
    ensures c.supportsAdvancedAnimations ==> !c.isLowEndDevice
  {
    var lowEnd := IsLowEnd(p);
    Capabilities(lowEnd, !lowEnd && !p.prefersReducedMotion, p.supportsWebGL, HasGoodNetwork(p))
  }

  /** A modern mobile device is never low-end, whatever its memory and network. */
  lemma ModernMobileNeverLowEnd(p: Probes)
    requires IsModernMobile(p)
    ensures !IsLowEnd(p)
    ensures DetectCapabilities(p).supportsAdvancedAnimations <==> !p.prefersReducedMotion
  {
  }

  /** Any other device is low-end exactly when it has fewer than two cores, less than 2 GB, or a
      slow connection with fewer than four cores; so four cores and 2 GB are always enough. */
  lemma LowEndCriteria(p: Probes)
    requires !IsModernMobile(p)
    ensures IsLowEnd(p) <==> Cores(p) < 2 || Memory(p) < 2.0 || (SlowConnection(p) && Cores(p) < 4)
    ensures Cores(p) >= 4 && Memory(p) >= 2.0 ==> !IsLowEnd(p)
    ensures !SlowConnection(p) ==> (IsLowEnd(p) <==> Cores(p) < 2 || Memory(p) < 2.0)
  {
  }

  /** A browser that reveals nothing about its hardware or network counts as capable. */
  lemma UnknownDeviceIsCapable(p: Probes)
    requires p.hardwareConcurrency.None? && p.deviceMemory.None? && p.connection.None?
    ensures !IsLowEnd(p) && HasGoodNetwork(p)
    ensures DetectCapabilities(p).supportsAdvancedAnimations <==> !p.prefersReducedMotion
  {
  }

  /** A reported 0 is treated like a missing value. */
  lemma ZeroReportsCountAsUnknown(p: Probes)
    ensures Cores(p.(hardwareConcurrency := Some(0))) == Cores(p.(hardwareConcurrency := None)) == 4
    ensures Memory(p.(deviceMemory := Some(0.0))) == Memory(p.(deviceMemory := None)) == 4.0
  {
  }

  // ---------------------------------------------------------------------------------------------
  // Flags

  /** initializeFlags. */
  function InitializeFlags(c: Capabilities): (f: Flags)
    ensures f.enableGlowEffects == f.enableParticleEffects == !c.isLowEndDevice
    ensures f.enableComplexAnimations == !f.reducedMotion == c.supportsAdvancedAnimations
    ensures f.enableSounds && f.enableHaptics
    ensures f.lazyLoadImages <==> c.isLowEndDevice || !c.hasGoodNetwork
  {
    Flags(!c.isLowEndDevice, c.supportsAdvancedAnimations, !c.isLowEndDevice, true, true,
          !c.supportsAdvancedAnimations, c.isLowEndDevice || !c.hasGoodNetwork)
  }

  /** On a low-end device no expensive effect is on and images load lazily; reduced motion is
      on whenever complex animations are off. */
  lemma DefaultFlagsFollowDevice(p: Probes)
    ensures var f := InitializeFlags(DetectCapabilities(p));
      (IsLowEnd(p) ==> !f.enableGlowEffects && !f.enableParticleEffects && !f.enableComplexAnimations
                       && f.reducedMotion && f.lazyLoadImages)
      && (p.prefersReducedMotion ==> f.reducedMotion && !f.enableComplexAnimations)
      && (!IsLowEnd(p) && HasGoodNetwork(p) ==> !f.lazyLoadImages)
  {
  }

  function Get(f: Flags, k: FlagKey): bool {
    match k
    case GlowEffects => f.enableGlowEffects
    case ComplexAnimations => f.enableComplexAnimations
    case ParticleEffects => f.enableParticleEffects
    case Sounds => f.enableSounds
    case Haptics => f.enableHaptics
    case ReducedMotion => f.reducedMotion
    case LazyLoadImages => f.lazyLoadImages
  }

  /** `flags[key] = value`. */
  function Set(f: Flags, k: FlagKey, v: bool): (r: Flags)
    ensures forall j :: Get(r, j) == if j == k then v else Get(f, j)
  {
    match k
    case GlowEffects => f.(enableGlowEffects := v)
    case ComplexAnimations => f.(enableComplexAnimations := v)
    case ParticleEffects => f.(enableParticleEffects := v)
    case Sounds => f.(enableSounds := v)
    case Haptics => f.(enableHaptics := v)
    case ReducedMotion => f.(reducedMotion := v)
    case LazyLoadImages => f.(lazyLoadImages := v)
  }

  /** Two flag sets with the same value under every key are the same. */
  lemma FlagsExtensional(f: Flags, g: Flags)
    requires forall k :: Get(f, k) == Get(g, k)
    ensures f == g
  {
    assert Get(f, GlowEffects) == Get(g, GlowEffects);
    assert Get(f, ComplexAnimations) == Get(g, ComplexAnimations);
    assert Get(f, ParticleEffects) == Get(g, ParticleEffects);
    assert Get(f, Sounds) == Get(g, Sounds);
    assert Get(f, Haptics) == Get(g, Haptics);
    assert Get(f, ReducedMotion) == Get(g, ReducedMotion);
    assert Get(f, LazyLoadImages) == Get(g, LazyLoadImages);
  }

  /** The value a key ends up with: the saved override if there is one, else the flag's own. */
  function Pick(f: Flags, prefs: map<FlagKey, bool>, k: FlagKey): bool {
    if k in prefs then prefs[k] else Get(f, k)
  }

  /** `{ ...flags, ...prefs }`: every saved key overrides, every other flag stays. */
  function Override(f: Flags, prefs: map<FlagKey, bool>): (r: Flags)
    ensures forall k :: Get(r, k) == if k in prefs then prefs[k] else Get(f, k)
  {
    Flags(Pick(f, prefs, GlowEffects), Pick(f, prefs, ComplexAnimations), Pick(f, prefs, ParticleEffects),
          Pick(f, prefs, Sounds), Pick(f, prefs, Haptics), Pick(f, prefs, ReducedMotion),
          Pick(f, prefs, LazyLoadImages))
  }

  /** The flags agree with every saved override. */
  predicate Consistent(f: Flags, prefs: map<FlagKey, bool>) {
    forall k :: k in prefs ==> Get(f, k) == prefs[k]
  }

  /** Applying the overrides twice is applying them once, and applying them to flags that already
      agree with them changes nothing. */
  lemma OverrideIdempotent(f: Flags, prefs: map<FlagKey, bool>)
    ensures Consistent(Override(f, prefs), prefs)
    ensures Override(Override(f, prefs), prefs) == Override(f, prefs)
    ensures Consistent(f, prefs) ==> Override(f, prefs) == f
  {
    FlagsExtensional(Override(Override(f, prefs), prefs), Override(f, prefs));
    if Consistent(f, prefs) {
      FlagsExtensional(Override(f, prefs), f);
    }
  }

  // ---------------------------------------------------------------------------------------------
  // The stored overrides and the manager

  /** What the preferences key holds: saved overrides, or text that does not parse as them. */
  datatype PrefsDoc = PrefsDoc(prefs: map<FlagKey, bool>) | Unreadable

  class PrefsStorage {
    var saved: Option<PrefsDoc>
    /** False when the storage throws on every access. */
    var available: bool

    constructor(saved: Option<PrefsDoc>, available: bool)
      ensures this.saved == saved && this.available == available
    {
      this.saved := saved;
      this.available := available;
    }
  }

  /** getUserPreferences: the saved overrides, or none when nothing is saved, it does not parse, or
      the storage throws. */
  function UserPreferences(saved: Option<PrefsDoc>, available: bool): (prefs: map<FlagKey, bool>)
    ensures !available || saved.None? || saved.value.Unreadable? ==> prefs == map[]
  {
    if available && saved.Some? && saved.value.PrefsDoc? then saved.value.prefs else map[]
  }

  class FeatureFlagManager {
    const capabilities: Capabilities
    var flags: Flags

    /** The constructor: capabilities from the probes, flags from the capabilities. */
    constructor(p: Probes)
      ensures capabilities == DetectCapabilities(p) && flags == InitializeFlags(capabilities)
    {
      capabilities := DetectCapabilities(p);
      flags := InitializeFlags(DetectCapabilities(p));
    }

    /** getFlags: a copy (flags are values here, so later changes of either side stay apart). */
    method GetFlags() returns (f: Flags)
      ensures f == flags
    {
      f := flags;
    }

    method GetCapabilities() returns (c: Capabilities)
      ensures c == capabilities
    {
      c := capabilities;
    }

    /** setFlag: the flag changes in any case; the override is added to the saved ones only when
        the storage works. */
    method SetFlag(store: PrefsStorage, k: FlagKey, v: bool)
      modifies this`flags, store`saved
      ensures flags == Set(old(flags), k, v)
      ensures store.available ==>
        store.saved == Some(PrefsDoc(UserPreferences(old(store.saved), store.available)[k := v]))
      ensures !store.available ==> store.saved == old(store.saved)
    {
      flags := Set(flags, k, v);
      if store.available {
        var userPrefs := UserPreferences(store.saved, store.available);
        store.saved := Some(PrefsDoc(userPrefs[k := v]));
      }
    }

    /** applyUserPreferences. */
    method ApplyUserPreferences(store: PrefsStorage)
      modifies this`flags
      ensures flags == Override(old(flags), UserPreferences(store.saved, store.available))
    {
      flags := Override(flags, UserPreferences(store.saved, store.available));
    }
  }

  /** With a working storage, setting a flag keeps the flags in agreement with the saved overrides,
      and the new override sticks. */
  lemma SetFlagKeepsConsistent(f: Flags, saved: Option<PrefsDoc>, k: FlagKey, v: bool)
    requires Consistent(f, UserPreferences(saved, true))
    ensures var prefs := UserPreferences(saved, true)[k := v];
      Consistent(Set(f, k, v), prefs) && UserPreferences(Some(PrefsDoc(prefs)), true)[k] == v
  {
  }

  /** The module start-up: a manager for the device, with the saved overrides applied. */
  method Startup(p: Probes, store: PrefsStorage) returns (m: FeatureFlagManager)
    ensures fresh(m)
    ensures m.flags == Override(InitializeFlags(DetectCapabilities(p)), UserPreferences(store.saved, store.available))
  {
    m := new FeatureFlagManager(p);
    m.ApplyUserPreferences(store);
  }

  /** A preference set in one session is in force after the next start-up on a working storage. */
  method PreferenceSurvivesRestart(p: Probes, store: PrefsStorage, k: FlagKey, v: bool) returns (next: FeatureFlagManager)
    requires store.available
    modifies store`saved
    ensures Get(next.flags, k) == v
  {
    var m := Startup(p, store);
    m.SetFlag(store, k, v);
    next := Startup(p, store);
  }
}
