/** The safe-area hook: the four screen-edge insets as CSS length strings. It probes the browser's
    `env(safe-area-inset-*)` values and uses them when the top and bottom are known; otherwise it
    estimates the insets from the device (iOS or not, notched or not) and the orientation. The DOM
    probe and the user-agent test are inputs here. */
module SafeAreaInsets {
  import CssValue

  datatype Insets = Insets(top: string, bottom: string, left: string, right: string)

  const Rem: string := "1rem"
  const DefaultInsets: Insets := Insets(Rem, Rem, Rem, Rem)
  /** The screen size from which an iOS device counts as notched (the iPhone X and newer). */
  const NotchScreenSize: int := 812

  /** `max(1rem, <value>)`: the value, but never less than one rem. */
  function AtLeastRem(value: string): (s: string)
    ensures |s| == |value| + 11
    ensures s[..10] == "max(1rem, " && s[10..|s| - 1] == value && s[|s| - 1] == ')'
  {
    "max(1rem, " + value + ")"
  }

  /** A length that can never fall below one rem: `1rem` itself or a `max(1rem, ...)`. */
  predicate HasRemFloor(s: string) {
    s == Rem || (|s| >= 11 && s[..10] == "max(1rem, " && s[|s| - 1] == ')')
  }

  /** What calculateInsets reads from the browser: the computed paddings of the probe element, the
      window and screen sizes, and whether the user agent names an iPhone, iPad or iPod. */
  datatype Probe = Probe(
    cssTop: string, cssBottom: string, cssLeft: string, cssRight: string,
    innerHeight: int, innerWidth: int, screenHeight: int, screenWidth: int,
    isIOS: bool)

  /** The probed values count when the top and bottom are both set and not `0px`. */
  predicate HasCssValues(p: Probe) {
    p.cssTop != "0px" && p.cssBottom != "0px" && p.cssTop != "" && p.cssBottom != ""
  }

  predicate HasNotch(p: Probe) {
    p.isIOS && (p.screenHeight >= NotchScreenSize || p.screenWidth >= NotchScreenSize)
  }

  /** A square window counts as landscape. */
  predicate IsPortrait(p: Probe) {
    p.innerHeight > p.innerWidth
  }

  /** calculateInsets: the insets the hook sets for one probe. */
  function Calculate(p: Probe): (r: Insets)
    ensures HasRemFloor(r.top) && HasRemFloor(r.bottom) && HasRemFloor(r.left) && HasRemFloor(r.right)
    ensures HasCssValues(p) ==>
      r == Insets(AtLeastRem(p.cssTop), AtLeastRem(p.cssBottom), AtLeastRem(p.cssLeft), AtLeastRem(p.cssRight))
    ensures !HasCssValues(p) ==> r.left == Rem && r.right == Rem
  {
    if HasCssValues(p) then
      Insets(AtLeastRem(p.cssTop), AtLeastRem(p.cssBottom), AtLeastRem(p.cssLeft), AtLeastRem(p.cssRight))
    else
      var topInset :=
        if HasNotch(p) then (if IsPortrait(p) then AtLeastRem("44px") else AtLeastRem("32px"))
        else if p.isIOS then AtLeastRem("20px")
        else Rem;
      var bottomInset :=
        if HasNotch(p) then (if IsPortrait(p) then AtLeastRem("34px") else AtLeastRem("21px"))
        else Rem;
      Insets(topInset, bottomInset, Rem, Rem)
  }

  /** The estimate, in pixels, for the top edge: the notch or the status bar, else one rem. */
  function FallbackTopPx(p: Probe): real {
    if HasNotch(p) && IsPortrait(p) then 44.0
    else if HasNotch(p) then 32.0
    else if p.isIOS then 20.0
    else CssValue.RemPx
  }

  /** The estimate, in pixels, for the bottom edge: the home indicator of a notched device, else one rem. */
  function FallbackBottomPx(p: Probe): real {
    if HasNotch(p) && IsPortrait(p) then 34.0
    else if HasNotch(p) then 21.0
    else CssValue.RemPx
  }

  /** Read back as pixels, the estimated insets are the figures of the device table, and the sides
      are one rem. */
  lemma FallbackReadsAsTable(p: Probe)
    requires !HasCssValues(p)
    ensures CssValue.ParseCssValue(Calculate(p).top) == FallbackTopPx(p)
    ensures CssValue.ParseCssValue(Calculate(p).bottom) == FallbackBottomPx(p)
    ensures CssValue.ParseCssValue(Calculate(p).left) == CssValue.RemPx
    ensures CssValue.ParseCssValue(Calculate(p).right) == CssValue.RemPx
  {
    CssValue.RemAloneIsSixteen();
    TopReadsAsTable(p);
    BottomReadsAsTable(p);
  }

  lemma TopReadsAsTable(p: Probe)
    requires !HasCssValues(p)
    ensures CssValue.ParseCssValue(Calculate(p).top) == FallbackTopPx(p)
  {
    var t := Calculate(p).top;
    if HasNotch(p) && IsPortrait(p) {
      assert t == AtLeastRem("44" + "px");
      ReadPixels("44", 44);
    } else if HasNotch(p) {
      assert t == AtLeastRem("32" + "px");
      ReadPixels("32", 32);
    } else if p.isIOS {
      assert t == AtLeastRem("20" + "px");
      ReadPixels("20", 20);
    } else {
      assert t == Rem;
      CssValue.RemAloneIsSixteen();
    }
  }

  lemma BottomReadsAsTable(p: Probe)
    requires !HasCssValues(p)
    ensures CssValue.ParseCssValue(Calculate(p).bottom) == FallbackBottomPx(p)
  {
    var b := Calculate(p).bottom;
    if HasNotch(p) && IsPortrait(p) {
      assert b == AtLeastRem("34" + "px");
      ReadPixels("34", 34);
    } else if HasNotch(p) {
      assert b == AtLeastRem("21" + "px");
      ReadPixels("21", 21);
    } else {
      assert b == Rem;
      CssValue.RemAloneIsSixteen();
    }
  }

  /** `max(1rem, <d>px)` for a two-digit `d` reads as `d` pixels. */
  lemma ReadPixels(d: string, n: nat)
    requires |d| == 2 && CssValue.AllDigits(d)
    requires n == 10 * CssValue.DigitValue(d[0]) + CssValue.DigitValue(d[1])
    ensures CssValue.ParseCssValue(AtLeastRem(d + "px")) == n as real
  {
    var head := d[..1];
    assert head[..0] == [];
    assert CssValue.IntegerValue(head) == CssValue.DigitValue(d[0]);
    assert d[..|d| - 1] == head;
    assert CssValue.IntegerValue(d) == n;
    CssValue.RemFloorWithPixels(d);
    assert AtLeastRem(d + "px") == "max(1rem, " + d + "px)";
  }

  /** No estimate is below one rem, and a notched device in portrait gets the largest top inset. */
  lemma FallbackNeverBelowRem(p: Probe)
    requires !HasCssValues(p)
    ensures CssValue.ParseCssValue(Calculate(p).top) >= CssValue.RemPx
    ensures CssValue.ParseCssValue(Calculate(p).bottom) >= CssValue.RemPx
    ensures HasNotch(p) && IsPortrait(p) <==> CssValue.ParseCssValue(Calculate(p).top) == 44.0
  {
    FallbackReadsAsTable(p);
  }

  /** Off iOS, without usable probed values, every inset stays at its default of one rem. */
  lemma OtherDevicesKeepDefaults(p: Probe)
    requires !p.isIOS && !HasCssValues(p)
    ensures Calculate(p) == DefaultInsets
  {
  }

  /** Turning a notched device swaps its estimates between the portrait and the landscape figures;
      the sides stay one rem. */
  lemma RotationSwapsNotchEstimates(p: Probe)
    requires HasNotch(p) && !HasCssValues(p) && p.innerHeight != p.innerWidth
    ensures var q := p.(innerHeight := p.innerWidth, innerWidth := p.innerHeight);
      && HasNotch(q) && IsPortrait(q) == !IsPortrait(p)
      && {Calculate(p).top, Calculate(q).top} == {AtLeastRem("44px"), AtLeastRem("32px")}
      && {Calculate(p).bottom, Calculate(q).bottom} == {AtLeastRem("34px"), AtLeastRem("21px")}
      && Calculate(q).left == Calculate(p).left == Rem
  {
  }

  /** Probed values that merely say zero, or nothing, do not count: the estimate is used instead. */
  lemma ZeroProbeFallsBack(p: Probe)
    requires p.cssTop == "0px" || p.cssBottom == ""
    ensures Calculate(p).left == Rem && Calculate(p).right == Rem
    ensures Calculate(p).top == Rem <==> !p.isIOS
  {
    assert AtLeastRem("44px") != Rem && AtLeastRem("32px") != Rem && AtLeastRem("20px") != Rem;
  }

  /** The hook's state: the insets, recalculated at mount and on every resize or orientation change. */
  class InsetsHook {
    var insets: Insets

    /** Until the first calculation every inset is one rem. */
    constructor()
      ensures insets == DefaultInsets
    {
      insets := DefaultInsets;
    }

    /** calculateInsets followed by setInsets. */
    method Recalculate(p: Probe)
      modifies this`insets
      ensures insets == Calculate(p)
    {
      insets := Calculate(p);
    }
  }

  /** Mounting the hook and then receiving resize or orientation events, each with the browser's
      state at that moment: the insets always follow the latest probe, and every side keeps its
      one-rem floor. */
  method Mount(probes: seq<Probe>) returns (hook: InsetsHook)
    requires |probes| > 0
    ensures fresh(hook)
    ensures hook.insets == Calculate(probes[|probes| - 1])
    ensures HasRemFloor(hook.insets.top) && HasRemFloor(hook.insets.bottom)
    ensures HasRemFloor(hook.insets.left) && HasRemFloor(hook.insets.right)
  {
    hook := new InsetsHook();
    hook.Recalculate(probes[0]);
    var i := 1;
    while i < |probes|
      invariant 1 <= i <= |probes|
      invariant hook.insets == Calculate(probes[i - 1])
    {
      hook.Recalculate(probes[i]);
      i := i + 1;
    }
  }
}
