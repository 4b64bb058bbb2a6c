/** Advanced capture in the camera HAL: what configuring a feature changes for the burst, and what
    is put back once enough frames are in. */
module AdvancedCapture {
  const UINT32 := 0x1_0000_0000

  /** The features enabled while a burst runs. `otherMode` is whether opti-zoom, refocus, AF
      bracketing or a manual mode is switched on without being in force. */
  datatype Features = Features(
    ubiFocus: bool, ubiRefocus: bool, optiZoom: bool, hdr: bool, hdrBracketing: bool, aeBracket: bool,
    stillMore: bool, seeMore: bool, ltmForSeeMore: bool, stillMoreBurst: nat,
    chromaFlash: bool, lowLight: bool, manualCapture: bool, flashNeeded: bool, longshot: bool,
    flashOn: bool, otherMode: bool)

  /** The settings advanced capture touches. */
  datatype Device = Device(lock3A: bool, toneMap: bool, tintless: bool, zoom: int, afBracket: bool,
                           aeBracket: bool, frameCapture: bool, stillMoreBurst: nat)

  /** `parmZoom` is the zoom the client asked for, `zoomLevel` what opti-zoom remembers of it. */
  datatype State = State(d: Device, configured: bool, locked3A: bool, hdrBracketing: bool, parmZoom: int,
                         zoomLevel: int, inputCount: nat)

  type uint8 = x: int | 0 <= x < 256

  predicate Ubi(f: Features) {
    f.ubiFocus || f.ubiRefocus
  }

  predicate Flash(f: Features) {
    f.flashNeeded && !f.longshot
  }

  predicate Frames(f: Features) {
    f.chromaFlash || f.lowLight || f.manualCapture
  }

  /** Configuring a frame capture for chroma flash turns tone mapping off, unless another mode keeps
      the flash off. */
  predicate FlashesChroma(f: Features) {
    f.chromaFlash && !f.lowLight && !f.manualCapture && !f.otherMode
  }

  predicate OwnToneMap(f: Features) {
    !f.seeMore && !f.ltmForSeeMore
  }

  function Locked(s: State): State {
    s.(d := s.d.(lock3A := true), locked3A := true)
  }

  /** The settings made for the first feature enabled, in the order they are looked at. */
  function Configured(s0: State, f: Features): State {
    var s := s0.(configured := true, inputCount := 0);
    if Ubi(f) then Locked(s.(d := s.d.(afBracket := true)))
    else if f.optiZoom then Locked(s.(zoomLevel := s.parmZoom, d := s.d.(zoom := 0)))
    else if f.hdr then
      var bracketing := s.hdrBracketing || f.hdrBracketing;
      s.(hdrBracketing := bracketing, d := s.d.(aeBracket := f.hdrBracketing, toneMap := s.d.toneMap && !bracketing))
    else if f.aeBracket then s.(d := s.d.(toneMap := false, aeBracket := true))
    else if f.stillMore then
      Locked(s.(d := s.d.(toneMap := s.d.toneMap && !OwnToneMap(f), tintless := false,
                          stillMoreBurst := f.stillMoreBurst)))
    else if Frames(f) || Flash(f) then
      s.(d := s.d.(frameCapture := true, toneMap := s.d.toneMap && !FlashesChroma(f)))
    else s.(configured := false)
  }

  /** Resetting a frame capture also turns tone mapping on, except for a manual one without flash. */
  predicate ResetsToneMap(f: Features) {
    f.chromaFlash || f.flashOn || f.lowLight
  }

  function PutBack(s: State, f: Features): State {
    if f.hdr || f.aeBracket then s.(hdrBracketing := false, d := s.d.(toneMap := true, aeBracket := false))
    else if Frames(f) || Flash(f) then s.(d := s.d.(frameCapture := false, toneMap := s.d.toneMap || ResetsToneMap(f)))
    else if Ubi(f) then s.(d := s.d.(afBracket := false))
    else if f.optiZoom then s.(d := s.d.(zoom := s.zoomLevel))
    else if f.stillMore then
      s.(d := s.d.(stillMoreBurst := 0, tintless := true, toneMap := s.d.toneMap || OwnToneMap(f)))
    else s
  }

  /** What is put back: 3A first, then the settings of one feature, looked for in another order. */
  function Unconfigured(s: State, f: Features): State {
    if !s.configured then s
    else PutBack(s.(configured := false, locked3A := false, d := s.d.(lock3A := s.d.lock3A && !s.locked3A)), f)
  }

  function AfterCapture(s: State, f: Features, burst: uint8): State {
    var t := s.(inputCount := (s.inputCount + 1) % UINT32);
    if t.inputCount >= burst then Unconfigured(t, f) else t
  }

  class Hal {
    var d: Device
    var mAdvancedCaptureConfigured: bool
    var mIs3ALocked: bool
    var mHDRBracketingEnabled: bool
    var mParmZoomLevel: int
    var mZoomLevel: int
    var mInputCount: nat

    ghost function Abs(): State
      reads this
    {
      State(d, mAdvancedCaptureConfigured, mIs3ALocked, mHDRBracketingEnabled, mParmZoomLevel, mZoomLevel, mInputCount)
    }

    constructor (d: Device, parmZoom: int)
      ensures Abs() == State(d, false, false, false, parmZoom, 0, 0)
    {
      this.d := d;
      mAdvancedCaptureConfigured, mIs3ALocked, mHDRBracketingEnabled := false, false, false;
      mParmZoomLevel, mZoomLevel, mInputCount := parmZoom, 0, 0;
    }

    method Set3ALock(on: bool)
      modifies this`d, this`mIs3ALocked
      ensures d == old(d).(lock3A := on) && mIs3ALocked == on
    {
      d := d.(lock3A := on);
      mIs3ALocked := on;
    }

    method ConfigureAFBracketing(enable: bool)
      modifies this`d, this`mIs3ALocked
      ensures d == if enable then old(d).(afBracket := true, lock3A := true) else old(d).(afBracket := false)
      ensures mIs3ALocked == (enable || old(mIs3ALocked))
    {
      d := d.(afBracket := enable);
      if enable {
        Set3ALock(true);
      }
    }

    /** Without HDR and AE bracketing, which are looked at first. */
    method ConfigFrameCapture(f: Features)
      modifies this`d
      ensures d == old(d).(frameCapture := true, toneMap := old(d).toneMap && !FlashesChroma(f))
    {
      var flash := !f.lowLight && !f.manualCapture && !f.otherMode && (f.chromaFlash || f.flashOn);
      if flash && f.chromaFlash {
        d := d.(toneMap := false);
      }
      d := d.(frameCapture := true);
    }

    /** A feature combination that is refused leaves everything alone; a secondary camera only
        takes note of the burst. */
    method ConfigureAdvancedCapture(f: Features, allowed: bool, secondary: bool)
      modifies this
      ensures !allowed ==> Abs() == old(Abs())
      ensures allowed && secondary ==> Abs() == old(Abs()).(configured := true, inputCount := 0)
      ensures allowed && !secondary ==> Abs() == Configured(old(Abs()), f)
    {
      if !allowed {
        return;
      }
      mInputCount := 0;
      mAdvancedCaptureConfigured := true;
      if secondary {
        return;
      }
      if f.ubiFocus || f.ubiRefocus {
        ConfigureAFBracketing(true);
      } else if f.optiZoom {
        mZoomLevel := mParmZoomLevel;
        d := d.(zoom := 0);
        Set3ALock(true);
      } else if f.hdr {
        if f.hdrBracketing {
          mHDRBracketingEnabled := true;
        }
        d := d.(aeBracket := f.hdrBracketing);
        if mHDRBracketingEnabled {
          d := d.(toneMap := false);
        }
      } else if f.aeBracket {
        d := d.(toneMap := false);
        d := d.(aeBracket := true);
      } else if f.stillMore {
        if !f.seeMore && !f.ltmForSeeMore {
          d := d.(toneMap := false);
        }
        Set3ALock(true);
        d := d.(tintless := false);
        d := d.(stillMoreBurst := f.stillMoreBurst);
      } else if f.chromaFlash || f.lowLight || f.manualCapture {
        ConfigFrameCapture(f);
      } else if f.flashNeeded && !f.longshot {
        ConfigFrameCapture(f);
      } else {
        mAdvancedCaptureConfigured := false;
      }
    }

    method ResetFrameCapture(f: Features)
      modifies this`d
      ensures d == old(d).(frameCapture := false, toneMap := old(d).toneMap || ResetsToneMap(f))
    {
      if f.chromaFlash || f.flashOn || f.lowLight {
        d := d.(toneMap := true);
      }
      d := d.(frameCapture := false);
    }

    method RestoreFeature(f: Features)
      modifies this
      ensures Abs() == PutBack(old(Abs()), f)
    {
      if f.hdr || f.aeBracket {
        d := d.(toneMap := true);
        mHDRBracketingEnabled := false;
        d := d.(aeBracket := false);
      } else if f.chromaFlash || (f.flashNeeded && !f.longshot) || f.lowLight || f.manualCapture {
        ResetFrameCapture(f);
      } else if f.ubiFocus || f.ubiRefocus {
        ConfigureAFBracketing(false);
      } else if f.optiZoom {
        d := d.(zoom := mZoomLevel);
      } else if f.stillMore {
        d := d.(stillMoreBurst := 0);
        if !f.seeMore && !f.ltmForSeeMore {
          d := d.(toneMap := true);
        }
        d := d.(tintless := true);
      }
    }

    method UnconfigureAdvancedCapture(f: Features)
      modifies this
      ensures Abs() == Unconfigured(old(Abs()), f)
    {
      if !mAdvancedCaptureConfigured {
        return;
      }
      mAdvancedCaptureConfigured := false;
      if mIs3ALocked {
        Set3ALock(false);
      }
      RestoreFeature(f);
    }

    method ProcessZSLCaptureDone(f: Features, burst: uint8)
      modifies this
      ensures Abs() == AfterCapture(old(Abs()), f, burst)
    {
      mInputCount := (mInputCount + 1) % UINT32;
      if mInputCount >= burst {
        UnconfigureAdvancedCapture(f);
      }
    }
  }

  // ---------------------------------------------------------------- which feature sets what

  datatype Feature = AfBracketing | Zooming | HdrBracketing | AeBracketing | Stacking | FrameBurst | Nothing

  /** The feature configuring picks, and the one unconfiguring picks. */
  function Picked(f: Features): Feature {
    if f.ubiFocus || f.ubiRefocus then AfBracketing
    else if f.optiZoom then Zooming
    else if f.hdr then HdrBracketing
    else if f.aeBracket then AeBracketing
    else if f.stillMore then Stacking
    else if f.chromaFlash || f.lowLight || f.manualCapture || (f.flashNeeded && !f.longshot) then FrameBurst
    else Nothing
  }

  function PickedBack(f: Features): Feature {
    if f.hdr then HdrBracketing
    else if f.aeBracket then AeBracketing
    else if f.chromaFlash || f.lowLight || f.manualCapture || (f.flashNeeded && !f.longshot) then FrameBurst
    else if f.ubiFocus || f.ubiRefocus then AfBracketing
    else if f.optiZoom then Zooming
    else if f.stillMore then Stacking
    else Nothing
  }

  /** Setting by setting, what configuring changes. */
  lemma ConfiguringSets(s: State, f: Features)
    ensures var t, p := Configured(s, f), Picked(f);
      && t.configured == (p != Nothing) && t.inputCount == 0 && t.parmZoom == s.parmZoom
      && t.d.lock3A == (s.d.lock3A || p in {AfBracketing, Zooming, Stacking})
      && t.locked3A == (s.locked3A || p in {AfBracketing, Zooming, Stacking})
      && t.d.afBracket == (s.d.afBracket || p == AfBracketing)
      && t.d.zoom == (if p == Zooming then 0 else s.d.zoom)
      && t.zoomLevel == (if p == Zooming then s.parmZoom else s.zoomLevel)
      && t.hdrBracketing == (s.hdrBracketing || (p == HdrBracketing && f.hdrBracketing))
      && t.d.aeBracket == (if p == HdrBracketing then f.hdrBracketing else s.d.aeBracket || p == AeBracketing)
      && t.d.toneMap == (s.d.toneMap && p != AeBracketing && !(p == HdrBracketing && t.hdrBracketing)
                         && !(p == Stacking && !f.seeMore && !f.ltmForSeeMore)
                         && !(p == FrameBurst && f.chromaFlash && !f.lowLight && !f.manualCapture && !f.otherMode))
      && t.d.tintless == (s.d.tintless && p != Stacking)
      && t.d.stillMoreBurst == (if p == Stacking then f.stillMoreBurst else s.d.stillMoreBurst)
      && t.d.frameCapture == (s.d.frameCapture || p == FrameBurst)
  {
    match Picked(f)
    case AfBracketing =>
    case Zooming =>
    case HdrBracketing =>
    case AeBracketing =>
    case Stacking =>
    case FrameBurst =>
    case Nothing =>
  }

  /** And what unconfiguring puts back. */
  lemma UnconfiguringSets(s: State, f: Features)
    requires s.configured
    ensures var t, p := Unconfigured(s, f), PickedBack(f);
      && !t.configured && !t.locked3A && t.inputCount == s.inputCount
      && t.parmZoom == s.parmZoom && t.zoomLevel == s.zoomLevel
      && t.d.lock3A == (s.d.lock3A && !s.locked3A)
      && t.d.afBracket == (s.d.afBracket && p != AfBracketing)
      && t.d.zoom == (if p == Zooming then s.zoomLevel else s.d.zoom)
      && t.hdrBracketing == (s.hdrBracketing && p !in {HdrBracketing, AeBracketing})
      && t.d.aeBracket == (s.d.aeBracket && p !in {HdrBracketing, AeBracketing})
      && t.d.toneMap == (s.d.toneMap || p in {HdrBracketing, AeBracketing}
                         || (p == Stacking && !f.seeMore && !f.ltmForSeeMore)
                         || (p == FrameBurst && (f.chromaFlash || f.flashOn || f.lowLight)))
      && t.d.tintless == (s.d.tintless || p == Stacking)
      && t.d.stillMoreBurst == (if p == Stacking then 0 else s.d.stillMoreBurst)
      && t.d.frameCapture == (s.d.frameCapture && p != FrameBurst)
  {
    match PickedBack(f)
    case AfBracketing =>
    case Zooming =>
    case HdrBracketing =>
    case AeBracketing =>
    case Stacking =>
    case FrameBurst =>
    case Nothing =>
  }

  // ---------------------------------------------------------------- a burst

  /** A frame of the burst is in, with the burst count as read then; or the capture is cancelled. */
  datatype Event = CaptureDone(burst: uint8) | Cancel

  function Apply(s: State, e: Event, f: Features): State {
    match e
    case CaptureDone(burst) => AfterCapture(s, f, burst)
    case Cancel => Unconfigured(s, f)
  }

  function Burst(s: State, es: seq<Event>, f: Features): State {
    if es == [] then s else Apply(Burst(s, es[..|es| - 1], f), es[|es| - 1], f)
  }

  predicate Completes(e: Event, i: nat) {
    e == Cancel || i + 1 >= e.burst
  }

  /** The burst is complete: some event cancelled it, or was the burst-count-th or later. */
  ghost predicate Complete(es: seq<Event>) {
    exists i :: 0 <= i < |es| && Completes(es[i], i)
  }

  /** How many events put settings back. */
  function Restores(s: State, es: seq<Event>, f: Features): nat {
    if es == [] then 0
    else
      var t := Burst(s, es[..|es| - 1], f);
      Restores(s, es[..|es| - 1], f) + if t.configured && !Apply(t, es[|es| - 1], f).configured then 1 else 0
  }

  lemma CompleteSnoc(es: seq<Event>)
    requires es != []
    ensures Complete(es) <==> Complete(es[..|es| - 1]) || Completes(es[|es| - 1], |es| - 1)
  {
    var before := es[..|es| - 1];
    if Complete(before) {
      var i :| 0 <= i < |before| && Completes(before[i], i);
      assert es[i] == before[i];
    }
    if Complete(es) {
      var i :| 0 <= i < |es| && Completes(es[i], i);
      assert i < |before| ==> before[i] == es[i];
    }
  }

  lemma CaptureStep(s: State, t: State, e: Event, i: nat, f: Features)
    requires s.configured && t == s.(inputCount := i) && i < 256
    ensures Completes(e, i) ==> Apply(t, e, f).(inputCount := 0) == Unconfigured(s, f).(inputCount := 0)
    ensures !Completes(e, i) ==> i + 1 < 256 && Apply(t, e, f) == s.(inputCount := i + 1)
    ensures Completes(e, i) <==> !Apply(t, e, f).configured
  {}

  lemma CaptureAfter(t: State, e: Event, f: Features)
    requires !t.configured
    ensures Apply(t, e, f).(inputCount := 0) == t.(inputCount := 0)
  {}

  /** Until a burst is complete only frames are counted; once it is, the settings have been put back
      exactly once. */
  lemma {:induction false} RestoredOnce(s: State, es: seq<Event>, f: Features)
    requires s.configured && s.inputCount == 0
    ensures var t := Burst(s, es, f);
      && (!Complete(es) ==> |es| < 256 && t == s.(inputCount := |es|) && Restores(s, es, f) == 0)
      && (Complete(es) ==>
            t.(inputCount := 0) == Unconfigured(s, f).(inputCount := 0) && !t.configured && Restores(s, es, f) == 1)
  {
    if es != [] {
      var before, e := es[..|es| - 1], es[|es| - 1];
      RestoredOnce(s, before, f);
      CompleteSnoc(es);
      if Complete(before) {
        CaptureAfter(Burst(s, before, f), e, f);
      } else {
        CaptureStep(s, Burst(s, before, f), e, |before|, f);
      }
    }
  }

  // ---------------------------------------------------------------- when all is put back

  /** Nothing is switched on or off before the burst. */
  predicate AtRest(s: State) {
    && !s.d.lock3A && s.d.toneMap && s.d.tintless && !s.d.afBracket && !s.d.aeBracket && !s.d.frameCapture
    && s.d.zoom == s.parmZoom && s.d.stillMoreBurst == 0 && !s.locked3A && !s.configured && !s.hdrBracketing
  }

  /** The feature that was set up is the one that will be put back. */
  predicate SameFeature(f: Features, zoom: int) {
    var others := f.hdr || f.aeBracket || Frames(f) || Flash(f);
    if Ubi(f) then !others
    else if f.optiZoom then !others || zoom == 0
    else if f.hdr || f.aeBracket then true
    else if f.stillMore then !Frames(f) && !Flash(f)
    else true
  }

  lemma {:induction false} NeverConfigured(s: State, es: seq<Event>, f: Features)
    requires !s.configured
    ensures Burst(s, es, f).d == s.d && !Burst(s, es, f).configured
  {
    if es != [] { NeverConfigured(s, es[..|es| - 1], f); }
  }

  lemma UnconfiguredRestores(s: State, f: Features)
    requires AtRest(s) && Configured(s, f).configured
    ensures Unconfigured(Configured(s, f), f).d == s.d <==> SameFeature(f, s.d.zoom)
  {}

  /** After a complete burst every setting is back where it was if and only if configuring and
      unconfiguring picked the same feature (or there was no zoom to lose). */
  lemma RestoredIffSameFeature(s: State, f: Features, es: seq<Event>)
    requires AtRest(s) && Complete(es)
    ensures Burst(Configured(s, f), es, f).d == s.d <==> SameFeature(f, s.d.zoom)
  {
    var c := Configured(s, f);
    if c.configured {
      RestoredOnce(c, es, f);
      UnconfiguredRestores(s, f);
    } else {
      NeverConfigured(c, es, f);
    }
  }

  function Groups(f: Features): nat {
    (if Ubi(f) then 1 else 0) + (if f.optiZoom then 1 else 0) + (if f.hdr then 1 else 0)
    + (if f.aeBracket then 1 else 0)
    + (if f.stillMore then 1 else 0) + (if Frames(f) then 1 else 0) + (if Flash(f) then 1 else 0)
  }

  lemma {:induction false} NoRestores(s: State, es: seq<Event>, f: Features)
    requires !s.configured
    ensures Restores(s, es, f) == 0
  {
    if es != [] {
      NoRestores(s, es[..|es| - 1], f);
      NeverConfigured(s, es[..|es| - 1], f);
    }
  }

  /** With at most one feature enabled, a burst as long as the burst count puts everything back,
      once, whatever the events after it. */
  lemma OneFeatureRestored(s: State, f: Features, n: nat, burst: uint8, more: seq<Event>)
    requires AtRest(s) && Groups(f) <= 1 && 1 <= n && burst <= n
    ensures var es := seq(n, _ => CaptureDone(burst)) + more;
      && Burst(Configured(s, f), es, f).d == s.d
      && Restores(Configured(s, f), es, f) == if Configured(s, f).configured then 1 else 0
  {
    var es := seq(n, _ => CaptureDone(burst)) + more;
    assert Completes(es[n - 1], n - 1);
    RestoredIffSameFeature(s, f, es);
    if Configured(s, f).configured {
      RestoredOnce(Configured(s, f), es, f);
    } else {
      NoRestores(Configured(s, f), es, f);
    }
  }

  const NONE := Features(false, false, false, false, false, false, false, false, false, 0,
                         false, false, false, false, false, false, false)

  /** Still-more with a flash: it is the flash that gets put back, so tintless stays off, and tone
      mapping too unless the flash mode is on. */
  lemma StillMoreWithFlash(s: State, flashOn: bool)
    requires AtRest(s)
    ensures var f := NONE.(stillMore := true, flashNeeded := true, flashOn := flashOn);
      var d := Burst(Configured(s, f), [CaptureDone(1)], f).d;
      !d.tintless && d.toneMap == flashOn && !d.lock3A
  {
    var f := NONE.(stillMore := true, flashNeeded := true, flashOn := flashOn);
    assert [CaptureDone(1)][..0] == [];
    assert Burst(Configured(s, f), [], f) == Configured(s, f);
  }
}
