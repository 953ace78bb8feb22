/**
 * UtilityPlugin (Lumix/Plugins/BuiltIn/Utilities/UtilityPlugin.cs): the
 * built-in utility effect, per frame: mono fold or mid/side width, phase
 * inversion, then the same volume and pan law as StereoSampleProvider.
 * The dB knob's Math.Pow conversion happens before SetGain and is not part
 * of this model.
 */
module Utility {
  import opened Wrappers
  import opened Buffers
  import Stereo

  datatype Settings = Settings(
    leftVolume: real, rightVolume: real, pan: real, width: real,
    mono: bool, invertLeft: bool, invertRight: bool)

  /** The field initialisers: unit volumes, centred, width 0, stereo, no inversion. */
  const Default := Settings(1.0, 1.0, 0.0, 0.0, false, false, false)

  /** Mono fold, or the side component scaled by (width + 100) / 100 around the mid. */
  function Widen(u: Settings, l: real, r: real): (lr: (real, real))
  {
    if u.mono then ((l + r) / 2.0, (l + r) / 2.0)
    else
      var mid, side := (l + r) / 2.0, (l - r) / 2.0;
      var side' := side * ((u.width + 100.0) / 100.0);
      (mid + side', mid - side')
  }

  /** Phase inversion of either channel. */
  function Invert(u: Settings, lr: (real, real)): (real, real)
  {
    (if u.invertLeft then -lr.0 else lr.0, if u.invertRight then -lr.1 else lr.1)
  }

  /** One frame of Process. */
  function Out(u: Settings, l: real, r: real): (real, real)
  {
    var w := Invert(u, Widen(u, l, r));
    (w.0 * u.leftVolume * PanLeft(u.pan), w.1 * u.rightVolume * PanRight(u.pan))
  }

  function Frame(u: Settings): FrameFn
  {
    (l: real, r: real) => Out(u, l, r)
  }

  /**
   * Process(buffer, buffer, samplesRead) as the chain calls it: frames from
   * index 0; nothing at or beyond the loop's range changes.
   */
  function Process(u: Settings, buf: seq<real>, samplesRead: nat): (r: Result<seq<real>>)
    ensures r.Ok? <==> Span(samplesRead) <= |buf|
    ensures r.Ok? ==> |r.value| == |buf|
    ensures r.Ok? ==> forall j :: Span(samplesRead) <= j < |buf| ==> r.value[j] == buf[j]
  {
    MapFrames(buf, 0, samplesRead, Frame(u))
  }

  /** SetGain: both volumes take the gain, nothing else changes. */
  function SetGain(u: Settings, gain: real): (u': Settings)
    ensures u'.leftVolume == gain && u'.rightVolume == gain
    ensures u' == u.(leftVolume := gain, rightVolume := gain)
  {
    Settings(gain, gain, u.pan, u.width, u.mono, u.invertLeft, u.invertRight)
  }

  /**
   * In mono mode without inversion, Process writes each frame's average to
   * both channels, scaled by that channel's volume and pan gain; centred and
   * at equal volumes the two channels come out identical.
   */
  lemma MonoFolds(u: Settings, buf: seq<real>, samplesRead: nat, k: nat)
    requires u.mono && !u.invertLeft && !u.invertRight
    requires Span(samplesRead) <= |buf| && k < Span(samplesRead) / 2
    ensures Process(u, buf, samplesRead).Ok?
    ensures var o := Process(u, buf, samplesRead).value;
      var avg := (buf[2 * k] + buf[2 * k + 1]) / 2.0;
      o[2 * k] == avg * u.leftVolume * PanLeft(u.pan) && o[2 * k + 1] == avg * u.rightVolume * PanRight(u.pan)
    ensures u.pan == 0.0 && u.leftVolume == u.rightVolume ==>
      Process(u, buf, samplesRead).value[2 * k] == Process(u, buf, samplesRead).value[2 * k + 1]
  {
    var a, b := buf[2 * k], buf[2 * k + 1];
    assert Frame(u)(a, b) == Out(u, a, b);
  }

  /** Width 0 reproduces the input; width -100 collapses both channels to the mid. */
  lemma WidthExtremes(u: Settings, l: real, r: real)
    requires !u.mono
    ensures u.width == 0.0 ==> Widen(u, l, r) == (l, r)
    ensures u.width == -100.0 ==> Widen(u, l, r) == ((l + r) / 2.0, (l + r) / 2.0)
  {
  }

  /** Inverting a channel negates exactly that channel of the output frame. */
  lemma InvertNegates(u: Settings, l: real, r: real)
    ensures Out(u.(invertLeft := !u.invertLeft), l, r).0 == -Out(u, l, r).0
    ensures Out(u.(invertLeft := !u.invertLeft), l, r).1 == Out(u, l, r).1
    ensures Out(u.(invertRight := !u.invertRight), l, r).1 == -Out(u, l, r).1
    ensures Out(u.(invertRight := !u.invertRight), l, r).0 == Out(u, l, r).0
  {
    InvertLeft(u, l, r);
    InvertRight(u, l, r);
  }

  lemma InvertLeft(u: Settings, l: real, r: real)
    ensures Out(u.(invertLeft := !u.invertLeft), l, r).0 == -Out(u, l, r).0
    ensures Out(u.(invertLeft := !u.invertLeft), l, r).1 == Out(u, l, r).1
  {
    var u' := u.(invertLeft := !u.invertLeft);
    var w := Widen(u, l, r);
    assert Widen(u', l, r) == w;
    var a := Invert(u, w).0;
    assert Invert(u', w).0 == -a && Invert(u', w).1 == Invert(u, w).1;
    NegScale(a, u.leftVolume, PanLeft(u.pan));
  }

  lemma InvertRight(u: Settings, l: real, r: real)
    ensures Out(u.(invertRight := !u.invertRight), l, r).1 == -Out(u, l, r).1
    ensures Out(u.(invertRight := !u.invertRight), l, r).0 == Out(u, l, r).0
  {
    var u' := u.(invertRight := !u.invertRight);
    var w := Widen(u, l, r);
    assert Widen(u', l, r) == w;
    var b := Invert(u, w).1;
    assert Invert(u', w).1 == -b && Invert(u', w).0 == Invert(u, w).0;
    NegScale(b, u.rightVolume, PanRight(u.pan));
  }

  lemma NegScale(a: real, b: real, c: real)
    ensures (-a) * b * c == -(a * b * c)
  {
  }

  /** After width and inversion, the utility applies StereoSampleProvider's volume and pan law. */
  lemma PanMatchesStereo(u: Settings, l: real, r: real)
    ensures var w := Invert(u, Widen(u, l, r));
      var st := Stereo.Stereo(u.leftVolume, u.rightVolume, u.pan);
      Out(u, l, r).0 == Stereo.Out(st, w.0, w.1).0 && Out(u, l, r).1 == Stereo.Out(st, w.0, w.1).1
  {
  }

  /** With the field initialisers Process is the identity. */
  lemma DefaultIsIdentity(buf: seq<real>, samplesRead: nat)
    requires Span(samplesRead) <= |buf|
    ensures Process(Default, buf, samplesRead) == Ok(buf)
  {
    forall l: real, r: real ensures Frame(Default)(l, r) == (l, r) {
      assert Frame(Default)(l, r) == Out(Default, l, r);
      WidthExtremes(Default, l, r);
    }
    MapFramesIdentity(buf, 0, samplesRead, Frame(Default));
  }
}
