/**
 * StereoSampleProvider (Lumix/SampleProviders/StereoSampleProvider.cs): a
 * volume and pan stage over an interleaved stereo stream.
 */
module Stereo {
  import opened Wrappers
  import opened Buffers

  datatype Stereo = Stereo(leftVolume: real, rightVolume: real, pan: real)

  /** A fresh stage: unit volumes, centred. */
  const Default := Stereo(1.0, 1.0, 0.0)

  /** The constructor: only a two-channel source is accepted. */
  function Create(channels: int): (r: Result<Stereo>)
    ensures r.Ok? <==> channels == 2
    ensures r.Ok? ==> r.value == Default
    ensures r.Err? ==> r.fault == ArgumentFault
  {
    if channels != 2 then Err(ArgumentFault) else Ok(Default)
  }

  /** Volume and pan law for one frame. */
  function Out(st: Stereo, l: real, r: real): (real, real)
  {
    (l * st.leftVolume * PanLeft(st.pan), r * st.rightVolume * PanRight(st.pan))
  }

  function Frame(st: Stereo): FrameFn
  {
    (l: real, r: real) => Out(st, l, r)
  }

  /**
   * Read after the source has filled samplesRead samples from offset: each
   * frame's left sample is scaled by the left volume and left pan gain, the
   * right by the right ones; samples outside the loop's range are untouched.
   */
  function Read(st: Stereo, buf: seq<real>, offset: nat, samplesRead: nat): (r: Result<seq<real>>)
    ensures r.Ok? <==> Fits(buf, offset, samplesRead)
    ensures r.Ok? ==> |r.value| == |buf|
    ensures r.Ok? ==> forall j :: 0 <= j < |buf| && !(offset <= j < offset + Span(samplesRead)) ==> r.value[j] == buf[j]
    ensures r.Ok? ==> forall k :: 0 <= k < Span(samplesRead) / 2 ==>
      r.value[offset + 2 * k] == buf[offset + 2 * k] * st.leftVolume * PanLeft(st.pan)
      && r.value[offset + 2 * k + 1] == buf[offset + 2 * k + 1] * st.rightVolume * PanRight(st.pan)
  {
    MapFrames(buf, offset, samplesRead, Frame(st))
  }

  /** SetGain: both volumes take the gain; the pan is kept. */
  function SetGain(st: Stereo, gain: real): (st': Stereo)
    ensures st'.leftVolume == gain && st'.rightVolume == gain && st'.pan == st.pan
  {
    st.(leftVolume := gain, rightVolume := gain)
  }

  /** A fresh stage passes the stream through unchanged. */
  lemma DefaultIsIdentity(buf: seq<real>, offset: nat, samplesRead: nat)
    requires offset + Span(samplesRead) <= |buf|
    ensures Read(Default, buf, offset, samplesRead) == Ok(buf)
  {
    MapFramesIdentity(buf, offset, samplesRead, Frame(Default));
  }

  /** After SetGain(g) on a centred stage, every sample in the loop's range is scaled by g. */
  lemma CentredGainScales(st: Stereo, gain: real, buf: seq<real>, offset: nat, samplesRead: nat, j: int)
    requires st.pan == 0.0 && offset + Span(samplesRead) <= |buf|
    requires offset <= j < offset + Span(samplesRead)
    ensures Read(SetGain(st, gain), buf, offset, samplesRead).value[j] == gain * buf[j]
  {
    var k := (j - offset) / 2;
    assert j == offset + 2 * k || j == offset + 2 * k + 1;
  }
}
