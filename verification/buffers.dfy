/**
 * Interleaved stereo sample buffers and the frame loop shared by the sample
 * stages (StereoSampleProvider, TrackStateSampleProvider, UtilityPlugin).
 * Samples are exact reals, not IEEE floats.
 *
 * Every stage runs `for (i = 0; i < samplesRead; i += 2)` over the frame
 * (buffer[offset + i], buffer[offset + i + 1]); with an odd samplesRead the
 * last frame reaches one sample past the read range, and the array access
 * throws when that sample lies beyond the buffer.
 */
module Buffers {
  import opened Wrappers

  /** A frame transform: (left, right) in, (left, right) out. */
  type FrameFn = (real, real) -> (real, real)

  /** The samples the frame loop touches: samplesRead rounded up to whole frames. */
  function Span(n: nat): (s: nat)
    ensures s % 2 == 0 && n <= s <= n + 1
  {
    n + n % 2
  }

  /** The first `frames` frames from offset rewritten by f, everything else as it was. */
  function Pairs(buf: seq<real>, offset: nat, frames: nat, f: FrameFn): (r: seq<real>)
    requires offset + 2 * frames <= |buf|
    ensures |r| == |buf|
    ensures forall j :: 0 <= j < |buf| && !(offset <= j < offset + 2 * frames) ==> r[j] == buf[j]
    ensures forall k :: 0 <= k < frames ==>
      r[offset + 2 * k] == f(buf[offset + 2 * k], buf[offset + 2 * k + 1]).0
      && r[offset + 2 * k + 1] == f(buf[offset + 2 * k], buf[offset + 2 * k + 1]).1
  {
    if frames == 0 then buf
    else
      var b := Pairs(buf, offset, frames - 1, f);
      var i := offset + 2 * (frames - 1);
      var p := f(buf[i], buf[i + 1]);
      b[i := p.0][i + 1 := p.1]
  }

  /**
   * Whether the frame loop stays inside the buffer: it does not run at all
   * when nothing was read, wherever offset lies; otherwise its last frame
   * must fit.
   */
  predicate Fits(buf: seq<real>, offset: nat, n: nat)
  {
    n == 0 || offset + Span(n) <= |buf|
  }

  /**
   * The frame loop over samplesRead samples from offset: fails with an index
   * error when the last frame does not fit the buffer, and otherwise changes
   * only the touched range.
   */
  function MapFrames(buf: seq<real>, offset: nat, n: nat, f: FrameFn): (r: Result<seq<real>>)
    ensures r.Ok? <==> Fits(buf, offset, n)
    ensures n == 0 ==> r == Ok(buf)
    ensures r.Err? ==> r.fault == IndexOutOfRange
    ensures r.Ok? ==> |r.value| == |buf|
    ensures r.Ok? ==> forall j :: 0 <= j < |buf| && !(offset <= j < offset + Span(n)) ==> r.value[j] == buf[j]
    ensures r.Ok? ==> forall k :: 0 <= k < Span(n) / 2 ==>
      r.value[offset + 2 * k] == f(buf[offset + 2 * k], buf[offset + 2 * k + 1]).0
      && r.value[offset + 2 * k + 1] == f(buf[offset + 2 * k], buf[offset + 2 * k + 1]).1
  {
    if n == 0 then Ok(buf)
    else if offset + Span(n) <= |buf| then Ok(Pairs(buf, offset, Span(n) / 2, f))
    else Err(IndexOutOfRange)
  }

  /** An identity frame transform leaves the buffer as it was. */
  lemma MapFramesIdentity(buf: seq<real>, offset: nat, n: nat, f: FrameFn)
    requires offset + Span(n) <= |buf|
    requires forall l, r :: f(l, r) == (l, r)
    ensures MapFrames(buf, offset, n, f) == Ok(buf)
  {
    var b := MapFrames(buf, offset, n, f).value;
    forall j | 0 <= j < |buf| ensures b[j] == buf[j] {
      if offset <= j < offset + Span(n) {
        var k := (j - offset) / 2;
        var i := offset + 2 * k;
        assert j == i || j == i + 1;
        assert k < Span(n) / 2;
        assert f(buf[i], buf[i + 1]) == (buf[i], buf[i + 1]);
      }
    }
    assert b == buf;
  }

  /** Pan attenuation of the left channel: full unless panned right. */
  function PanLeft(pan: real): real
  {
    if pan <= 0.0 then 1.0 else 1.0 - pan
  }

  /** Pan attenuation of the right channel: full unless panned left. */
  function PanRight(pan: real): real
  {
    if pan >= 0.0 then 1.0 else 1.0 + pan
  }

  /** Within the knob's range [-1, 1] the pan law only attenuates, and only one side. */
  lemma PanLaw(pan: real)
    requires -1.0 <= pan <= 1.0
    ensures 0.0 <= PanLeft(pan) <= 1.0 && 0.0 <= PanRight(pan) <= 1.0
    ensures PanLeft(pan) == 1.0 || PanRight(pan) == 1.0
    ensures pan == 0.0 ==> PanLeft(pan) == 1.0 && PanRight(pan) == 1.0
  {
  }
}
