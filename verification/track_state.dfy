/**
 * TrackStateSampleProvider (Lumix/Tracks/TrackStateSampleProvider.cs): the
 * last stage of a track, which silences the stream while its parent track is
 * disabled. The parent's Enabled flag is a parameter.
 */
module TrackState {
  import opened Wrappers
  import opened Buffers

  /** Pass a frame through, or replace it by silence. */
  function Gate(enabled: bool): FrameFn
  {
    (l: real, r: real) => if enabled then (l, r) else (0.0, 0.0)
  }

  /** Read after the source has filled samplesRead samples from offset. */
  function Read(enabled: bool, buf: seq<real>, offset: nat, samplesRead: nat): (r: Result<seq<real>>)
    ensures r.Ok? <==> Fits(buf, offset, samplesRead)
    ensures r.Ok? ==> |r.value| == |buf|
    ensures r.Ok? ==> forall j :: 0 <= j < |buf| && !(offset <= j < offset + Span(samplesRead)) ==> r.value[j] == buf[j]
  {
    MapFrames(buf, offset, samplesRead, Gate(enabled))
  }

  /** An enabled track leaves the buffer as it is. */
  lemma EnabledPassesThrough(buf: seq<real>, offset: nat, samplesRead: nat)
    requires offset + Span(samplesRead) <= |buf|
    ensures Read(true, buf, offset, samplesRead) == Ok(buf)
  {
    MapFramesIdentity(buf, offset, samplesRead, Gate(true));
  }

  /** A disabled track zeroes every sample of the loop's range. */
  lemma DisabledSilences(buf: seq<real>, offset: nat, samplesRead: nat)
    requires offset + Span(samplesRead) <= |buf|
    ensures forall j :: offset <= j < offset + Span(samplesRead) ==> Read(false, buf, offset, samplesRead).value[j] == 0.0
  {
    var r := Read(false, buf, offset, samplesRead).value;
    forall j | offset <= j < offset + Span(samplesRead) ensures r[j] == 0.0 {
      var k := (j - offset) / 2;
      assert j == offset + 2 * k || j == offset + 2 * k + 1;
    }
  }

  /** With an even samplesRead the gate touches exactly [offset, offset + samplesRead). */
  lemma EvenReadStaysInRange(buf: seq<real>, offset: nat, samplesRead: nat)
    requires samplesRead % 2 == 0 && offset + samplesRead <= |buf|
    ensures Read(false, buf, offset, samplesRead).Ok?
    ensures forall j :: 0 <= j < |buf| && !(offset <= j < offset + samplesRead) ==>
      Read(false, buf, offset, samplesRead).value[j] == buf[j]
  {
  }

  /** An odd samplesRead makes the loop read one sample past the range; at the buffer's end that throws. */
  lemma OddReadAtEndFails(buf: seq<real>, offset: nat, samplesRead: nat, enabled: bool)
    requires samplesRead % 2 == 1 && offset + samplesRead == |buf|
    ensures Read(enabled, buf, offset, samplesRead) == Err(IndexOutOfRange)
  {
  }
}
