/**
 * NAudio mixers as the engines use them: a fixed wave format and an ordered
 * list of inputs. Inputs are opaque sources; only their identity and wave
 * format matter here. Summation itself is not modelled.
 */
module Mixing {
  import opened Wrappers
  import opened Seqs

  /** A wave format: IEEE float or not, channel count, sample rate (WaveFormat.Equals compares all of them). */
  datatype Format = Format(ieeeFloat: bool, channels: int, sampleRate: int)

  /** WaveFormat.CreateIeeeFloatWaveFormat. */
  function IeeeFloat(sampleRate: int, channels: int): (f: Format)
    ensures f.ieeeFloat && f.channels == channels && f.sampleRate == sampleRate
  {
    Format(true, channels, sampleRate)
  }

  /** What a mixer can be fed. */
  datatype Source =
    | FileVoice(file: nat, start: real, length: real)   // an audio file read from `start` seconds for `length` seconds
    | Cached(sound: nat)                                 // a cached sound
    | MonoToStereo(inner: Source)                        // NAudio's mono-to-stereo upmix of a source
    | TrackOutput(engine: nat)                           // an engine's GetTrackAudio, its TrackState stage
    | PreviewBus                                         // the preview engine's own mixer

  /** A source together with the wave format it delivers. */
  datatype Input = Input(source: Source, format: Format)

  datatype Mixer = Mixer(format: Format, inputs: seq<Source>)

  /** A new MixingSampleProvider: IEEE float at the given rate and channel count, no inputs. */
  function NewMixer(sampleRate: int, channels: int): (m: Mixer)
    ensures m.format == IeeeFloat(sampleRate, channels) && m.inputs == []
  {
    Mixer(IeeeFloat(sampleRate, channels), [])
  }

  /** AddMixerInput: the source joins at the end. */
  function Add(m: Mixer, s: Source): (m': Mixer)
    ensures m'.format == m.format
    ensures m'.inputs == m.inputs + [s]
    ensures multiset(m'.inputs) == multiset(m.inputs) + multiset{s}
  {
    m.(inputs := m.inputs + [s])
  }

  /** RemoveMixerInput: the first occurrence leaves, the others keep their order. */
  function Remove(m: Mixer, s: Source): (m': Mixer)
    ensures m'.format == m.format
    ensures multiset(m'.inputs) == multiset(m.inputs) - multiset{s}
    ensures s !in m.inputs ==> m' == m
    ensures s in m.inputs ==>
      var k := IndexOf(m.inputs, s);
      m'.inputs == m.inputs[..k] + m.inputs[k + 1..]
  {
    assert s in m.inputs ==> RemoveFirst(m.inputs, s) == m.inputs[..IndexOf(m.inputs, s)] + m.inputs[IndexOf(m.inputs, s) + 1..] by {
      if s in m.inputs { RemoveFirstSplits(m.inputs, s); }
    }
    m.(inputs := RemoveFirst(m.inputs, s))
  }

  /** RemoveAllMixerInputs. */
  function RemoveAll(m: Mixer): (m': Mixer)
    ensures m'.format == m.format && m'.inputs == []
  {
    m.(inputs := [])
  }

  /**
   * ConvertToRightChannelCount (the same in TrackAudioEngine and
   * AudioPreviewEngine): equal channel counts pass through, mono into a
   * stereo mixer is upmixed to IEEE float stereo at the input's rate, any
   * other pair is not implemented.
   */
  function Convert(input: Input, mixer: Format): (r: Result<Input>)
    ensures r.Ok? <==> input.format.channels == mixer.channels || (input.format.channels == 1 && mixer.channels == 2)
    ensures r.Err? ==> r.fault == NotImplemented
    ensures r.Ok? ==> r.value.format.channels == mixer.channels
    ensures r.Ok? && input.format.channels == mixer.channels ==> r.value == input
    ensures r.Ok? && input.format.channels != mixer.channels ==>
      r.value == Input(MonoToStereo(input.source), IeeeFloat(input.format.sampleRate, 2))
  {
    if input.format.channels == mixer.channels then Ok(input)
    else if input.format.channels == 1 && mixer.channels == 2 then
      Ok(Input(MonoToStereo(input.source), IeeeFloat(input.format.sampleRate, 2)))
    else Err(NotImplemented)
  }

  /** The outcome of offering an input: the mixer afterwards and whether the format warning was shown. */
  datatype Offer = Offer(mixer: Mixer, warned: bool)

  /**
   * The admission both engines use, as written: compare the input's format
   * with the mixer's first, and only then convert the channel count.
   */
  function AdmitAsWritten(m: Mixer, input: Input): (r: Result<Offer>)
    ensures input.format != m.format ==> r == Ok(Offer(m, true))
    ensures input.format == m.format ==> r == Ok(Offer(Add(m, input.source), false))
  {
    if input.format != m.format then Ok(Offer(m, true))
    else
      match Convert(input, m.format)
      case Err(f) => Err(f)
      case Ok(converted) => Ok(Offer(Add(m, converted.source), false))
  }

  /** As written, an admitted input is never upmixed: a mono input never reaches a stereo mixer. */
  lemma AsWrittenNeverUpmixes(m: Mixer, input: Input)
    requires input.format.channels == 1 && m.format.channels == 2
    ensures AdmitAsWritten(m, input) == Ok(Offer(m, true))
  {
  }

  /** The input that shows it: a mono IEEE float file at the mixer's 44100 Hz is refused by a stereo mixer. */
  lemma MonoFileRefused()
    ensures AdmitAsWritten(NewMixer(44100, 2), Input(FileVoice(0, 0.0, 1.0), IeeeFloat(44100, 1)))
         == Ok(Offer(NewMixer(44100, 2), true))
    ensures Convert(Input(FileVoice(0, 0.0, 1.0), IeeeFloat(44100, 1)), IeeeFloat(44100, 2)).Ok?
  {
  }

  /**
   * The admission as evidently intended: convert the channel count first,
   * then compare the converted format with the mixer's.
   */
  function Admit(m: Mixer, input: Input): (r: Result<Offer>)
    ensures r.Err? <==> !(input.format.channels == m.format.channels || (input.format.channels == 1 && m.format.channels == 2))
    ensures r.Ok? ==> r.value.mixer.format == m.format
    ensures r.Ok? && r.value.warned ==> r.value.mixer == m
    ensures r.Ok? && !r.value.warned ==>
      r.value.mixer.inputs == m.inputs + [input.source] || r.value.mixer.inputs == m.inputs + [MonoToStereo(input.source)]
  {
    match Convert(input, m.format)
    case Err(f) => Err(f)
    case Ok(converted) =>
      if converted.format != m.format then Ok(Offer(m, true))
      else Ok(Offer(Add(m, converted.source), false))
  }

  /** With the conversion first, a mono IEEE float input at the stereo float mixer's rate is upmixed and added. */
  lemma MonoIsUpmixed(m: Mixer, input: Input)
    requires m.format == IeeeFloat(m.format.sampleRate, 2)
    requires input.format == IeeeFloat(m.format.sampleRate, 1)
    ensures Admit(m, input) == Ok(Offer(Add(m, MonoToStereo(input.source)), false))
  {
  }

  /** On inputs whose channel count already matches, the intended order and the written order agree. */
  lemma AdmitAgreesOnMatchingChannels(m: Mixer, input: Input)
    requires input.format.channels == m.format.channels
    ensures Admit(m, input) == AdmitAsWritten(m, input)
  {
  }
}
