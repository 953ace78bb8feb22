/**
 * The track engines (Lumix/Tracks/TrackEngine.cs and its three subclasses):
 * each owns a mixer and a fixed stage pipeline, and reacts to Fire,
 * recording and StopSounds according to its kind. Audio files, MIDI files,
 * playbacks and the recording device are opaque; their identities and the
 * parameters handed to them are what the model keeps.
 */
module Engines {
  import opened Wrappers
  import opened Mixing
  import opened TrackTypes
  import PluginChain
  import Stereo
  import TrackState
  import VstMidi
  import Buffers

  /** The stages of a sample pipeline. */
  datatype Stage = MixerStage | PluginChainStage | StereoStage | MeteringStage | TrackStateStage

  /** The pipeline every track engine builds, source first; GetTrackAudio is its last stage. */
  const TrackPipeline: seq<Stage> := [MixerStage, PluginChainStage, StereoStage, MeteringStage, TrackStateStage]

  /** A DryWetMidi playback of a MIDI file: its start (seconds) and speed. */
  datatype Playback = Playback(file: nat, start: real, speed: real)

  /** The per-kind state. */
  datatype Engine =
    | AudioEngine(id: nat, mixer: Mixer, recording: bool, recordId: nat)
    | MidiEngine(id: nat, mixer: Mixer, playing: bool, playback: Option<Playback>, sustain: bool)
    | GroupEngine(id: nat, mixer: Mixer)

  /** IsRecording: only an audio engine ever sets it. */
  predicate IsRecording(e: Engine)
  {
    e.AudioEngine? && e.recording
  }

  /** GetTrackAudio: the engine's TrackState stage, which is what other mixers are fed. */
  function Output(e: Engine): (s: Source)
    ensures s.TrackOutput? && s.engine == e.id
  {
    TrackOutput(e.id)
  }

  /** The engine a new track of the given kind builds: an IEEE float mixer, not playing, not recording. */
  function NewEngine(id: nat, kind: TrackType, sampleRate: int, channels: int): (e: Engine)
    ensures e.id == id && e.mixer == NewMixer(sampleRate, channels) && !IsRecording(e)
    ensures kind == Audio <==> e.AudioEngine?
    ensures kind == Midi <==> e.MidiEngine?
    ensures kind == Group <==> e.GroupEngine?
    ensures e.MidiEngine? ==> !e.playing && e.playback.None? && !e.sustain
  {
    match kind
    case Audio => AudioEngine(id, NewMixer(sampleRate, channels), false, 0)
    case Midi => MidiEngine(id, NewMixer(sampleRate, channels), false, None, false)
    case Group => GroupEngine(id, NewMixer(sampleRate, channels))
  }

  /** An audio file as AudioFileReader opens it: identity, wave format, total time in seconds. */
  datatype AudioFile = AudioFile(id: nat, format: Format, totalTime: real)

  /** The voice TrackAudioEngine.Fire builds: start at `offset`, play TotalTime - endOffset - offset seconds. */
  function Voice(f: AudioFile, offset: real, endOffset: real): (i: Input)
    ensures i.format == f.format
    ensures i.source == FileVoice(f.id, offset, f.totalTime - endOffset - offset)
  {
    Input(FileVoice(f.id, offset, f.totalTime - endOffset - offset), f.format)
  }

  /**
   * Fire(audioFile): an audio engine offers the trimmed voice to its mixer
   * (format check first, as Mixing.AdmitAsWritten); a MIDI engine throws;
   * a group engine does nothing.
   */
  function FireAudio(e: Engine, f: AudioFile, offset: real, endOffset: real): (r: Result<Engine>)
    ensures e.MidiEngine? ==> r == Err(NotImplemented)
    ensures e.GroupEngine? ==> r == Ok(e)
    ensures e.AudioEngine? ==> r.Ok? && r.value.AudioEngine? && r.value.id == e.id
    ensures e.AudioEngine? ==> r.value.recording == e.recording && r.value.mixer.format == e.mixer.format
    ensures e.AudioEngine? && f.format != e.mixer.format ==> r == Ok(e)
    ensures e.AudioEngine? && f.format == e.mixer.format ==>
      r.value.mixer.inputs == e.mixer.inputs + [FileVoice(f.id, offset, f.totalTime - endOffset - offset)]
  {
    match e
    case MidiEngine(_, _, _, _, _) => Err(NotImplemented)
    case GroupEngine(_, _) => Ok(e)
    case AudioEngine(id, m, recording, recordId) =>
      match AdmitAsWritten(m, Voice(f, offset, endOffset))
      case Err(fault) => Err(fault)
      case Ok(offer) => Ok(AudioEngine(id, offer.mixer, recording, recordId))
  }

  /**
   * Fire(midiFile): a MIDI engine starts a new playback at `offset` seconds
   * with speed Bpm/120 unless one is already playing (endOffset is unused);
   * an audio engine throws; a group engine does nothing.
   */
  function FireMidi(e: Engine, file: nat, offset: real, endOffset: real, bpm: real): (r: Result<Engine>)
    ensures e.AudioEngine? ==> r == Err(NotImplemented)
    ensures e.GroupEngine? ==> r == Ok(e)
    ensures e.MidiEngine? && e.playing ==> r == Ok(e)
    ensures e.MidiEngine? && !e.playing ==>
      r.Ok? && r.value == e.(playing := true, playback := Some(Playback(file, offset, bpm / 120.0)))
  {
    match e
    case AudioEngine(_, _, _, _) => Err(NotImplemented)
    case GroupEngine(_, _) => Ok(e)
    case MidiEngine(_, _, playing, _, _) =>
      if playing then Ok(e)
      else Ok(e.(playing := true, playback := Some(Playback(file, offset, bpm / 120.0))))
  }

  /** StartRecording: an audio engine opens a recording under a fresh identity; a MIDI engine throws; a group ignores it. */
  function StartRecording(e: Engine, recordId: nat): (r: Result<Engine>)
    ensures e.AudioEngine? ==> r == Ok(e.(recording := true, recordId := recordId))
    ensures e.MidiEngine? ==> r == Err(NotImplemented)
    ensures e.GroupEngine? ==> r == Ok(e)
  {
    match e
    case AudioEngine(_, _, _, _) => Ok(e.(recording := true, recordId := recordId))
    case MidiEngine(_, _, _, _, _) => Err(NotImplemented)
    case GroupEngine(_, _) => Ok(e)
  }

  /** A clip the audio engine creates from a recording: the recorded file and its start tick. */
  datatype Recorded = Recorded(file: nat, startTick: int)

  /**
   * StopRecording(destTrack): an audio engine stops recording and appends one
   * clip of the recorded file at tick 0 to the destination's clips; a MIDI
   * engine throws; a group engine changes nothing.
   */
  function StopRecording(e: Engine, dest: seq<Recorded>): (r: Result<(Engine, seq<Recorded>)>)
    ensures e.AudioEngine? ==>
      (r.Ok? && !IsRecording(r.value.0) && r.value.0.mixer == e.mixer && r.value.1 == dest + [Recorded(e.recordId, 0)])
    ensures e.MidiEngine? ==> r == Err(NotImplemented)
    ensures e.GroupEngine? ==> r == Ok((e, dest))
  {
    match e
    case AudioEngine(_, _, _, recordId) => Ok((e.(recording := false), dest + [Recorded(recordId, 0)]))
    case MidiEngine(_, _, _, _, _) => Err(NotImplemented)
    case GroupEngine(_, _) => Ok((e, dest))
  }

  /** StopSounds: an audio engine empties its mixer, a MIDI engine stops its playback, a group engine does nothing. */
  function StopSounds(e: Engine): (e': Engine)
    ensures e.AudioEngine? ==> e' == AudioEngine(e.id, RemoveAll(e.mixer), e.recording, e.recordId)
    ensures e.MidiEngine? ==> e' == e.(playing := false)
    ensures e.GroupEngine? ==> e' == e
  {
    match e
    case AudioEngine(id, m, recording, recordId) => AudioEngine(id, RemoveAll(m), recording, recordId)
    case MidiEngine(_, _, _, _, _) => e.(playing := false)
    case GroupEngine(_, _) => e
  }

  /** After StopSounds a MIDI engine accepts the next Fire: a new playback starts. */
  lemma StopThenFireRestarts(e: Engine, file: nat, offset: real, endOffset: real, bpm: real)
    requires e.MidiEngine?
    ensures FireMidi(StopSounds(e), file, offset, endOffset, bpm).value.playback == Some(Playback(file, offset, bpm / 120.0))
  {
  }

  /** A seven-bit MIDI number (SevenBitNumber). */
  type Seven = x: int | 0 <= x < 128

  /** The events a playback reports through EventPlayed. */
  datatype MidiEvent =
    | NoteOnEvent(note: Seven, velocity: Seven)
    | NoteOffEvent(note: Seven, velocity: Seven)
    | ControlChangeEvent(control: Seven, value: Seven)
    | OtherEvent

  /** `PluginInstrument?.GetPlugin<VstPlugin>()`: the hosted plugin behind a VST instrument, if any. */
  function InstrumentPlugin(chain: PluginChain.Chain, plugins: nat -> VstMidi.VstPlugin): (v: Option<VstMidi.VstPlugin>)
    ensures v.Some? <==> chain.instrument.Some? && chain.instrument.value.kind.Vst?
  {
    if chain.instrument.Some? && PluginChain.HostedPlugin(chain.instrument.value).Some?
    then Some(plugins(chain.instrument.value.id)) else None
  }

  /** What a forwarded event reads as, by the MIDI 1.0 tables, given the sustain flag after it. */
  function Expected(ev: MidiEvent, sustain: bool): VstMidi.Voice
  {
    match ev
    case NoteOnEvent(n, v) => VstMidi.NoteOnMsg(0, n, v)
    case NoteOffEvent(n, v) => VstMidi.NoteOffMsg(0, n, v)
    case _ => VstMidi.ControlChange(0, 64, if sustain then 127 else 0)
  }

  /** What a sender hands the plugin: nothing without a plugin, else what the plugin's sender sends. */
  predicate Forwarded(plugin: Option<VstMidi.VstPlugin>, sent: seq<seq<VstMidi.Byte>>, expected: VstMidi.Voice)
  {
    && |sent| <= 1
    && (plugin.None? ==> sent == [])
    && (plugin.Some? ==> (sent == [] <==> plugin.value.context.None?))
    && forall i :: 0 <= i < |sent| ==> VstMidi.Parse(sent[i]) == Some(expected)
  }

  /** Seven-bit numbers are their own remainders modulo 128. */
  lemma SevenBits(n: Seven, v: Seven)
    ensures n % 128 == n && v % 128 == v && 0 % 16 == 0
  {
  }

  /** SendNoteOnEvent(0, note, velocity). */
  function SendNoteOnEvent(plugin: Option<VstMidi.VstPlugin>, n: Seven, v: Seven): (sent: seq<seq<VstMidi.Byte>>)
    ensures Forwarded(plugin, sent, VstMidi.NoteOnMsg(0, n, v))
  {
    if plugin.None? then [] else
      var sent := VstMidi.SendNoteOn(plugin.value, 0, n, v);
      SevenBits(n, v);
      assert forall i :: 0 <= i < |sent| ==> VstMidi.Parse(sent[i]) == Some(VstMidi.NoteOnMsg(0, n, v));
      sent
  }

  /** SendNoteOffEvent(0, note, velocity). */
  function SendNoteOffEvent(plugin: Option<VstMidi.VstPlugin>, n: Seven, v: Seven): (sent: seq<seq<VstMidi.Byte>>)
    ensures Forwarded(plugin, sent, VstMidi.NoteOffMsg(0, n, v))
  {
    if plugin.None? then [] else
      var sent := VstMidi.SendNoteOff(plugin.value, 0, n, v);
      SevenBits(n, v);
      assert forall i :: 0 <= i < |sent| ==> VstMidi.Parse(sent[i]) == Some(VstMidi.NoteOffMsg(0, n, v));
      sent
  }

  /** SendSustainPedalEvent(0, state). */
  function SendSustainPedalEvent(plugin: Option<VstMidi.VstPlugin>, pressed: bool): (sent: seq<seq<VstMidi.Byte>>)
    ensures Forwarded(plugin, sent, VstMidi.ControlChange(0, 64, if pressed then 127 else 0))
  {
    if plugin.None? then [] else VstMidi.SendSustainPedal(plugin.value, 0, pressed)
  }

  /**
   * The EventPlayed handler of a MIDI engine's playback: note on and note off
   * go to the instrument on channel 0 unchanged; controller 64 sets the
   * sustain flag to `value >= 64` and forwards it; every other event,
   * controller 7 included, changes nothing and sends nothing.
   */
  function EventPlayed(e: Engine, plugin: Option<VstMidi.VstPlugin>, ev: MidiEvent): (r: (Engine, seq<seq<VstMidi.Byte>>))
    requires e.MidiEngine?
    ensures r.0.MidiEngine? && r.0.mixer == e.mixer && r.0.playing == e.playing && r.0.playback == e.playback
    ensures ev.ControlChangeEvent? && ev.control == 64 ==> r.0.sustain == (ev.value >= 64)
    ensures !(ev.ControlChangeEvent? && ev.control == 64) ==> r.0 == e
    ensures ev.OtherEvent? || (ev.ControlChangeEvent? && ev.control != 64) ==> r.1 == []
    ensures !ev.OtherEvent? && !(ev.ControlChangeEvent? && ev.control != 64) ==> Forwarded(plugin, r.1, Expected(ev, r.0.sustain))
  {
    match ev
    case NoteOnEvent(n, v) => (e, SendNoteOnEvent(plugin, n, v))
    case NoteOffEvent(n, v) => (e, SendNoteOffEvent(plugin, n, v))
    case ControlChangeEvent(c, v) =>
      if c == 64 then
        var pressed := v >= 64;
        (e.(sustain := pressed), SendSustainPedalEvent(plugin, pressed))
      else (e, [])
    case OtherEvent => (e, [])
  }

  /** The calls the transport and the scheduler make on an engine. */
  datatype Call =
    | FireAudioCall(f: AudioFile, offset: real, endOffset: real)
    | FireMidiCall(file: nat, offset: real, endOffset: real, bpm: real)
    | StartRecordingCall(recordId: nat)
    | StopRecordingCall
    | StopSoundsCall

  function Apply(e: Engine, c: Call): (r: Result<Engine>)
    ensures r.Ok? ==> r.value.id == e.id
  {
    match c
    case FireAudioCall(f, o, eo) => FireAudio(e, f, o, eo)
    case FireMidiCall(file, o, eo, bpm) => FireMidi(e, file, o, eo, bpm)
    case StartRecordingCall(id) => StartRecording(e, id)
    case StopRecordingCall => (match StopRecording(e, []) case Ok(p) => Ok(p.0) case Err(f) => Err(f))
    case StopSoundsCall => Ok(StopSounds(e))
  }

  /** A sequence of calls, stopping at the first that throws. */
  function ApplyAll(e: Engine, cs: seq<Call>): (r: Result<Engine>)
    decreases |cs|
  {
    if |cs| == 0 then Ok(e)
    else match Apply(e, cs[0])
      case Err(f) => Err(f)
      case Ok(e') => ApplyAll(e', cs[1..])
  }

  /** A group engine ignores every call: whatever the transport does, it never plays, throws or records. */
  lemma {:induction false} GroupIgnoresCalls(e: Engine, cs: seq<Call>)
    requires e.GroupEngine?
    ensures ApplyAll(e, cs) == Ok(e)
    ensures !IsRecording(e)
    decreases |cs|
  {
    if |cs| > 0 {
      GroupIgnoresCalls(e, cs[1..]);
    }
  }

  /** A MIDI engine never records: no call sequence that succeeds leaves it recording. */
  lemma {:induction false} MidiNeverRecords(e: Engine, cs: seq<Call>)
    requires e.MidiEngine?
    ensures ApplyAll(e, cs).Ok? ==> ApplyAll(e, cs).value.MidiEngine? && !IsRecording(ApplyAll(e, cs).value)
    decreases |cs|
  {
    if |cs| > 0 {
      match Apply(e, cs[0])
      case Err(_) =>
      case Ok(e') => MidiNeverRecords(e', cs[1..]);
    }
  }

  /** The engine's pipeline on a buffer the mixer has just filled: chain, stereo, metering (a pass-through), gate. */
  function TrackRead(enabled: bool, chain: PluginChain.Chain, st: Stereo.Stereo, hosted: PluginChain.Hosted,
                     buf: seq<real>, offset: nat, count: nat, samplesRead: nat): (r: Result<seq<real>>)
    ensures r.Ok? ==> |r.value| == |buf|
    ensures r.Ok? ==> forall j :: 0 <= j < |buf| && !(offset <= j < offset + Buffers.Span(samplesRead)) ==> r.value[j] == buf[j]
  {
    PluginChain.ReadFrame(chain, buf, offset, count, samplesRead, hosted);
    match PluginChain.Read(chain, buf, offset, count, samplesRead, hosted)
    case Err(f) => Err(f)
    case Ok(b1) =>
      match Stereo.Read(st, b1, offset, samplesRead)
      case Err(f) => Err(f)
      case Ok(b2) => TrackState.Read(enabled, b2, offset, samplesRead)
  }

  /** The gate is the last stage: a disabled track outputs silence whatever its plugins and stereo settings do. */
  lemma DisabledTrackIsSilent(chain: PluginChain.Chain, st: Stereo.Stereo, hosted: PluginChain.Hosted,
                              buf: seq<real>, offset: nat, count: nat, samplesRead: nat)
    ensures var r := TrackRead(false, chain, st, hosted, buf, offset, count, samplesRead);
      r.Ok? ==> forall j :: offset <= j < offset + Buffers.Span(samplesRead) ==> r.value[j] == 0.0
  {
    match PluginChain.Read(chain, buf, offset, count, samplesRead, hosted)
    case Err(_) =>
    case Ok(b1) =>
      match Stereo.Read(st, b1, offset, samplesRead)
      case Err(_) =>
      case Ok(b2) =>
        if samplesRead > 0 {
          TrackState.DisabledSilences(b2, offset, samplesRead);
        }
  }
}
