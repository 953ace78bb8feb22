/**
 * The sidebar's sound preview (Lumix/Views/Sidebar/Preview/AudioPreviewEngine.cs):
 * a mixer of its own, fed into the master mixer, that plays files and cached
 * sounds.
 */
module Preview {
  import opened Wrappers
  import opened Mixing
  import Master

  datatype PreviewEngine = PreviewEngine(mixer: Mixer)

  /** The constructor: an IEEE float mixer whose output is added to the master mixer. */
  function Create(sampleRate: int, channels: int, master: Master.MasterEngine): (r: (PreviewEngine, Master.MasterEngine))
    ensures r.0.mixer == NewMixer(sampleRate, channels)
    ensures r.1.mixer.inputs == master.mixer.inputs + [PreviewBus]
  {
    (PreviewEngine(NewMixer(sampleRate, channels)), Master.MasterEngine(Add(master.mixer, PreviewBus)))
  }

  /** StopSound: no inputs left. */
  function StopSound(p: PreviewEngine): (p': PreviewEngine)
    ensures p'.mixer.format == p.mixer.format && p'.mixer.inputs == []
  {
    PreviewEngine(RemoveAll(p.mixer))
  }

  /**
   * AddMixerInput: the format check comes first (Mixing.AdmitAsWritten), so a
   * mismatch only raises the warning and an accepted input is never converted.
   */
  function AddMixerInput(p: PreviewEngine, input: Input): (r: Result<(PreviewEngine, bool)>)
    ensures r.Ok?
    ensures r.value.1 <==> input.format != p.mixer.format
    ensures r.value.1 ==> r.value.0 == p
    ensures !r.value.1 ==> r.value.0.mixer == p.mixer.(inputs := p.mixer.inputs + [input.source])
  {
    match AdmitAsWritten(p.mixer, input)
    case Err(f) => Err(f)
    case Ok(offer) => Ok((PreviewEngine(offer.mixer), offer.warned))
  }

  /**
   * PlaySound(fileName, isPreview): a preview first stops whatever was
   * playing; the whole file is offered. PlaySound(audioFile) reopens the file
   * by name and is this with isPreview false.
   */
  function PlaySound(p: PreviewEngine, file: nat, format: Format, totalTime: real, isPreview: bool): (r: Result<(PreviewEngine, bool)>)
    ensures r.Ok? && (r.value.1 <==> format != p.mixer.format)
    ensures var q := if isPreview then StopSound(p) else p;
      r.value.0.mixer.inputs == q.mixer.inputs + (if r.value.1 then [] else [FileVoice(file, 0.0, totalTime)])
    ensures r.value.0.mixer.format == p.mixer.format
    ensures isPreview && !r.value.1 ==> r.value.0.mixer.inputs == [FileVoice(file, 0.0, totalTime)]
    ensures !isPreview && r.value.1 ==> r.value.0 == p
  {
    AddMixerInput(if isPreview then StopSound(p) else p, Input(FileVoice(file, 0.0, totalTime), format))
  }

  /** PlaySound(CachedSound): the cached sound is offered as it is. */
  function PlayCached(p: PreviewEngine, sound: nat, format: Format): (r: Result<(PreviewEngine, bool)>)
    ensures r.Ok? && (r.value.1 <==> format != p.mixer.format)
    ensures r.value.1 ==> r.value.0 == p
    ensures !r.value.1 ==> r.value.0.mixer == p.mixer.(inputs := p.mixer.inputs + [Cached(sound)])
  {
    AddMixerInput(p, Input(Cached(sound), format))
  }

  /** A preview leaves at most the new sound playing. */
  lemma PreviewPlaysAlone(p: PreviewEngine, file: nat, format: Format, totalTime: real)
    ensures var r := PlaySound(p, file, format, totalTime, true);
      r.Ok? ==> |r.value.0.mixer.inputs| <= 1
  {
  }
}
