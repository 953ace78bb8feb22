# Lumix core, modelled in Dafny

Lumix is a small digital audio workstation. It has an arrangement of audio, MIDI and group tracks on a timeline, and a piano roll for editing MIDI clips. Its audio path is a chain of NAudio sample providers feeding a master mixer. This project models the core of that program as pure Dafny functions and methods over immutable datatypes, and proves what the code promises about each operation.

The model has six parts.

- **Piano-roll note algebra** (`notes`, `overlaps`, `piano_roll`, `piano_keys`, `midi_export`). Notes live in a heap of identities with a selection. The model covers adding, removing, selecting, moving, resizing, duplicating and splitting notes, the keyboard shortcuts, and overlap resolution. Overlap resolution carves every overlapped note around the selected ones. The clip is exported back into a MIDI track chunk.
- **Sample-buffer stages** (`buffers`, `stereo`, `track_state`, `utility`). These are the in-place frame loops of the stereo panner, the track state provider (mute, solo, volume, pan) and the utility plugin. Each is a pure function from buffer to buffer, with its index-out-of-range error.
- **Plugin chain and device editing** (`plugin_chain`, `devices`). This covers the instrument slot, the ordered effect list, and removal by first occurrence and by index. It also covers the drag-and-drop reordering of the devices view and the byte triple sent to a VST instrument (`vst_midi`).
- **Engines and routing** (`engines`, `mixing`, `master`, `preview`, `track_type`). The audio, MIDI and group track engines are modelled with their recording state. So are the master mixer with its group routing, the preview engine, and the admission of inputs into a mixer (format check and channel conversion).
- **Transport, scheduling and arrangement** (`transport`, `arrangement`, `tracks`, `clips`, `virtual_keyboard`). This covers starting, stopping and recording on the timeline, and firing clips on the tick where they start. It also covers clip copying, selection, deletion and the arrangement shortcuts, track creation, and the virtual keyboard's octave, velocity and note-on/off tracking.
- **Small encoders and parsers** (`waveform`, `adaptive_grid`, `theme`, `paths`, `decimal`, `csharp`). These are the waveform peak decimation, the adaptive grid spacing and snapping, the HTML colour parser, the plugin path helpers, and the C# integer, rounding and decimal semantics the rest relies on.

Floats are modelled as exact reals within the float range. C#'s truncating division, its wrap-around casts and its round-half-to-even rounding are written out in `csharp`. The following calls into code outside the model become parameters of the functions that use them:
- DryWetMidi's tempo-map conversions (the bar length in ticks that GetTicksInBar returns);
- the timeline's tick/time conversions;
- the velocity DryWetMidi gives a note built without one;
- the Random draws.

## Model

| member | source | states |
|---|---|---|
| Buffers.MapFrames | Lumix/SampleProviders/StereoSampleProvider.cs:24-36 | The frame loop over samplesRead samples does nothing when nothing was read, wherever offset lies. Otherwise it fails with an index error exactly when its last pair, rounded up to a whole frame, runs past the buffer; when it succeeds every pair from offset is rewritten by the frame transform and every sample outside the touched range is kept |
| Buffers.MapFramesIdentity | Lumix/Tracks/TrackStateSampleProvider.cs:26-39 | A frame transform that returns its input leaves the whole buffer unchanged |
| Buffers.PanLaw | Lumix/SampleProviders/StereoSampleProvider.cs:30-31 | For a pan in [-1, 1] both channel gains lie in [0, 1] and at least one of them is full; at the centre both are full |
| Stereo.Create | Lumix/SampleProviders/StereoSampleProvider.cs:8-17 | Construction succeeds exactly for a two-channel source, otherwise ArgumentException; a new stage has unit volumes and a centred pan |
| Stereo.Read | Lumix/SampleProviders/StereoSampleProvider.cs:21-38 | Each left sample of the read range is scaled by the left volume and the left pan gain, each right sample by the right ones; samples outside the range are untouched; an empty read never fails; an odd count at the buffer end throws |
| Stereo.SetGain | Lumix/SampleProviders/StereoSampleProvider.cs:40-44 | Both volumes take the gain and the pan is kept |
| Stereo.DefaultIsIdentity | Lumix/SampleProviders/StereoSampleProvider.cs:8-10 | A new stage passes the stream through unchanged |
| Stereo.CentredGainScales | Lumix/SampleProviders/StereoSampleProvider.cs:30-44 | After SetGain(g) on a centred stage every sample of the read range is multiplied by g |
| TrackState.Read | Lumix/Tracks/TrackStateSampleProvider.cs:23-41 | The gate keeps the buffer length, leaves samples outside the read range alone, never fails on an empty read and otherwise fails only when the last pair runs past the buffer |
| TrackState.EnabledPassesThrough | Lumix/Tracks/TrackStateSampleProvider.cs:28-39 | An enabled track returns the buffer exactly as the source filled it |
| TrackState.DisabledSilences | Lumix/Tracks/TrackStateSampleProvider.cs:31-35 | A disabled track zeroes every sample of the read range |
| TrackState.EvenReadStaysInRange | Lumix/Tracks/TrackStateSampleProvider.cs:26-40 | With an even samplesRead that fits, the gate succeeds and touches exactly [offset, offset + samplesRead) |
| TrackState.OddReadAtEndFails | Lumix/Tracks/TrackStateSampleProvider.cs:26-29 | With an odd samplesRead that ends at the buffer's end, the loop reads one sample past it and throws IndexOutOfRangeException |
| Utility.Process | Lumix/Plugins/BuiltIn/Utilities/UtilityPlugin.cs:32-73 | Processing succeeds exactly when the last pair fits the buffer, keeps its length, and changes nothing at or beyond the loop's range |
| Utility.SetGain | Lumix/Plugins/BuiltIn/Utilities/UtilityPlugin.cs:21-25 | Both volumes take the gain and every other setting is kept |
| Utility.MonoFolds | Lumix/Plugins/BuiltIn/Utilities/UtilityPlugin.cs:32-73 | In mono mode without inversion, Process writes to each frame the average of its pair, scaled on each side by that channel's volume and pan gain; centred at equal volumes, both channels come out equal |
| Utility.WidthExtremes | Lumix/Plugins/BuiltIn/Utilities/UtilityPlugin.cs:48-56 | Width 0 reproduces the input pair; width -100 collapses both channels to the mid |
| Utility.InvertNegates | Lumix/Plugins/BuiltIn/Utilities/UtilityPlugin.cs:59-63 | Toggling a channel's inversion negates exactly that channel of the output and leaves the other one alone |
| Utility.PanMatchesStereo | Lumix/Plugins/BuiltIn/Utilities/UtilityPlugin.cs:65-71 | After width and inversion the utility applies the same volume and pan law as StereoSampleProvider |
| Utility.DefaultIsIdentity | Lumix/Plugins/BuiltIn/Utilities/UtilityPlugin.cs:13-19 | With the field initialisers Process returns the buffer unchanged |
| PluginChain.New | Lumix/Plugins/PluginChainSampleProvider.cs:10-16 | A new chain has no instrument and two enabled effects, a default Utility then a SimpleEq, and satisfies the slot rule |
| PluginChain.Toggle | Lumix/Plugins/IAudioProcessor.cs:36-39 | Toggle flips Enabled and changes nothing else |
| PluginChain.HostedPlugin | Lumix/Plugins/IAudioProcessor.cs:31 | Only a hosted VST has an underlying plugin; the built-ins answer null |
| PluginChain.AddPlugin | Lumix/Plugins/PluginChainSampleProvider.cs:30-47 | A VSTi replaces the instrument, disposing a previous VST instrument; anything else is appended to the effects; the instrument slot only ever holds a VSTi |
| PluginChain.RemovePlugin | Lumix/Plugins/PluginChainSampleProvider.cs:49-70 | Removing the instrument empties the slot. Any other target loses its first occurrence from the effects: the effects before and after it keep their order, and an absent target leaves the chain as it was. A VST target is disposed either way |
| PluginChain.RemoveAllPlugins | Lumix/Plugins/PluginChainSampleProvider.cs:72-92 | Nothing is left in the chain and every VST that was in it is disposed, instrument first, then the effects in order |
| PluginChain.ProcessAudio | Lumix/Plugins/PluginChainSampleProvider.cs:94-107 | Array.Copy refuses a range that does not fit either array; on success only [offset, offset + samplesRead) can change |
| PluginChain.EffectsRunEnabled | Lumix/Plugins/PluginChainSampleProvider.cs:122-130 | The effect loop equals the plain fold over the enabled effects: a disabled effect contributes nothing |
| PluginChain.ReadRunsActive | Lumix/Plugins/PluginChainSampleProvider.cs:109-133 | Read is the fold over the enabled processors, the instrument first and then the effects in list order |
| PluginChain.RunAllFrame | Lumix/Plugins/PluginChainSampleProvider.cs:122-130 | Any fold of processors keeps the buffer length and changes nothing outside the read range |
| PluginChain.ReadFrame | Lumix/Plugins/PluginChainSampleProvider.cs:109-133 | Read changes only the samples the source has just read |
| PluginChain.NothingEnabledIsIdentity | Lumix/Plugins/PluginChainSampleProvider.cs:113-130 | A chain with nothing enabled returns the source's samples as they are |
| Devices.HandlePluginSwap | Lumix/Views/DevicesView.cs:176-202 | The swap keeps the instrument and permutes the effects; it changes anything only when the plugin is the single selection, is in the list and an arrow was pressed |
| Devices.SwapMovesOnePlace | Lumix/Views/DevicesView.cs:184-198 | Left moves the plugin one place towards the front unless it is first, otherwise Right moves it one place back unless it is last; every other effect keeps its place and the list stays free of repeats |
| Devices.SwapKeepsValid | Lumix/Views/DevicesView.cs:183-198 | A swap never lets an instrument into the effect list |
| Devices.Deleted | Lumix/Views/DevicesView.cs:232 | FindAll keeps exactly the effects flagged DeleteRequested |
| Devices.Drain | Lumix/Views/DevicesView.cs:231-257 | Draining the deletions keeps the instrument slot rule |
| Devices.RemoveEachDeleted | Lumix/Views/DevicesView.cs:232-233 | Removing the flagged effects one by one leaves exactly the unflagged ones, in their order |
| Devices.DrainRemovesDeleted | Lumix/Views/DevicesView.cs:231-257 | After the drain the effect list is the old one without its flagged effects, in order, and the instrument slot is emptied exactly when its instrument was flagged |
| Devices.IsDllIffSuffix | Lumix/Views/DevicesView.cs:140 | Path.GetExtension(path) == ".dll" holds exactly when the path ends in ".dll" |
| Devices.AddTo | Lumix/Views/DevicesView.cs:130 | Adding to the selected track keeps its kind and the slot rule |
| Devices.Drop | Lumix/Views/DevicesView.cs:113-174 | A released built-in drag goes to the end of the effects of any selected track and clears the drag. A released .dll goes to any track as an effect, or to a MIDI track as its instrument; otherwise it is disposed. The latch resets when the mouse stops dragging |
| Devices.LatchBlocksRepeatedBuiltIn | Lumix/Views/DevicesView.cs:121-138 | Once a built-in has been dropped, a held drag adds nothing more |
| Devices.LatchIgnoresFileDrag | Lumix/Views/DevicesView.cs:121 | Because && binds tighter than ||, the latch does not gate a file drag: a path is handled whatever the latch says |
| Mixing.NewMixer | Lumix/Tracks/AudioTracks/TrackAudioEngine.cs:22-25 | A track's mixer starts as IEEE float at the given rate and channel count, with no inputs |
| Mixing.Convert | Lumix/Tracks/AudioTracks/TrackAudioEngine.cs:61-72 | Equal channel counts pass through unchanged and mono into stereo is upmixed to IEEE float stereo; every other pair throws NotImplementedException; a converted input always has the mixer's channel count |
| Mixing.AdmitAsWritten | Lumix/Tracks/AudioTracks/TrackAudioEngine.cs:48-53 | As written: an input whose format differs from the mixer's in any way only raises the warning; an equal format is added unconverted |
| Mixing.AsWrittenNeverUpmixes | Lumix/Tracks/AudioTracks/TrackAudioEngine.cs:48-53 | As written, a mono input offered to a stereo mixer is always refused, so the upmix branch of the conversion is unreachable |
| Mixing.MonoFileRefused | Lumix/Tracks/AudioTracks/TrackAudioEngine.cs:48-53 | A mono IEEE float file at the mixer's 44100 Hz is refused by the stereo mixer, although the conversion would have accepted it |
| Mixing.Admit | Lumix/Tracks/AudioTracks/TrackAudioEngine.cs:48-72 | Convert first, then compare formats: fails exactly on unsupported channel pairs, keeps the mixer's format, changes nothing on a warning, and otherwise appends the input or its stereo upmix |
| Mixing.MonoIsUpmixed | Lumix/Tracks/AudioTracks/TrackAudioEngine.cs:67-70 | With the conversion first, a mono float input at the stereo float mixer's rate is upmixed and added |
| Mixing.AdmitAgreesOnMatchingChannels | Lumix/Tracks/AudioTracks/TrackAudioEngine.cs:48-65 | When the channel counts already match, the corrected order and the written order behave identically |
| Engines.Output | Lumix/Tracks/TrackEngine.cs:23-26 | GetTrackAudio is the engine's own last stage, the track-state gate |
| Engines.NewEngine | Lumix/Tracks/AudioTracks/TrackAudioEngine.cs:20-39 | A new engine of each kind has an empty IEEE float mixer and does not record; a MIDI engine starts not playing, with no playback and the sustain pedal up |
| Engines.Voice | Lumix/Tracks/AudioTracks/TrackAudioEngine.cs:43-47 | The voice starts at offset and lasts TotalTime - endOffset - offset seconds, in the file's format |
| Engines.FireAudio | Lumix/Tracks/AudioTracks/TrackAudioEngine.cs:41-54 | An audio engine never throws. A voice whose format differs from the mixer's leaves the engine unchanged (the warning case); an equal format appends the trimmed voice, unconverted. The recording state and the format are kept. A MIDI engine throws; a group engine does nothing |
| Engines.FireMidi | Lumix/Tracks/MidiTracks/TrackMidiEngine.cs:64-104 | A MIDI engine that is not playing starts a playback at offset with speed Bpm/120, and one that is playing ignores the call; an audio engine throws; a group engine does nothing |
| Engines.StartRecording | Lumix/Tracks/AudioTracks/TrackAudioEngine.cs:74-94 | An audio engine records under a new identity; a MIDI engine throws; a group engine ignores the call |
| Engines.StopRecording | Lumix/Tracks/AudioTracks/TrackAudioEngine.cs:96-114 | An audio engine stops recording and appends exactly one clip of the recorded file at tick 0 to the destination; a MIDI engine throws; a group engine changes nothing |
| Engines.StopSounds | Lumix/Tracks/MidiTracks/TrackMidiEngine.cs:111-116 | An audio engine empties its mixer; a MIDI engine stops playing; a group engine does nothing |
| Engines.StopThenFireRestarts | Lumix/Tracks/MidiTracks/TrackMidiEngine.cs:64-116 | After StopSounds the next MIDI Fire starts a new playback at the requested offset |
| Engines.InstrumentPlugin | Lumix/Tracks/MidiTracks/TrackMidiEngine.cs:46 | A hosted plugin exists exactly when the chain's instrument is a VST |
| Engines.SendNoteOnEvent | Lumix/Tracks/MidiTracks/TrackMidiEngine.cs:44-49 | Without a hosted instrument nothing is sent; otherwise the plugin receives a message that reads back as Note On with that channel, key and velocity |
| Engines.SendNoteOffEvent | Lumix/Tracks/MidiTracks/TrackMidiEngine.cs:51-56 | Without a hosted instrument nothing is sent; otherwise the plugin receives a message that reads back as Note Off with that channel, key and velocity |
| Engines.SendSustainPedalEvent | Lumix/Tracks/MidiTracks/TrackMidiEngine.cs:58-62 | Without a hosted instrument nothing is sent; otherwise the plugin receives controller 64 with value 127 when pressed and 0 when released |
| Engines.EventPlayed | Lumix/Tracks/MidiTracks/TrackMidiEngine.cs:77-100 | Note on and note off are forwarded on channel 0 unchanged. Controller 64 sets the sustain flag to value >= 64 and forwards it. Every other event, controller 7 included, changes nothing and sends nothing. The playback state is never touched |
| Engines.Apply | Lumix/Tracks/TrackEngine.cs:31-52 | No engine call changes the engine's identity |
| Engines.GroupIgnoresCalls | Lumix/Tracks/GroupTracks/TrackGroupEngine.cs:34-57 | A group engine ignores any sequence of transport and scheduler calls and never records |
| Engines.MidiNeverRecords | Lumix/Tracks/MidiTracks/TrackMidiEngine.cs:118-126 | No call sequence that succeeds leaves a MIDI engine recording |
| Engines.TrackRead | Lumix/Tracks/AudioTracks/TrackAudioEngine.cs:27-38 | The chain, stereo, metering and gate stages together keep the buffer length and change nothing outside the read range |
| Engines.DisabledTrackIsSilent | Lumix/Tracks/AudioTracks/TrackAudioEngine.cs:37-38 | Because the gate is the last stage, a disabled track outputs silence whatever its plugins and stereo settings do |
| Master.MasterIsUngated | Lumix/Tracks/Master/MasterAudioEngine.cs:25-35 | The master chain has no plugin chain and no mute gate, and uses only stages a track also has; a track's chain ends in its gate |
| Master.New | Lumix/Tracks/Master/MasterAudioEngine.cs:25-28 | The master mixer starts as IEEE float at the given rate and channel count, with no inputs |
| Master.AddTrack | Lumix/Tracks/Master/MasterAudioEngine.cs:39-42 | The engine's final stage is appended to the master inputs and the format is kept |
| Master.RemoveTrack | Lumix/Tracks/Master/MasterAudioEngine.cs:61-64 | The first occurrence of the engine's final stage leaves the master inputs; the inputs before and after it keep their order; an absent output changes nothing; the format is kept |
| Master.RemoveAllTracks | Lumix/Tracks/Master/MasterAudioEngine.cs:56-59 | No inputs are left and the format is kept |
| Master.TypedAgree | Lumix/Tracks/Master/MasterAudioEngine.cs:44-76 | The audio-only and MIDI-only add and remove methods do exactly what the generic ones do |
| Master.AddThenRemove | Lumix/Tracks/Master/MasterAudioEngine.cs:39-64 | Removing a track that was added once restores the master exactly |
| GroupTracks.EngineOf | Lumix/Tracks/GroupTracks/GroupTrack.cs:24 | A group's engine is a group engine with the group's identity and mixer |
| GroupTracks.Create | Lumix/Tracks/GroupTracks/GroupTrack.cs:19-33 | A new group has no members and an empty stereo mixer, and its output joins the master inputs |
| GroupTracks.Join | Lumix/Tracks/GroupTracks/GroupTrack.cs:39-41 | Joining moves the track's output from the master mixer to the group mixer and appends the track to the members |
| GroupTracks.AddTrackToGroup | Lumix/Tracks/GroupTracks/GroupTrack.cs:35-57 | A track is accepted exactly when the group is empty or its first member has the same kind; a refusal changes nothing, an acceptance is a join |
| GroupTracks.AddKeepsHomogeneous | Lumix/Tracks/GroupTracks/GroupTrack.cs:35-57 | Adding keeps every member of one kind and keeps the earlier members in join order |
| GroupTracks.ReAddAppendsAgain | Lumix/Tracks/GroupTracks/GroupTrack.cs:50-55 | No check stops a member joining twice: it is appended a second time |
| Preview.Create | Lumix/Views/Sidebar/Preview/AudioPreviewEngine.cs:15-20 | The preview mixer starts empty and IEEE float, and its output joins the master inputs |
| Preview.StopSound | Lumix/Views/Sidebar/Preview/AudioPreviewEngine.cs:67-70 | No inputs are left and the format is kept |
| Preview.PlaySound | Lumix/Views/Sidebar/Preview/AudioPreviewEngine.cs:22-37 | A preview stops the mixer first, then offers the whole file: it is appended exactly when its format equals the mixer's, otherwise the warning is raised. Without the preview flag, as for PlaySound(audioFile), a refused file changes nothing |
| Preview.AddMixerInput | Lumix/Views/Sidebar/Preview/AudioPreviewEngine.cs:57-65 | The offer never throws. The warning is raised exactly when the input's format differs from the mixer's, and then nothing changes; otherwise the input is appended unconverted |
| Preview.PlayCached | Lumix/Views/Sidebar/Preview/AudioPreviewEngine.cs:52-65 | A cached sound is appended as it is when its format equals the mixer's; otherwise the warning is raised and nothing changes |
| Preview.PreviewPlaysAlone | Lumix/Views/Sidebar/Preview/AudioPreviewEngine.cs:22-31 | A preview stops what was playing first, so at most the new sound is left |
| VstMidi.Low8 | Lumix/Plugins/VST/VstPlugin.cs:52-54 | The (byte) cast keeps the value modulo 256 |
| VstMidi.Parse | Lumix/Plugins/VST/VstPlugin.cs:50-55 | A message reads as a voice message only when it is three bytes, a status byte and two data bytes, and the channel it yields is below 16 |
| VstMidi.StatusChannel | Lumix/Plugins/VST/VstPlugin.cs:52 | The built status byte keeps the message's high nibble, and its low nibble is the channel modulo 16, negative channels included |
| VstMidi.DataValue | Lumix/Plugins/VST/VstPlugin.cs:53-54 | A data byte is its value modulo 128 |
| VstMidi.NoteOnReadsBack | Lumix/Plugins/VST/VstPlugin.cs:42-60 | SendNoteOn's bytes read back as the Note On message for channel, key and velocity taken modulo 16, 128 and 128 |
| VstMidi.NoteOffReadsBack | Lumix/Plugins/VST/VstPlugin.cs:62-80 | SendNoteOff's bytes read back as the Note Off message for channel, key and velocity taken modulo 16, 128 and 128 |
| VstMidi.SustainReadsBack | Lumix/Plugins/VST/VstPlugin.cs:82-100 | SendSustainPedal's bytes read back as Control Change on controller 64 with value 127 when pressed and 0 when released |
| VstMidi.Load | Lumix/Plugins/VST/VstPlugin.cs:35-40 | Construction succeeds exactly when loading gave a context (a null context throws on reading its info); the type is VSTi exactly when the plugin declares IsSynth |
| VstMidi.Deliver | Lumix/Plugins/VST/VstPlugin.cs:44-59 | A plugin without a context drops the message; one with a context receives exactly it |
| VstMidi.SendNoteOn | Lumix/Plugins/VST/VstPlugin.cs:42-60 | At most one message is sent, none exactly when there is no context, and it reads back as the Note On message |
| VstMidi.SendNoteOff | Lumix/Plugins/VST/VstPlugin.cs:62-80 | At most one message is sent, none exactly when there is no context, and it reads back as the Note Off message |
| VstMidi.SendSustainPedal | Lumix/Plugins/VST/VstPlugin.cs:82-100 | At most one message is sent, none exactly when there is no context, and it reads back as controller 64 on or off |
| Tracks.NewTrack | Lumix/Tracks/AudioTracks/AudioTrack.cs:13-27 | A new audio or MIDI track starts enabled, unsoloed, unarmed, not recording and without clips, with a stereo engine of its kind and a valid fresh plugin chain |
| Tracks.ToggleEnabled | Lumix/Tracks/Track.cs:497-500 | The power button flips the enable flag and changes nothing else |
| Tracks.ToggleRecordOnStart | Lumix/Tracks/Track.cs:532-535 | The record-arm button flips the arm flag and changes nothing else |
| Tracks.Solo | Lumix/Tracks/Track.cs:505-527 | The clicked track's solo flips; with Ctrl its enable flag flips and every other track is untouched; without Ctrl it is enabled and every other track is unsoloed and enabled exactly when the clicked track is no longer soloed; only enable and solo flags ever change |
| Tracks.SoloIsolates | Lumix/Tracks/Track.cs:505-527 | Soloing a track without Ctrl leaves it the only enabled and the only soloed track |
| Tracks.UnsoloEnablesAll | Lumix/Tracks/Track.cs:505-527 | Unsoloing a track without Ctrl re-enables every track and leaves none soloed |
| Tracks.CtrlSoloIsLocal | Lumix/Tracks/Track.cs:505-527 | A Ctrl-solo click changes only the clicked track, flipping its enable and solo flags |
| Tracks.FirstRequested | Lumix/Tracks/Track.cs:311 | The index found is the first clip carrying the request, and none is found exactly when no clip carries it |
| Tracks.RemoveDeleted | Lumix/Tracks/Track.cs:310-315 | The first clip that asked to be deleted is removed and the rest keep their order; with no such clip the list is unchanged |
| Tracks.RemoveDeletedStep | Lumix/Tracks/Track.cs:310-315 | A render lowers the number of pending deletions by one when there is one and keeps every clip that did not ask to go, in order |
| Tracks.RendersDrainDeletions | Lumix/Tracks/Track.cs:310-315 | After at least as many renders as pending deletions, exactly the clips that did not ask to go remain, in their order |
| Tracks.DuplicateFirst | Lumix/Tracks/Track.cs:318-340 | The first clip that asked for a copy has its request cleared, a copy starting where it ends is appended, and the copy becomes the only selected clip and the dragged clip; with no request nothing changes |
| Tracks.DuplicateStep | Lumix/Tracks/Track.cs:318-340 | A duplication serves exactly one pending copy request and adds no deletion request |
| Tracks.RenderMakesProgress | Lumix/Tracks/Track.cs:310-340 | One render serves one pending deletion and at least one pending duplication, and creates no new request |
| Tracks.RemovalNeverAddsRequests | Lumix/Tracks/Track.cs:310-315 | Removing the deleted clip never raises the number of pending copy requests |
| Tracks.FileClip | Lumix/Tracks/Track.cs:171-202 | A dropped file becomes a clip named after the file title, at the snapped drop tick, holding audio on an audio track and MIDI data on a MIDI track |
| Tracks.DropVst | Lumix/Tracks/Track.cs:138-169 | A released ".dll" is added to a MIDI track and to an audio track unless it is an instrument, which is disposed instead; a group track does nothing with it; the chain stays valid |
| Tracks.Drop | Lumix/Tracks/Track.cs:116-255 | One drop frame: nothing changes unless the drag is accepted and released; a built-in is appended as an effect; a ".dll" goes through DropVst; a file with an extension adds exactly one clip and only when the track admits it; only the chain, clips and drop latch change, the latch clears when dragging ends, and an audio or group track's instrument never changes |
| Tracks.AudioRejectsMidiFiles | Lumix/Tracks/Track.cs:174-186 | An audio track never gains a clip from a ".mid" file |
| Tracks.MidiTakesOnlyMidFiles | Lumix/Tracks/Track.cs:187-199 | A MIDI track gains a clip only from a ".mid" file |
| Tracks.AudioRejectsInstruments | Lumix/Tracks/Track.cs:144-157 | An instrument dropped on an audio track is disposed and leaves the chain and clips as they were |
| Tracks.StopSounds | Lumix/Views/Arrangement/TimeLine.cs:58-65 | Stopping a track silences its engine and clears every clip's played flag, leaving all else as it was |
| Tracks.StopRecording | Lumix/Tracks/AudioTracks/TrackAudioEngine.cs:96-114 | An audio track stops recording and gains exactly one clip, an audio clip at tick 0 appended after its old clips; a MIDI track throws NotImplemented; a group track is unchanged |
| Transport.StartTime | Lumix/Views/Arrangement/TimeLine.cs:17-32 | Play sets the clock running and remembers the current position as the start point |
| Transport.OnUpdate | Lumix/Views/Arrangement/TimeLine.cs:85-91 | A running clock advances by frame time times tempo and keeps its start point; a stopped clock does not move |
| Transport.SetTime | Lumix/Views/Arrangement/TimeLine.cs:80-83 | Only the position changes |
| Transport.TimeInSeconds | Lumix/Views/Arrangement/TimeLine.cs:75-78 | The seconds times the tempo give back the position, with the same sign |
| Transport.StopClock | Lumix/Views/Arrangement/TimeLine.cs:46-54 | Stop leaves the clock stopped at its start point, which is the play point, or zero when moving to the start |
| Transport.RunKeepsStart | Lumix/Views/Arrangement/TimeLine.cs:85-91 | Any number of frames leave the running flag and the start point alone |
| Transport.StoppedClockIsIdle | Lumix/Views/Arrangement/TimeLine.cs:85-91 | A stopped clock is unchanged by any number of frames |
| Transport.PlayThenStopReturns | Lumix/Views/Arrangement/TimeLine.cs:17-54 | Play, any frames, stop: the clock is back, stopped, where play was pressed |
| Transport.SetTimeForgottenAtStop | Lumix/Views/Arrangement/TimeLine.cs:46-83 | A position set before a stop does not survive it: stop returns to the start point |
| Transport.StopTrack | Lumix/Views/Arrangement/TimeLine.cs:58-70 | A stopped track is not recording and has no clip marked played; a recording track gains its recording as one audio clip at tick 0 with a silenced mixer; any other track is just silenced |
| Transport.StopTime | Lumix/Views/Arrangement/TimeLine.cs:46-73 | Stop stops the clock, silences the preview and stops every track in order: none is left recording or with a played clip, and exactly the recording ones gain one clip |
| Transport.Arm | Lumix/Views/Arrangement/TimeLine.cs:37-43 | An armed MIDI track fails; otherwise only the engine changes and it records exactly when it already did or the track is an armed audio track |
| Transport.ArmFrom | Lumix/Views/Arrangement/TimeLine.cs:37-43 | The loop succeeds exactly when every remaining track arms, and then each result is that track armed under its own recording id |
| Transport.StartRecording | Lumix/Views/Arrangement/TimeLine.cs:34-44 | Record succeeds exactly when no armed track is a MIDI track; then the clock is started and each track records exactly when it already did or is an armed audio track, nothing else changing |
| Transport.RecordThenStop | Lumix/Views/Arrangement/TimeLine.cs:34-73 | Record then stop: the clock is back at the play point (or zero), and each track that was recording or was armed gains exactly one clip while every other keeps its count |
| Clips.NewClip | Lumix/Clips/AudioClips/AudioClip.cs:19-28 | A new clip carries the given id, content, name and start tick, is enabled, has not played and asks for nothing |
| Clips.EndInMusical | Lumix/Clips/Clip.cs:180-185 | The end in Bars:Beats:Ticks is start plus duration taken component by component, with no carry |
| Clips.AddKeepsTicks | Lumix/Clips/Clip.cs:180-185 | Adding without carrying loses nothing: under any linear conversion to ticks the end converts to start plus duration |
| Clips.UpdateTimesData | Lumix/Clips/Clip.cs:226-233 | The tick fields follow start and clip duration, the musical fields follow the ticks and markers, and nothing else changes |
| Clips.UpdateTimesIdempotent | Lumix/Clips/Clip.cs:226-233 | Recomputing the times of a clip whose duration has not changed changes nothing |
| Clips.SetMarker | Lumix/Clips/Clip.cs:85-112 | The marker ends up holding the value; exactly one change event carrying old and new value is raised when they differ and none when they are equal; nothing else changes |
| Clips.SetMarkers | Lumix/Clips/Clip.cs:85-112 | Successive writes leave the last value, raise at most one event per write, each a real change, and the events chain from the first old value to the final one |
| Clips.SetMarkerTwiceIsSilent | Lumix/Clips/Clip.cs:85-112 | Writing the same marker value twice raises nothing the second time |
| Clips.SetStartTick | Lumix/Clips/Clip.cs:162-165 | The start tick takes the given value, negative or not, and nothing else changes |
| Clips.Drag | Lumix/Clips/Clip.cs:446-450 | A drag sets the start tick to the snapped position clamped to [0, long.MaxValue], so never negative, and changes nothing else |
| Clips.DragIsClampedSet | Lumix/Clips/Clip.cs:446-450 | A drag is SetStartTick of the snapped position floored at zero |
| Clips.PlayAudio | Lumix/Clips/Clip.cs:148-151 | The engine is fired with the audio file and both offsets unchanged |
| Clips.PlayMidi | Lumix/Clips/Clip.cs:153-156 | The engine is fired with the MIDI file and the one offset as both start and end offset |
| Clips.PlayMidiStartsAtOffset | Lumix/Clips/Clip.cs:153-156 | A MIDI clip fired on an idle MIDI engine starts playback of that file at the given offset |
| Clips.Rename | Lumix/Clips/Clip.cs:402-412 | A committed name is never blank: a blank entry becomes "Blank" and any other is kept; nothing else changes |
| Clips.RenameIsStable | Lumix/Clips/Clip.cs:402-412 | Committing the name a clip already has changes nothing |
| Clips.ToggleEnabled | Lumix/Clips/Clip.cs:502-506 | The Activate/Deactivate item flips the enable flag and changes nothing else |
| Clips.Copy | Lumix/Tracks/Track.cs:321-339 | The copy has the original's content, starts where the original ends, is enabled and asks for nothing; an audio copy is named after its file |
| Arrangement.Construct | Lumix/Tracks/AudioTracks/AudioTrack.cs:13-27 | Constructing a track hands out the next identity, gives a fresh track with no clips, and the master mixer gains that track's output at once; the track list is untouched |
| Arrangement.NewTrack | Lumix/Views/Arrangement/ArrangementView.cs:127-149 | The master mixer always gains the new output; the call succeeds exactly when the index is -1 or within [0, Count], placing the track there (or last) with every other track in order; otherwise it fails with ArgumentException and the list is unchanged |
| Arrangement.NewTrackKeepsValid | Lumix/Views/Arrangement/ArrangementView.cs:127-149 | Adding a track keeps track identities distinct and below the next one handed out |
| Arrangement.AddNamed | Lumix/Views/Arrangement/ArrangementView.cs:117-124 | n appended tracks of one kind, each named "Track " and the count at that moment, the old tracks untouched, n more mixer inputs |
| Arrangement.Init | Lumix/Views/Arrangement/ArrangementView.cs:115-125 | Ten tracks are appended, five audio then five MIDI, each named after its position, and the mixer gains ten inputs |
| Arrangement.InitFromEmpty | Lumix/Views/Arrangement/ArrangementView.cs:115-125 | On an empty arrangement the tracks are "Track 0" to "Track 9", audio first |
| Arrangement.DeleteTrack | Lumix/Tracks/Track.cs:592-595 | Delete removes exactly that track from the list, and nothing when it is absent: the tracks before and after it keep their order. The master mixer keeps its output |
| Arrangement.NewThenDelete | Lumix/Views/Arrangement/ArrangementView.cs:127-149 | Deleting the track that NewAudioTrack or NewMidiTrack just placed gives back the old track list |
| Arrangement.InsertAfter | Lumix/Tracks/Track.cs:606-613 | Insert puts the new track, named by kind and the current count, right after the anchor with the tracks up to the anchor unchanged; with no anchor in the list it goes first; the index is always in range |
| Arrangement.EditClip | Lumix/Views/Arrangement/ArrangementView.cs:153-166 | Delete marks the clip for deletion, Ctrl+D marks it for duplication, '0' flips its enable flag |
| Arrangement.EditClips | Lumix/Views/Arrangement/ArrangementView.cs:153-166 | Exactly the selected clips are edited, the rest left as they were |
| Arrangement.EditSelected | Lumix/Views/Arrangement/ArrangementView.cs:153-166 | Every track's selected clips are edited and nothing else about the tracks changes |
| Arrangement.FlipTwiceRestores | Lumix/Views/Arrangement/ArrangementView.cs:163-166 | Pressing '0' twice gives every clip its enable flag back |
| Arrangement.WithoutKeeps | Lumix/Tracks/Track.cs:310-315 | Removing requested clips keeps only clips that were there |
| Arrangement.DeleteKeyEmptiesSelection | Lumix/Views/Arrangement/ArrangementView.cs:153-156 | After Delete and enough renders, no selected clip remains on any track |
| Arrangement.Shortcuts | Lumix/Views/Arrangement/ArrangementView.cs:151-195 | Ctrl+T adds exactly one track, audio or MIDI by Shift, which becomes the selected track; without Ctrl+T the track count, master and selection stay; with no shortcut key nothing changes |
| Arrangement.ClipCall | Lumix/Views/Arrangement/ArrangementView.cs:500-510 | A started audio clip plays from the time between its start and the playhead to its end; a MIDI clip gets that time scaled by BPM over 120 |
| Arrangement.Started | Lumix/Views/Arrangement/ArrangementView.cs:500-510 | No clip starts while the transport is stopped, and at most every clip starts |
| Arrangement.ScanClips | Lumix/Views/Arrangement/ArrangementView.cs:498-513 | Every due clip, enabled or not, is marked played and nothing else changes; one call is made per due enabled clip, each that clip's call |
| Arrangement.FireTrack | Lumix/Views/Arrangement/ArrangementView.cs:498-513 | A stopped transport leaves the track as it is; otherwise its clips are scanned and only its engine and clips change |
| Arrangement.ApplyAllKeepsId | Lumix/Views/Arrangement/ArrangementView.cs:505-509 | Playing calls on an engine never changes which engine it is |
| Arrangement.FireFrom | Lumix/Views/Arrangement/ArrangementView.cs:475-515 | The pass succeeds when every track's frame does, and then each track is its own frame's result, disabled tracks included |
| Arrangement.FireClips | Lumix/Views/Arrangement/ArrangementView.cs:474-515 | On a zoom frame or a stopped transport nothing changes; otherwise every track's clips are scanned |
| Arrangement.FiresAtMostOnce | Lumix/Views/Arrangement/ArrangementView.cs:500-512 | Over any run of frames without a stop, a clip is started at most once, never if it had already played, and a clip that was started has played at the end |
| Arrangement.ScanMarksIndependently | Lumix/Views/Arrangement/ArrangementView.cs:500-512 | Which clips are marked played depends on neither the tempo nor the time conversion |
| Arrangement.StopReArms | Lumix/Views/Arrangement/TimeLine.cs:58-65 | After a stop, every clip the playhead has reached is due again on the next play |
| VirtualKeyboard.NoteOf | Lumix/Views/Midi/VirtualKeyboard.cs:34-49 | Exactly the thirteen note keys have a note, each between 60 and 72 |
| VirtualKeyboard.NoteRowIsChromatic | Lumix/Views/Midi/VirtualKeyboard.cs:17-32 | The i-th note key plays 60 + i, C4 up to C5 |
| VirtualKeyboard.Toggle | Lumix/Views/Midi/VirtualKeyboard.cs:51-54 | Toggle flips the enable flag and nothing else |
| VirtualKeyboard.ShiftOctave | Lumix/Views/Midi/VirtualKeyboard.cs:56-61 | The octave shift stays within [-36, 36], is the plain sum when that is in range, and nothing else changes |
| VirtualKeyboard.ShiftVelocity | Lumix/Views/Midi/VirtualKeyboard.cs:63-68 | The velocity stays within [7, 127], is the plain sum when that is in range, and nothing else changes |
| VirtualKeyboard.OctaveShiftUndoes | Lumix/Views/Midi/VirtualKeyboard.cs:56-61 | An octave up followed by an octave down restores the keyboard whenever the first shift did not clamp |
| VirtualKeyboard.Broadcast | Lumix/Views/Midi/VirtualKeyboard.cs:88-96 | The message goes to exactly the tracks armed for recording with a MIDI engine |
| VirtualKeyboard.Pitch | Lumix/Views/Midi/VirtualKeyboard.cs:93 | A note key with a shift in range plays a note between 24 and 108 |
| VirtualKeyboard.KeyDown | Lumix/Views/Midi/VirtualKeyboard.cs:70-118 | Repeats do nothing; Space and only Space toggles the transport, enabled or not; a disabled keyboard sends nothing and does not change; every message is a channel-0 Note On in range to a listening track, and a note key reaches every listening track; the state stays in range |
| VirtualKeyboard.KeyUp | Lumix/Views/Midi/VirtualKeyboard.cs:120-137 | A disabled keyboard or a non-note key sends nothing; otherwise every listening track gets a channel-0 Note Off of velocity 0, and only listening tracks get one |
| VirtualKeyboard.PressReleasePair | Lumix/Views/Midi/VirtualKeyboard.cs:70-137 | A note key's press and its release reach the same tracks with the same note |
| VirtualKeyboard.PollNotes | Lumix/Views/Midi/VirtualKeyboard.cs:141-170 | The note loop changes only the held flag, sends nothing when no note key has an event, and sends only Note On or Note Off in range to listening tracks |
| VirtualKeyboard.Poll | Lumix/Views/Midi/VirtualKeyboard.cs:139-191 | A poll keeps the state in range, does nothing while the keyboard is disabled, never shifts the octave while a note is held, and changes the velocity only on C or V |
| VirtualKeyboard.HeldNoteBlocksOctave | Lumix/Views/Midi/VirtualKeyboard.cs:172-180 | While a note key is held and no note key changes, Z and X leave the octave alone and nothing is sent |
| VirtualKeyboard.FreeZLowers | Lumix/Views/Midi/VirtualKeyboard.cs:172-175 | With nothing held, Z lowers the octave by twelve when that stays in range |
| VirtualKeyboard.NotesFitSevenBits | Lumix/Views/Midi/VirtualKeyboard.cs:92-94 | Every note and velocity the keyboard sends fits seven bits, so the SevenBitNumber constructor never throws |
| Waveform.Bucket | Lumix/Clips/Renderers/WaveformRenderer.cs:58-72 | A bucket yields its largest and smallest sample, or float.MinValue and float.MaxValue when it is empty |
| Waveform.Resize | Lumix/Clips/Renderers/WaveformRenderer.cs:50-76 | A zero width divides by zero and a negative one cannot size the arrays; otherwise each of the width columns holds the peak and valley of its own bucket of Count / width samples |
| Waveform.PeakAboveValley | Lumix/Clips/Renderers/WaveformRenderer.cs:60-71 | A bucket with samples has its peak at or above its valley |
| Waveform.FewSamplesGiveEmptyColumns | Lumix/Clips/Renderers/WaveformRenderer.cs:52-58 | With fewer samples than columns every column is float.MinValue over float.MaxValue |
| Waveform.TailIgnored | Lumix/Clips/Renderers/WaveformRenderer.cs:52-71 | Samples past width times Count / width never affect the columns |
| Waveform.FirstEmpty | Lumix/Clips/Renderers/WaveformRenderer.cs:17-21 | The read loop stops at the first empty read, all earlier reads being non-empty |
| Waveform.GetWaveformPeaks | Lumix/Clips/Renderers/WaveformRenderer.cs:10-48 | The samples are every read up to the first empty one, end to end, and the columns are their decimation, with Resize's errors for a width that is not positive |
| AdaptiveGrid.Preset | Lumix/Views/Arrangement/AdaptiveGrid.cs:23-45 | Every option's range is positive, its maximum at least twice its minimum, in the fixed ratio 8 : 3 |
| AdaptiveGrid.SetGridOption | Lumix/Views/Arrangement/AdaptiveGrid.cs:21-47 | The option is stored together with its own range, which is positive and at least an octave wide |
| AdaptiveGrid.DefaultIsNarrow | Lumix/Views/Arrangement/AdaptiveGrid.cs:16-19 | The initial state is exactly what selecting Narrow gives |
| AdaptiveGrid.Grow | Lumix/Views/Arrangement/AdaptiveGrid.cs:54 | The doubling loop ends at or above the minimum and the start, below twice the minimum unless it did not move, and does not move a spacing already at the minimum |
| AdaptiveGrid.Shrink | Lumix/Views/Arrangement/AdaptiveGrid.cs:55 | The halving loop ends positive, at or below the maximum and the start, above half the maximum unless it did not move, and does not move a spacing already within the maximum |
| AdaptiveGrid.CalculateGridSpacing | Lumix/Views/Arrangement/AdaptiveGrid.cs:49-58 | The spacing is positive and at most the maximum, at least the minimum when the range spans an octave, and the unscaled base spacing when that is already in range |
| AdaptiveGrid.GrowScales | Lumix/Views/Arrangement/AdaptiveGrid.cs:54 | The doubling loop returns its start doubled a whole number of times |
| AdaptiveGrid.ShrinkScales | Lumix/Views/Arrangement/AdaptiveGrid.cs:55 | The halving loop returns its start halved a whole number of times |
| AdaptiveGrid.SpacingIsOctaveOfBase | Lumix/Views/Arrangement/AdaptiveGrid.cs:49-58 | The spacing is the zoomed base spacing doubled and then halved a whole number of times each, so it differs from it by whole octaves |
| AdaptiveGrid.PresetSpacingInRange | Lumix/Views/Arrangement/AdaptiveGrid.cs:21-58 | Under every preset the spacing lies within the preset's range at any positive zoom |
| AdaptiveGrid.NarrowRangeUndershoots | Lumix/Views/Arrangement/AdaptiveGrid.cs:49-58 | A range narrower than an octave, [16, 20] at zoom 1, yields 15, below its minimum |
| AdaptiveGrid.RoundEven | Lumix/Views/Arrangement/AdaptiveGrid.cs:68 | The result is within a half of the input, and the even integer on a tie |
| AdaptiveGrid.Snap | Lumix/Views/Arrangement/AdaptiveGrid.cs:68 | The snapped position is within half a step of the target |
| AdaptiveGrid.SnapOnGrid | Lumix/Views/Arrangement/AdaptiveGrid.cs:68 | The snapped position is a whole number of steps |
| AdaptiveGrid.SnapIsNearest | Lumix/Views/Arrangement/AdaptiveGrid.cs:67-68 | No grid line is nearer the target than the snapped position |
| AdaptiveGrid.SnapIdempotent | Lumix/Views/Arrangement/AdaptiveGrid.cs:68 | Snapping a snapped position leaves it where it is |
| AdaptiveGrid.GetSnappedPosition | Lumix/Views/Arrangement/AdaptiveGrid.cs:60-70 | The position lands within half a grid step of the target, so within half the maximum spacing in pixels |
| AdaptiveGrid.SnappedPositionIsFixed | Lumix/Views/Arrangement/AdaptiveGrid.cs:60-70 | A snapped position snaps to itself under the same grid and zoom |
| Theme.HexByte | Lumix/ImGuiExtensions/ImGuiTheme.cs:31-33 | Two characters parse exactly when both are hex digits, to the byte whose high and low nibbles they spell; otherwise FormatException |
| Theme.HtmlToVec4 | Lumix/ImGuiExtensions/ImGuiTheme.cs:26-36 | A colour parses exactly when it is present, seven characters starting with '#', and hex after that; null or a wrong shape throw ArgumentException and bad hex FormatException; the components lie in [0, 1] and the alpha is the caller's |
| Theme.HexDigit | Lumix/ImGuiExtensions/ImGuiTheme.cs:31-33 | The written digit is an upper-case hex digit that parses back to its value |
| Theme.ToHtml | Lumix/ImGuiExtensions/ImGuiTheme.cs:28-33 | A written colour has the shape HtmlToVec4 accepts |
| Theme.ParseWritten | Lumix/ImGuiExtensions/ImGuiTheme.cs:26-36 | Writing a byte colour and parsing it back gives the bytes over 255 and the alpha |
| Theme.WriteParsed | Lumix/ImGuiExtensions/ImGuiTheme.cs:26-36 | An upper-case code that parses is the writing of the bytes it parses to |
| Theme.DefaultColorsParse | Lumix/ImGuiExtensions/ImGuiTheme.cs:10-19 | Every default colour code parses, so the static initialiser never throws |
| Theme.DefaultColors | Lumix/ImGuiExtensions/ImGuiTheme.cs:10-19 | One opaque colour per default code, each what the code parses to |
| Theme.GetRandomColor | Lumix/ImGuiExtensions/ImGuiTheme.cs:21-24 | The colour is one of the default colours, opaque |
| Paths.LastDot | Lumix/Tracks/Track.cs:138 | The scan finds the last '.' with neither '.' nor a separator after it, and finds none exactly when every '.' has a separator after it |
| Paths.Extension | Lumix/Tracks/Track.cs:138 | An extension is empty or a suffix of the path of at least two characters that starts with its only '.' and holds no separator |
| Paths.HasExtension | Lumix/Tracks/Track.cs:171 | A path has an extension exactly when GetExtension gives a non-empty one |
| Paths.ExtensionIsSuffix | Lumix/Tracks/Track.cs:176 | For a proper extension such as ".mid", comparing GetExtension with it is the same as testing that the path ends with it |
| Paths.LastDotFinds | Lumix/Tracks/Track.cs:138 | A '.' followed only by ordinary characters is exactly where the scan stops |
| Paths.LastSeparator | Lumix/Clips/AudioClips/AudioClip.cs:21 | The position found holds a separator and no separator follows it, or there is none at all |
| Paths.FileName | Lumix/Clips/AudioClips/AudioClip.cs:21 | The file name is a suffix of the path with no separator in it |
| Paths.FileTitle | Lumix/Clips/AudioClips/AudioClip.cs:21 | The file title is a prefix of the file name |
| Paths.DotAfterSeparator | Lumix/Clips/AudioClips/AudioClip.cs:21 | The extension's '.' lies after the last separator |
| Paths.TitleEndsAt | Lumix/Clips/AudioClips/AudioClip.cs:21 | The file title ends at the '.' the extension scan finds, when that '.' lies after the last separator |
| Paths.TitleAndExtension | Lumix/Clips/AudioClips/AudioClip.cs:21 | A file name with an extension is its title followed by that extension |
| PianoKeys.BlackKeysAreSharps | Lumix/Views/Midi/PianoRoll.cs:1103-1107 | A note is drawn black exactly when it is non-negative and its pitch class is a sharp; C#'s remainder makes every negative number white |
| PianoKeys.RowToNoteNumberDraw | Lumix/Views/Midi/PianoRoll.cs:1109 | Drawn row i is the i-th key above A0 |
| PianoKeys.NoteNumberToRow | Lumix/Views/Midi/PianoRoll.cs:1110-1111 | Converting a note number to a row and back gives the note number |
| PianoKeys.RowNoteInverse | Lumix/Views/Midi/PianoRoll.cs:1110-1111 | Converting a row to a note number and back gives the row |
| PianoKeys.DrawnRowsReverseNoteRows | Lumix/Views/Midi/PianoRoll.cs:1109-1111 | The drawn keyboard and the note rows list the same 88 keys, A0 to C8, in opposite orders |
| PianoKeys.NoteNumberToName | Lumix/Views/Midi/PianoRoll.cs:1113-1119 | The name is defined exactly when C#'s remainder by 12 is not negative, so for every non-negative note number |
| PianoKeys.IndexOfName | Lumix/Views/Midi/PianoRoll.cs:1115 | A spelling found in the table is at the index it was found at |
| PianoKeys.NameRoundTrip | Lumix/Views/Midi/PianoRoll.cs:1113-1119 | The name of a non-negative note number reads back to that number, so no two notes share a name |
| PianoKeys.ParseSpelledName | Lumix/Views/Midi/PianoRoll.cs:1113-1119 | A spelling followed by a printed octave reads back to twelve times the octave plus one, plus the spelling's index |
| PianoKeys.RowToNoteName | Lumix/Views/Midi/PianoRoll.cs:1121-1142 | A row at or below C8's row has the pitch class of its note; a row above it throws unless its remainder is zero |
| PianoKeys.RowToOctave | Lumix/Views/Midi/PianoRoll.cs:1144-1148 | For rows at or below C8's, the row's note lies within the octave returned |
| PianoKeys.RowNamingAgrees | Lumix/Views/Midi/PianoRoll.cs:1103-1148 | A row's printed name, pitch class, octave and black-or-white colour all describe the same key |
| PianoRoll.NudgeNote | Lumix/Views/Midi/PianoRoll.cs:111-174 | A transpose keeps the pitch within A0 to C8 and is the plain shift when that is in range; right-arrow nudges add a bar; left-arrow nudges clamp the length at one bar and the time at zero, and are the plain subtraction when no clamp applies; '0' flips the enable flag; nothing else of the note changes |
| PianoRoll.NudgeSelected | Lumix/Views/Midi/PianoRoll.cs:115-173 | Each selected note is nudged once, every other note and both lists are left as they were |
| PianoRoll.PitchKeys | Lumix/Views/Midi/PianoRoll.cs:110-142 | Up or Down leaves every selected note within A0 to C8 and keeps the selection; with neither key nothing changes |
| PianoRoll.NudgeAndResolve | Lumix/Views/Midi/PianoRoll.cs:145-168 | A time or length nudge followed by overlap handling keeps the selection and every selected note's pitch |
| PianoRoll.TimeKeys | Lumix/Views/Midi/PianoRoll.cs:144-168 | Right or Left keeps the selection and the selected pitches; with neither key nothing changes |
| PianoRoll.Clone | Lumix/Views/Midi/PianoRoll.cs:194-200 | A clone has the note's pitch, length and velocity, is enabled, and starts at the note's end when shifted, at its start otherwise |
| PianoRoll.DuplicateOne | Lumix/Views/Midi/PianoRoll.cs:191-215 | One iteration takes the note off the front of the selection, lists its clone under a fresh identity and selects it last |
| PianoRoll.CloneHeapFrame | Lumix/Views/Midi/PianoRoll.cs:191-215 | Cloning never touches a note that already existed |
| PianoRoll.CloneHeapAt | Lumix/Views/Midi/PianoRoll.cs:191-215 | The i-th selected note's clone sits at the i-th fresh identity |
| PianoRoll.DuplicateLoop | Lumix/Views/Midi/PianoRoll.cs:191-215 | The loop lists and selects one fresh clone per selected note, in order, keeping the rest of the selection in front |
| PianoRoll.DuplicateNotes | Lumix/Views/Midi/PianoRoll.cs:189-222 | Afterwards the selection is exactly the clones in order; without overlap handling they are appended to the list, each the clone of its original, and every existing note is unchanged |
| PianoRoll.ClonesAreNew | Lumix/Views/Midi/PianoRoll.cs:189-222 | No selected clone existed before the duplication |
| PianoRoll.Shortcuts | Lumix/Views/Midi/PianoRoll.cs:108-187 | A frame's shortcuts keep the roll well formed; without Ctrl the selection stays, and Up or Down keeps every selected note within A0 to C8 |
| PianoRoll.SnapToGrid | Lumix/Views/Midi/PianoRoll.cs:477-481 | With a non-zero spacing the result is a multiple of the spacing no farther from the tick than any other multiple; a zero spacing gives 0, since the non-finite quotient is multiplied by zero |
| PianoRoll.SnapIdempotent | Lumix/Views/Midi/PianoRoll.cs:477-481 | Snapping a snapped tick leaves it where it is, for every spacing |
| Notes.OverlapsWiden | Lumix/Views/Midi/PianoRoll.cs:1026-1034 | Two overlapping notes keep overlapping, both ways round, when either is widened |
| Carving.Carve | Lumix/Views/Midi/PianoRoll.cs:1036-1071 | What remains of the other note sounds exactly the ticks it sounded that the selected note does not: at most two non-empty pieces inside it, clear of the selected note and of each other, the first keeping its velocity and enable flag |
| Carving.Drop | Lumix/Views/Midi/PianoRoll.cs:1039 | The note leaves the list and every other listed note stays |
| Carving.Reshape | Lumix/Views/Midi/PianoRoll.cs:1059-1070 | Only that note's data changes |
| Carving.Append | Lumix/Views/Midi/PianoRoll.cs:1044-1058 | The new note is listed last under a fresh identity |
| Carving.Step | Lumix/Views/Midi/PianoRoll.cs:1026-1072 | A step only shrinks notes, touches no note but the other one, and does nothing unless the two clash |
| Carving.StepClears | Lumix/Views/Midi/PianoRoll.cs:1034-1071 | After a step on a clashing pair the other note is gone or clear of the selected one |
| Carving.StepList | Lumix/Views/Midi/PianoRoll.cs:1036-1071 | A step removes at most the other note and adds at most one, new, inside the other's old span and clear of both |
| OverlapResolution.Sweep | Lumix/Views/Midi/PianoRoll.cs:1024-1074 | The inner loop only shrinks notes, touches only notes of its snapshot, and never the selected note itself |
| OverlapResolution.Resolve | Lumix/Views/Midi/PianoRoll.cs:1022-1075 | The outer loop only shrinks notes and keeps the selection |
| OverlapResolution.SweepClears | Lumix/Views/Midi/PianoRoll.cs:1024-1074 | After a sweep no listed note clashes with its selected note |
| OverlapResolution.SweepOrigins | Lumix/Views/Midi/PianoRoll.cs:1044-1058 | Every note a sweep adds lies inside a note of its snapshot |
| OverlapResolution.SweepKeepsCleared | Lumix/Views/Midi/PianoRoll.cs:1022-1075 | A sweep keeps every earlier selected note clear |
| OverlapResolution.ResolveClears | Lumix/Views/Midi/PianoRoll.cs:1022-1075 | After the outer loop no listed note clashes with any selected note |
| OverlapResolution.ResolveDescends | Lumix/Views/Midi/PianoRoll.cs:1022-1075 | Every listed note lies inside a note listed before |
| OverlapResolution.SweepKeeps | Lumix/Views/Midi/PianoRoll.cs:1026 | A sweep leaves a note that does not clash with the selected note listed and unchanged |
| OverlapResolution.ResolveKeeps | Lumix/Views/Midi/PianoRoll.cs:1022-1075 | A note that clashes with no selected note survives the whole loop listed and unchanged |
| OverlapResolution.HandleOverlappingNotes | Lumix/Views/Midi/PianoRoll.cs:1020-1076 | Afterwards no listed note clashes with a selected one, every listed note lies inside one listed before, notes that clashed with nothing are kept unchanged, and notes only ever shrink |
| MidiExport.Kept | Lumix/Views/Midi/PianoRoll.cs:1159-1168 | Exactly the clip's events that are not NoteOn or NoteOff are kept, each as often as it occurred |
| MidiExport.NoteEvents | Lumix/Views/Midi/PianoRoll.cs:1171-1184 | Each listed note gives a NoteOn at its start with its velocity and a NoteOff at its end, in list order |
| MidiExport.Insert | Lumix/Views/Midi/PianoRoll.cs:1187 | Insertion adds exactly the one event |
| MidiExport.SortByTime | Lumix/Views/Midi/PianoRoll.cs:1187 | The sort is a permutation of its input |
| MidiExport.SortSorted | Lumix/Views/Midi/PianoRoll.cs:1187 | The sort's output is ordered by absolute time |
| MidiExport.SortStable | Lumix/Views/Midi/PianoRoll.cs:1187 | Events at the same tick keep their input order, as OrderBy promises |
| MidiExport.Encode | Lumix/Views/Midi/PianoRoll.cs:1190-1198 | One delta-timed event per event, the events in order |
| MidiExport.EncodeDecode | Lumix/Views/Midi/PianoRoll.cs:1190-1198 | On ordered times within 32 bits the deltas are non-negative and their running sums give back the absolute times |
| MidiExport.Collected | Lumix/Views/Midi/PianoRoll.cs:1156-1184 | The collection holds the kept clip events and two events per listed note |
| MidiExport.ToMidiFile | Lumix/Views/Midi/PianoRoll.cs:1150-1207 | The track holds the kept clip events and two events per listed note |
| MidiExport.NotesExported | Lumix/Views/Midi/PianoRoll.cs:1171-1187 | Every listed note, enabled or not, appears in the export as a NoteOn at its start and a NoteOff at its end |
| MidiExport.ToMidiFileRoundTrip | Lumix/Views/Midi/PianoRoll.cs:1150-1207 | With every time in [0, 2^31) the deltas are non-negative and decode to the time-sorted, stable permutation of the collected events |
| Decimal.NatToString | Lumix/Views/Arrangement/ArrangementView.cs:119 | A count prints as a non-empty string of decimal digits |
| Decimal.ParseNatToString | Lumix/Views/Arrangement/ArrangementView.cs:119 | A printed count reads back to itself, so track names built from different counts differ |
| Decimal.IntToString | Lumix/Views/Midi/PianoRoll.cs:1118 | An int prints with a leading minus exactly when it is negative, digits otherwise |
| Decimal.ParseIntToString | Lumix/Views/Midi/PianoRoll.cs:1118 | A printed int reads back to itself |
| CSharp.Rem | Lumix/Views/Midi/PianoRoll.cs:1105 | The remainder takes the dividend's sign, is smaller than the divisor in magnitude, and completes truncating division |
| CSharp.Clamp | Lumix/Views/Midi/VirtualKeyboard.cs:59 | The result lies in [lo, hi], is the value itself when that is in range and the nearer bound otherwise |
| CSharp.ToInt32 | Lumix/Views/Midi/PianoRoll.cs:1193 | The cast lands in the 32-bit range, agrees with the value modulo 2^32, and is the value itself when it fits |
| CSharp.Truncate | Lumix/Views/Midi/PianoRoll.cs:479 | The cast to long rounds toward zero |
| CSharp.RoundHalfEven | Lumix/Views/Midi/PianoRoll.cs:480 | Math.Round lands within a half of its argument and on the even integer at a tie |
| CSharp.RoundIsNearest | Lumix/Views/Midi/PianoRoll.cs:480 | No integer is strictly nearer the argument than its rounding |

## Left out

- ImGui rendering and layout is not modelled: ImGuiKnobs, UiElement, InfoBox, SidebarView, PreferencesView, the MidiClipView window, TopBarControls, BottomView, Program and Debug, and the drawing half of MasterTrack, MidiRenderer and WaveformRenderer. They only draw; the state changes they trigger are modelled where they happen.
- Device and file I/O are left out: AudioSettings, the CoreAudioEngine output device, WaveIn recording, and reading audio, MIDI and plugin files. The model receives files already opened, as formats, lengths and sample chunks, and a recording comes back as a parameter.
- MidiPreviewEngine.StopPreview, called when the transport stops, is left out; it only silences the device.
- Native VST hosting is left out: loading the plugin, its SDL editor window, EditorIdle, and the native side of Dispose. Only the MIDI byte triple sent to the plugin and the list of disposed plugins are modelled.
- MessageBox is left out. A warning is modelled as a flag in the result.
- NAudio's mixer summation, MeteringSampleProvider, BiQuadFilter and SimpleEqPlugin are kept opaque. Their sample arithmetic is floating point and library code. WaveFormat equality is modelled as equality of encoding, rate and channel count.
- DryWetMidi's Playback, TimeConverter and TempoMap are left out. GetTicksInBar is a parameter, and the tick/time conversions of the timeline are abstract.
- The velocity of the right-hand piece of a split note is a parameter, because it comes from DryWetMidi's default note velocity.
- Floating point is left out: Math.Pow for decibels, float rounding of intermediate results, NaN and infinities. Values are exact reals bounded by float.MaxValue where the code relies on that bound.
- Concurrency is left out. The waveform's Parallel.For is modelled as a sequential loop because its buckets are independent. The audio thread's concurrent reads of the track state are left out.
- TimeLineV2 and the MusicalTime and TimeSelection helpers are not part of this model beyond the positions they yield.
- The track colour is not carried in the track record. Only the colour choice, Theme.GetRandomColor with the random draw as a parameter, is modelled.
- The Space toggle of the virtual keyboard is modelled as an output flag asking the transport to play or stop; the transport call itself is modelled in Transport.
- Arrangement.EditSelected: the list of selected clip references is modelled as a list of clip identities. This is faithful only while every clip has its own identity, as every clip the program creates does.
- Theme.HexByte: accepts exactly two hex digits. Convert.ToInt32 with base 16 also accepts some prefixed forms, such as a leading sign, which the model reports as a FormatException.
- AdaptiveGrid.CalculateGridSpacing: the result is proved at least the minimum only when the maximum is at least twice the minimum. It is not at least the minimum in general, as AdaptiveGrid.NarrowRangeUndershoots shows for [16, 20], though every preset range meets the condition. The zoom and the maximum are required positive because the doubling and halving loops never end otherwise.
- Transport.StartRecording: on an armed MIDI track the model returns only the error. In the program the exception leaves the clock started and the earlier armed tracks recording, and that partial state is not returned.
- PianoRoll.NudgeAndResolve: the LengthChanged and TimeChanged handlers of the piano roll (Lumix/Views/Midi/PianoRoll.cs:202-211, 886-895 and 1047-1056) run synchronously each time a selected note is moved or resized, so in the program overlap handling can run in the middle of a nudge loop. The model applies the whole nudge first and then runs OverlapResolution.HandleOverlappingNotes once.
- Buffers.MapFrames: on an index error the program has already rewritten the earlier frames of the caller's array before it throws. The model returns only the error and not that partially rewritten buffer.
- TrackTypes.TrackType: the enum in Lumix/Tracks/Track.cs declares only Audio and Midi, while GroupTrack assigns a Group kind. The model follows the code that uses the kind and has three variants.

## Findings

The track engines and the preview engine are modelled as written, through Mixing.AdmitAsWritten. The corrected order is defined beside it as Mixing.Admit, and the two are proved to agree whenever the channel counts already match.

| source | as written | input that shows it | evidently intended | confidence | as-written member | corrected member |
|---|---|---|---|---|---|---|
| Lumix/Tracks/AudioTracks/TrackAudioEngine.cs:48-53 | The input's WaveFormat is compared with the mixer's before ConvertToRightChannelCount, so a mono input is refused with the format warning and the mono-to-stereo conversion is never reached (the same order is in Lumix/Views/Sidebar/Preview/AudioPreviewEngine.cs:57-65) | A mono IEEE float file at 44100 Hz offered to the stereo IEEE float mixer at 44100 Hz | Convert the channel count first, then compare the converted format, so the mono file is upmixed and played | not executed | Mixing.MonoFileRefused | Mixing.MonoIsUpmixed |
