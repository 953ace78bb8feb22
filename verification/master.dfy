/**
 * The master bus (Lumix/Tracks/Master/MasterAudioEngine.cs) and group
 * tracks (Lumix/Tracks/GroupTracks/GroupTrack.cs), which re-route member
 * tracks from the master mixer to the group's own mixer.
 */
module Master {
  import opened Seqs
  import opened Mixing
  import opened Engines

  /** The master chain: mixer, stereo, metering, and no mute gate. */
  const MasterPipeline: seq<Stage> := [MixerStage, StereoStage, MeteringStage]

  /** The master chain differs from a track's in exactly the missing plugin chain and gate. */
  lemma MasterIsUngated()
    ensures TrackStateStage !in MasterPipeline && PluginChainStage !in MasterPipeline
    ensures forall s :: s in MasterPipeline ==> s in TrackPipeline
    ensures TrackPipeline[|TrackPipeline| - 1] == TrackStateStage
  {
  }

  datatype MasterEngine = MasterEngine(mixer: Mixer)

  function New(sampleRate: int, channels: int): (m: MasterEngine)
    ensures m.mixer == NewMixer(sampleRate, channels)
  {
    MasterEngine(NewMixer(sampleRate, channels))
  }

  /** AddTrack: the engine's final stage joins the master inputs. */
  function AddTrack(m: MasterEngine, e: Engine): (m': MasterEngine)
    ensures m'.mixer.format == m.mixer.format
    ensures m'.mixer.inputs == m.mixer.inputs + [TrackOutput(e.id)]
  {
    MasterEngine(Add(m.mixer, Output(e)))
  }

  /** RemoveTrack: the first occurrence of the engine's final stage leaves; the rest keep their order. */
  function RemoveTrack(m: MasterEngine, e: Engine): (m': MasterEngine)
    ensures m'.mixer.format == m.mixer.format
    ensures multiset(m'.mixer.inputs) == multiset(m.mixer.inputs) - multiset{TrackOutput(e.id)}
    ensures TrackOutput(e.id) !in m.mixer.inputs ==> m' == m
    ensures TrackOutput(e.id) in m.mixer.inputs ==>
      var k := IndexOf(m.mixer.inputs, TrackOutput(e.id));
      m'.mixer.inputs == m.mixer.inputs[..k] + m.mixer.inputs[k + 1..]
  {
    MasterEngine(Remove(m.mixer, Output(e)))
  }

  /** RemoveAllTracks. */
  function RemoveAllTracks(m: MasterEngine): (m': MasterEngine)
    ensures m'.mixer.format == m.mixer.format && m'.mixer.inputs == []
  {
    MasterEngine(RemoveAll(m.mixer))
  }

  function AddAudioTrack(m: MasterEngine, e: Engine): (m': MasterEngine)
    requires e.AudioEngine?
    ensures m'.mixer.inputs == m.mixer.inputs + [TrackOutput(e.id)]
  {
    MasterEngine(Add(m.mixer, Output(e)))
  }

  function RemoveAudioTrack(m: MasterEngine, e: Engine): (m': MasterEngine)
    requires e.AudioEngine?
    ensures multiset(m'.mixer.inputs) == multiset(m.mixer.inputs) - multiset{TrackOutput(e.id)}
  {
    MasterEngine(Remove(m.mixer, Output(e)))
  }

  function AddMidiTrack(m: MasterEngine, e: Engine): (m': MasterEngine)
    requires e.MidiEngine?
    ensures m'.mixer.inputs == m.mixer.inputs + [TrackOutput(e.id)]
  {
    MasterEngine(Add(m.mixer, Output(e)))
  }

  function RemoveMidiTrack(m: MasterEngine, e: Engine): (m': MasterEngine)
    requires e.MidiEngine?
    ensures multiset(m'.mixer.inputs) == multiset(m.mixer.inputs) - multiset{TrackOutput(e.id)}
  {
    MasterEngine(Remove(m.mixer, Output(e)))
  }

  /** The typed variants do exactly what the generic ones do. */
  lemma TypedAgree(m: MasterEngine, e: Engine)
    ensures e.AudioEngine? ==> AddAudioTrack(m, e) == AddTrack(m, e) && RemoveAudioTrack(m, e) == RemoveTrack(m, e)
    ensures e.MidiEngine? ==> AddMidiTrack(m, e) == AddTrack(m, e) && RemoveMidiTrack(m, e) == RemoveTrack(m, e)
  {
  }

  /** Removing a track that was added once undoes the addition exactly. */
  lemma AddThenRemove(m: MasterEngine, e: Engine)
    requires TrackOutput(e.id) !in m.mixer.inputs
    ensures RemoveTrack(AddTrack(m, e), e) == m
  {
    RemoveFirstBehind(m.mixer.inputs, [TrackOutput(e.id)], TrackOutput(e.id));
    assert m.mixer.inputs + [] == m.mixer.inputs;
  }
}

module GroupTracks {
  import opened Mixing
  import opened TrackTypes
  import opened Engines
  import Master

  /** A track as a group sees it: its identity (that of its engine) and its kind. */
  datatype Member = Member(id: nat, kind: TrackType)

  datatype GroupTrack = GroupTrack(id: nat, mixer: Mixer, members: seq<Member>)

  /** The group's engine as the master sees it. */
  function EngineOf(g: GroupTrack): (e: Engine)
    ensures e.GroupEngine? && e.id == g.id && e.mixer == g.mixer
  {
    GroupEngine(g.id, g.mixer)
  }

  /** The constructor: a group engine with an empty mixer, whose output joins the master inputs. */
  function Create(id: nat, sampleRate: int, master: Master.MasterEngine): (r: (GroupTrack, Master.MasterEngine))
    ensures r.0.members == [] && r.0.mixer == NewMixer(sampleRate, 2) && r.0.id == id
    ensures r.1.mixer.inputs == master.mixer.inputs + [TrackOutput(id)]
  {
    var g := GroupTrack(id, NewMixer(sampleRate, 2), []);
    (g, Master.AddTrack(master, EngineOf(g)))
  }

  /** Move a track's output from the master mixer into the group's and record it as a member. */
  function Join(g: GroupTrack, master: Master.MasterEngine, t: Member): (r: (GroupTrack, Master.MasterEngine))
    ensures r.0.id == g.id && r.0.members == g.members + [t]
    ensures r.0.mixer.inputs == g.mixer.inputs + [TrackOutput(t.id)]
    ensures multiset(r.1.mixer.inputs) == multiset(master.mixer.inputs) - multiset{TrackOutput(t.id)}
  {
    (GroupTrack(g.id, Add(g.mixer, TrackOutput(t.id)), g.members + [t]),
     Master.RemoveTrack(master, NewEngine(t.id, t.kind, 0, 0)))
  }

  /**
   * AddTrackToGroup: the first member fixes the kind. A track of another kind
   * is refused with nothing changed; otherwise it joins (no check for a track
   * that is already a member, or for the group itself).
   */
  function AddTrackToGroup(g: GroupTrack, master: Master.MasterEngine, t: Member): (r: (GroupTrack, Master.MasterEngine, bool))
    ensures r.2 <==> |g.members| == 0 || g.members[0].kind == t.kind
    ensures !r.2 ==> r.0 == g && r.1 == master
    ensures r.2 ==> (r.0, r.1) == Join(g, master, t)
  {
    if |g.members| == 0 then
      var j := Join(g, master, t); (j.0, j.1, true)
    else if g.members[0].kind != t.kind then (g, master, false)
    else
      var j := Join(g, master, t); (j.0, j.1, true)
  }

  /** All members share one kind. */
  predicate Homogeneous(g: GroupTrack)
  {
    forall i :: 0 <= i < |g.members| ==> g.members[i].kind == g.members[0].kind
  }

  /** AddTrackToGroup keeps a group single-kind, and keeps join order. */
  lemma AddKeepsHomogeneous(g: GroupTrack, master: Master.MasterEngine, t: Member)
    requires Homogeneous(g)
    ensures Homogeneous(AddTrackToGroup(g, master, t).0)
    ensures AddTrackToGroup(g, master, t).0.members[..|g.members|] == g.members
  {
    var r := AddTrackToGroup(g, master, t);
    if r.2 {
      assert r.0.members == g.members + [t];
    }
  }

  /** Adding a member again appends it a second time, and feeds its output to the group mixer twice. */
  lemma ReAddAppendsAgain(g: GroupTrack, master: Master.MasterEngine, t: Member)
    requires |g.members| > 0 && g.members[0].kind == t.kind && t in g.members
    ensures var g' := AddTrackToGroup(g, master, t).0;
      |g'.members| == |g.members| + 1 && multiset(g'.members)[t] == multiset(g.members)[t] + 1
  {
  }
}
