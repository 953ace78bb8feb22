/**
 * The transport (Lumix/Views/Arrangement/TimeLine.cs): a clock counted in
 * beats-times-seconds that advances by frame time times tempo while running,
 * remembers where it was started, and on stop silences and disarms every
 * track. The tempo is the top bar's BPM knob, which clamps it to [20, 999].
 */
module Transport {
  import opened Wrappers
  import Engines
  import Tracks
  import Preview

  datatype TimeLine = TimeLine(current: real, running: bool, start: real)

  /** The static fields' initial values. */
  const Initial: TimeLine := TimeLine(0.0, false, 0.0)

  /** The tempo range the BPM knob keeps (AlwaysClamp to [20, 999]). */
  predicate ValidBpm(bpm: real)
  {
    20.0 <= bpm <= 999.0
  }

  /** StartTime: running, and the start point remembered. */
  function StartTime(tl: TimeLine): (r: TimeLine)
    ensures r.running && r.start == tl.current && r.current == tl.current
  {
    TimeLine(tl.current, true, tl.current)
  }

  /** OnUpdate: frame time times tempo is added while running; a stopped clock stays put. */
  function OnUpdate(tl: TimeLine, delta: real, bpm: real): (r: TimeLine)
    ensures !tl.running ==> r == tl
    ensures tl.running ==> r.running && r.start == tl.start && r.current - tl.current == delta * bpm
  {
    if tl.running then tl.(current := tl.current + delta * bpm) else tl
  }

  /** SetTime: the position is moved, nothing else. */
  function SetTime(tl: TimeLine, time: real): (r: TimeLine)
    ensures r.current == time && r.running == tl.running && r.start == tl.start
  {
    tl.(current := time)
  }

  /** GetTimeInSeconds: the position divided by the tempo. */
  function TimeInSeconds(tl: TimeLine, bpm: real): (sec: real)
    requires ValidBpm(bpm)
    ensures sec * bpm == tl.current
    ensures (sec >= 0.0) == (tl.current >= 0.0)
  {
    tl.current / bpm
  }

  /** The clock half of StopTime: stopped, back at the start point, or at zero when asked to move to start. */
  function StopClock(tl: TimeLine, moveToStart: bool): (r: TimeLine)
    ensures !r.running && r.current == r.start
    ensures moveToStart ==> r.current == 0.0
    ensures !moveToStart ==> r.current == tl.start
  {
    if moveToStart then TimeLine(0.0, false, 0.0) else TimeLine(tl.start, false, tl.start)
  }

  /** Successive frames, each with its frame time and the tempo of that frame. */
  function Run(tl: TimeLine, frames: seq<(real, real)>): TimeLine
    decreases |frames|
  {
    if |frames| == 0 then tl else Run(OnUpdate(tl, frames[0].0, frames[0].1), frames[1..])
  }

  /** Frames move only the position: the running flag and the start point survive any number of them. */
  lemma {:induction false} RunKeepsStart(tl: TimeLine, frames: seq<(real, real)>)
    ensures Run(tl, frames).running == tl.running && Run(tl, frames).start == tl.start
    decreases |frames|
  {
    if |frames| > 0 {
      RunKeepsStart(OnUpdate(tl, frames[0].0, frames[0].1), frames[1..]);
    }
  }

  /** A stopped clock ignores every frame. */
  lemma {:induction false} StoppedClockIsIdle(tl: TimeLine, frames: seq<(real, real)>)
    requires !tl.running
    ensures Run(tl, frames) == tl
    decreases |frames|
  {
    if |frames| > 0 {
      StoppedClockIsIdle(tl, frames[1..]);
    }
  }

  /** Play, let any frames pass, stop: the position is back where play was pressed. */
  lemma PlayThenStopReturns(tl: TimeLine, frames: seq<(real, real)>)
    ensures StopClock(Run(StartTime(tl), frames), false) == TimeLine(tl.current, false, tl.current)
  {
    RunKeepsStart(StartTime(tl), frames);
  }

  /** A position set while playing does not survive the stop. */
  lemma SetTimeForgottenAtStop(tl: TimeLine, time: real)
    ensures StopClock(SetTime(tl, time), false).current == tl.start
  {
  }

  // ----- the tracks' side of StopTime -----

  /**
   * One iteration of StopTime's loop: StopSounds, HasPlayed cleared on every
   * clip, and, when the engine is recording, StopRecording into the track
   * itself with the recorded file opened as `recorded`.
   */
  function StopTrack(t: Tracks.Track, clipId: nat, recorded: Engines.AudioFile): (r: Tracks.Track)
    ensures !Engines.IsRecording(r.engine)
    ensures forall j :: 0 <= j < |r.clips| ==> !r.clips[j].hasPlayed
    ensures !Engines.IsRecording(t.engine) ==> r == Tracks.StopSounds(t)
    ensures Engines.IsRecording(t.engine) ==>
      |r.clips| == |t.clips| + 1 && r.clips[|t.clips|].startTick == 0 && r.clips[|t.clips|].content.AudioContent?
      && r.engine.mixer.inputs == []
  {
    var s := Tracks.StopSounds(t);
    if Engines.IsRecording(s.engine) then
      Tracks.StopRecording(s, clipId, recorded).value
    else s
  }

  /** What StopTime leaves behind. */
  datatype Stopped = Stopped(timeline: TimeLine, preview: Preview.PreviewEngine, tracks: seq<Tracks.Track>)

  /**
   * StopTime(moveToStart): the clock stops, the sidebar preview falls silent
   * and every track is stopped in list order. Track i's recording, if any,
   * becomes clip `clipBase + i` over the file `recorded(i)`.
   */
  function StopTime(tl: TimeLine, moveToStart: bool, preview: Preview.PreviewEngine, tracks: seq<Tracks.Track>,
                    clipBase: nat, recorded: nat -> Engines.AudioFile): (r: Stopped)
    ensures r.timeline == StopClock(tl, moveToStart)
    ensures r.preview.mixer.inputs == []
    ensures |r.tracks| == |tracks|
    ensures forall i :: 0 <= i < |tracks| ==> !Engines.IsRecording(r.tracks[i].engine)
    ensures forall i, j :: 0 <= i < |tracks| && 0 <= j < |r.tracks[i].clips| ==> !r.tracks[i].clips[j].hasPlayed
    ensures forall i :: 0 <= i < |tracks| && !Engines.IsRecording(tracks[i].engine) ==>
      r.tracks[i] == Tracks.StopSounds(tracks[i])
    ensures forall i :: 0 <= i < |tracks| && Engines.IsRecording(tracks[i].engine) ==>
      |r.tracks[i].clips| == |tracks[i].clips| + 1
  {
    var stopped := seq(|tracks|, i requires 0 <= i < |tracks| => StopTrack(tracks[i], clipBase + i, recorded(i)));
    assert forall i :: 0 <= i < |tracks| ==> stopped[i] == StopTrack(tracks[i], clipBase + i, recorded(i));
    Stopped(StopClock(tl, moveToStart), Preview.StopSound(preview), stopped)
  }

  // ----- StartRecording -----

  /** One iteration of StartRecording's loop: an armed track's engine starts recording under `recordId`. */
  function Arm(t: Tracks.Track, recordId: nat): (r: Result<Tracks.Track>)
    ensures r.Err? <==> t.recordOnStart && t.engine.MidiEngine?
    ensures r.Ok? ==> r.value == t.(engine := r.value.engine)
    ensures r.Ok? ==> (Engines.IsRecording(r.value.engine) <==>
      Engines.IsRecording(t.engine) || (t.recordOnStart && t.engine.AudioEngine?))
  {
    if t.recordOnStart then
      match Engines.StartRecording(t.engine, recordId)
      case Err(f) => Err(f)
      case Ok(e) => Ok(t.(engine := e))
    else Ok(t)
  }

  /** The loop over tracks[i..], track k recording under `idBase + k`; the first failure is the result. */
  function ArmFrom(tracks: seq<Tracks.Track>, i: nat, idBase: nat): (r: Result<seq<Tracks.Track>>)
    requires i <= |tracks|
    ensures r.Ok? <==> forall k :: i <= k < |tracks| ==> Arm(tracks[k], idBase + k).Ok?
    ensures r.Err? ==> r.fault == NotImplemented
    ensures r.Ok? ==> |r.value| == |tracks| - i
    ensures r.Ok? ==> forall k :: i <= k < |tracks| ==> r.value[k - i] == Arm(tracks[k], idBase + k).value
    decreases |tracks| - i
  {
    if i == |tracks| then Ok([])
    else
      match Arm(tracks[i], idBase + i)
      case Err(f) => Err(f)
      case Ok(t) =>
        match ArmFrom(tracks, i + 1, idBase)
        case Err(f) => Err(f)
        case Ok(rest) => Ok([t] + rest)
  }

  /**
   * StartRecording: the clock starts, then every armed track starts
   * recording. A MIDI engine throws on StartRecording, so an armed MIDI track
   * makes the whole call fail.
   */
  function StartRecording(tl: TimeLine, tracks: seq<Tracks.Track>, idBase: nat): (r: Result<(TimeLine, seq<Tracks.Track>)>)
    ensures r.Ok? <==> forall k :: 0 <= k < |tracks| ==> !(tracks[k].recordOnStart && tracks[k].engine.MidiEngine?)
    ensures r.Ok? ==> r.value.0 == StartTime(tl) && |r.value.1| == |tracks|
    ensures r.Ok? ==> forall k :: 0 <= k < |tracks| ==>
      r.value.1[k] == tracks[k].(engine := r.value.1[k].engine)
      && (Engines.IsRecording(r.value.1[k].engine) <==>
          Engines.IsRecording(tracks[k].engine) || (tracks[k].recordOnStart && tracks[k].engine.AudioEngine?))
  {
    match ArmFrom(tracks, 0, idBase)
    case Err(f) => Err(f)
    case Ok(armed) => Ok((StartTime(tl), armed))
  }

  /**
   * Record, then stop: every track that was recording or that the start
   * armed comes back with exactly one new clip at tick 0, the recording;
   * every other track keeps its clips.
   */
  lemma RecordThenStop(tl: TimeLine, tracks: seq<Tracks.Track>, idBase: nat, moveToStart: bool,
                       preview: Preview.PreviewEngine, clipBase: nat, recorded: nat -> Engines.AudioFile)
    requires StartRecording(tl, tracks, idBase).Ok?
    ensures var started := StartRecording(tl, tracks, idBase).value;
      var stopped := StopTime(started.0, moveToStart, preview, started.1, clipBase, recorded);
      && stopped.timeline.current == (if moveToStart then 0.0 else tl.current)
      && forall k :: 0 <= k < |tracks| ==>
        |stopped.tracks[k].clips| ==
          |tracks[k].clips| + (if Engines.IsRecording(tracks[k].engine) || (tracks[k].recordOnStart && tracks[k].engine.AudioEngine?) then 1 else 0)
  {
  }
}
