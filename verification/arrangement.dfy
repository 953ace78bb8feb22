/**
 * The arrangement's state rules (Lumix/Views/Arrangement/ArrangementView.cs
 * and the track context menu in Lumix/Tracks/Track.cs): creating,
 * inserting and deleting tracks, the keyboard shortcuts on the selected
 * clips, and the per-frame scheduler that starts each clip once per run.
 *
 * Tracks are identified by the `id` the model hands out (the source uses a
 * fresh Guid and reference identity); selected clips are identified by clip id.
 * The transport's tick, its tick-to-seconds conversion and whether it plays
 * belong to TimeLineV2, which is not part of this model: they are parameters.
 */
module Arrangement {
  import opened Wrappers
  import opened Seqs
  import opened TrackTypes
  import Engines
  import Master
  import Mixing
  import Tracks
  import Clips
  import Decimal

  /** What ArrangementView holds: its tracks, the master mixer, the next track identity and the sample rate. */
  datatype View = View(tracks: seq<Tracks.Track>, master: Master.MasterEngine, nextId: nat, sampleRate: int)

  /** Track identities are distinct and below the next one handed out. */
  predicate Valid(a: View)
  {
    && (forall i :: 0 <= i < |a.tracks| ==> a.tracks[i].id < a.nextId)
    && (forall i, j :: 0 <= i < j < |a.tracks| ==> a.tracks[i].id != a.tracks[j].id)
  }

  /** The AudioTrack / MidiTrack constructor: a fresh track whose engine the master mixer takes on at once. */
  function Construct(a: View, kind: TrackType, name: string): (r: (View, Tracks.Track))
    requires kind != Group
    ensures r.0 == a.(master := r.0.master, nextId := a.nextId + 3)
    ensures r.0.master.mixer.inputs == a.master.mixer.inputs + [Mixing.TrackOutput(a.nextId)]
    ensures r.1.id == a.nextId && r.1.kind == kind && r.1.name == name
    ensures r.1.clips == [] && !Engines.IsRecording(r.1.engine)
  {
    var t := Tracks.NewTrack(a.nextId, kind, name, a.sampleRate, a.nextId + 1, a.nextId + 2);
    (a.(master := Master.AddTrack(a.master, t.engine), nextId := a.nextId + 3), t)
  }

  /** List.Insert at a position in range, or Add when the position is the end. */
  function Place(ts: seq<Tracks.Track>, t: Tracks.Track, p: nat): (r: seq<Tracks.Track>)
    requires p <= |ts|
    ensures |r| == |ts| + 1 && r[p] == t
    ensures r[..p] == ts[..p] && r[p + 1..] == ts[p..]
  {
    ts[..p] + [t] + ts[p..]
  }

  /** Where a track lands for NewAudioTrack/NewMidiTrack's index: -1 appends, anything else is List.Insert's index. */
  function Slot(a: View, index: int): int
  {
    if index == -1 then |a.tracks| else index
  }

  /**
   * NewAudioTrack / NewMidiTrack(name, index). The constructor runs first,
   * so the master mixer has the new engine's output even when List.Insert
   * then throws on an index outside [0, Count].
   */
  function NewTrack(a: View, kind: TrackType, name: string, index: int): (r: (View, Result<Tracks.Track>))
    requires kind != Group
    ensures r.0.master.mixer.inputs == a.master.mixer.inputs + [Mixing.TrackOutput(a.nextId)]
    ensures r.0.nextId > a.nextId
    ensures r.1.Ok? <==> index == -1 || 0 <= index <= |a.tracks|
    ensures r.1.Err? ==> r.1.fault == ArgumentFault && r.0.tracks == a.tracks
    ensures r.1.Ok? ==>
      var p := Slot(a, index);
      && 0 <= p <= |a.tracks|
      && |r.0.tracks| == |a.tracks| + 1 && r.0.tracks[p] == r.1.value
      && r.0.tracks[..p] == a.tracks[..p] && r.0.tracks[p + 1..] == a.tracks[p..]
      && r.1.value.id == a.nextId && r.1.value.kind == kind && r.1.value.name == name
      && r.1.value.clips == [] && !Engines.IsRecording(r.1.value.engine)
  {
    var (b, t) := Construct(a, kind, name);
    if index == -1 || 0 <= index <= |a.tracks| then
      (b.(tracks := Place(a.tracks, t, Slot(a, index))), Ok(t))
    else (b, Err(ArgumentFault))
  }

  /** A new track keeps the identities distinct. */
  lemma NewTrackKeepsValid(a: View, kind: TrackType, name: string, index: int)
    requires kind != Group && Valid(a)
    ensures Valid(NewTrack(a, kind, name, index).0)
  {
    var r := NewTrack(a, kind, name, index);
    if r.1.Ok? {
      var p := Slot(a, index);
      var t := r.1.value;
      assert r.0.tracks == Place(a.tracks, t, p);
      assert r.0.nextId > t.id == a.nextId;
      forall i | 0 <= i < |r.0.tracks| && i != p
        ensures r.0.tracks[i] == a.tracks[if i < p then i else i - 1]
      {
        PlaceIndex(a.tracks, t, p, i);
      }
    }
  }

  /** Every position of a placed list other than p holds the old element, shifted past p. */
  lemma PlaceIndex(ts: seq<Tracks.Track>, t: Tracks.Track, p: nat, i: nat)
    requires p <= |ts| && i <= |ts| && i != p
    ensures Place(ts, t, p)[i] == ts[if i < p then i else i - 1]
  {
    var r := Place(ts, t, p);
    if i < p {
      assert r[i] == r[..p][i];
    } else {
      assert r[i] == r[p + 1..][i - p - 1];
    }
  }

  /** n tracks of one kind, each appended and named "Track <count at that moment>". */
  function AddNamed(a: View, kind: TrackType, n: nat): (r: View)
    requires kind != Group
    ensures |r.tracks| == |a.tracks| + n
    ensures forall i :: 0 <= i < |a.tracks| ==> r.tracks[i] == a.tracks[i]
    ensures forall i :: |a.tracks| <= i < |r.tracks| ==>
      r.tracks[i].kind == kind && r.tracks[i].name == "Track " + Decimal.NatToString(i) && r.tracks[i].clips == []
    ensures |r.master.mixer.inputs| == |a.master.mixer.inputs| + n
    decreases n
  {
    if n == 0 then a
    else
      var p := |a.tracks|;
      var b := NewTrack(a, kind, "Track " + Decimal.NatToString(p), -1).0;
      assert forall i :: 0 <= i < p ==> b.tracks[i] == b.tracks[..p][i];
      var c := AddNamed(b, kind, n - 1);
      assert b.tracks[p].kind == kind && b.tracks[p].name == "Track " + Decimal.NatToString(p) && b.tracks[p].clips == [];
      assert c.tracks[p] == b.tracks[p];
      c
  }

  /** Init: five audio tracks, then five MIDI tracks, named by their position. */
  function Init(a: View): (r: View)
    ensures |r.tracks| == |a.tracks| + 10
    ensures forall i :: 0 <= i < |a.tracks| ==> r.tracks[i] == a.tracks[i]
    ensures forall i :: |a.tracks| <= i < |r.tracks| ==>
      r.tracks[i].kind == (if i < |a.tracks| + 5 then Audio else Midi)
      && r.tracks[i].name == "Track " + Decimal.NatToString(i)
    ensures |r.master.mixer.inputs| == |a.master.mixer.inputs| + 10
  {
    var b := AddNamed(a, Audio, PerKind);
    var c := AddNamed(b, Midi, PerKind);
    assert forall i :: |a.tracks| <= i < |b.tracks| ==> c.tracks[i] == b.tracks[i];
    c
  }

  /** How many tracks of each kind Init creates. */
  const PerKind: nat := 5

  /** Below ten, the decimal text is the single digit. */
  lemma OneDigit(n: nat)
    requires n < 10
    ensures Decimal.NatToString(n) == [Decimal.DigitChar(n)]
  {
  }

  /** On an empty arrangement Init yields "Track 0" to "Track 9", audio first. */
  lemma InitFromEmpty(master: Master.MasterEngine, nextId: nat, sampleRate: int)
    ensures var r := Init(View([], master, nextId, sampleRate));
      && |r.tracks| == 10
      && (forall i :: 0 <= i < 5 ==> r.tracks[i].kind == Audio)
      && (forall i :: 5 <= i < 10 ==> r.tracks[i].kind == Midi)
      && (forall i :: 0 <= i < 10 ==> r.tracks[i].name == "Track " + [Decimal.DigitChar(i)])
  {
    var r := Init(View([], master, nextId, sampleRate));
    forall i | 0 <= i < 10 ensures r.tracks[i].name == "Track " + [Decimal.DigitChar(i)] {
      OneDigit(i);
    }
  }

  /**
   * The context menu's Delete: `Tracks.Remove(this)`. Only the list changes;
   * the master mixer keeps the deleted track's output.
   */
  function DeleteTrack(a: View, t: Tracks.Track): (r: View)
    requires Valid(a)
    ensures r.master == a.master && r.nextId == a.nextId
    ensures t !in a.tracks ==> r == a
    ensures t in a.tracks ==> |r.tracks| == |a.tracks| - 1
    ensures t !in r.tracks
    ensures forall u :: u in r.tracks <==> u in a.tracks && u != t
    ensures t in a.tracks ==>
      var k := IndexOf(a.tracks, t);
      r.tracks == a.tracks[..k] + a.tracks[k + 1..]
  {
    assert t in a.tracks ==> RemoveFirst(a.tracks, t) == a.tracks[..IndexOf(a.tracks, t)] + a.tracks[IndexOf(a.tracks, t) + 1..] by {
      if t in a.tracks { RemoveFirstSplits(a.tracks, t); }
    }
    assert Distinct(a.tracks) by {
      forall i, j | 0 <= i < j < |a.tracks| ensures a.tracks[i] != a.tracks[j] {
        assert a.tracks[i].id != a.tracks[j].id;
      }
    }
    RemoveFirstDistinct(a.tracks, t);
    a.(tracks := RemoveFirst(a.tracks, t))
  }

  /** Deleting the track NewTrack just placed gives back the old track list. */
  lemma {:induction false} NewThenDelete(a: View, kind: TrackType, name: string, index: int)
    requires kind != Group && Valid(a)
    requires index == -1 || 0 <= index <= |a.tracks|
    ensures Valid(NewTrack(a, kind, name, index).0)
    ensures DeleteTrack(NewTrack(a, kind, name, index).0, NewTrack(a, kind, name, index).1.value).tracks == a.tracks
  {
    var (b, res) := NewTrack(a, kind, name, index);
    var t := res.value;
    var p := Slot(a, index);
    NewTrackKeepsValid(a, kind, name, index);
    assert b.tracks == Place(a.tracks, t, p);
    AppendAssoc(a.tracks[..p], [t], a.tracks[p..]);
    FreshNotBefore(a, t, p);
    RemoveFirstBehind(a.tracks[..p], [t] + a.tracks[p..], t);
    SplitJoin(a.tracks, p);
  }

  /** A track whose identity has not been handed out yet is nowhere in the list. */
  lemma FreshNotBefore(a: View, t: Tracks.Track, p: nat)
    requires Valid(a) && t.id >= a.nextId && p <= |a.tracks|
    ensures t !in a.tracks[..p]
  {
    forall i | 0 <= i < p ensures a.tracks[..p][i] != t {
      assert a.tracks[..p][i].id < a.nextId;
    }
  }

  /** The name prefix of the Insert menu items and the Ctrl+T shortcuts. */
  function KindLabel(kind: TrackType): string
  {
    match kind
    case Audio => "Audio Track "
    case Midi => "Midi Track "
    case Group => "Group Track "
  }

  /**
   * "Insert Audio/Midi Track" and Ctrl+T / Ctrl+Shift+T: a new track at
   * `IndexOf(anchor) + 1`, named by the current count. With no anchor, or
   * one not in the list, IndexOf gives -1 and the track goes first; the
   * index is therefore always in range.
   */
  function InsertAfter(a: View, anchor: Option<Tracks.Track>, kind: TrackType): (r: (View, Tracks.Track))
    requires kind != Group
    ensures |r.0.tracks| == |a.tracks| + 1
    ensures r.1.kind == kind && r.1.name == KindLabel(kind) + Decimal.NatToString(|a.tracks|)
    ensures r.0.master.mixer.inputs == a.master.mixer.inputs + [Mixing.TrackOutput(r.1.id)]
    ensures anchor.Some? && anchor.value in a.tracks ==>
      var k := IndexOf(a.tracks, anchor.value);
      r.0.tracks[k] == anchor.value && r.0.tracks[k + 1] == r.1 && r.0.tracks[..k + 1] == a.tracks[..k + 1]
    ensures anchor.None? || anchor.value !in a.tracks ==> r.0.tracks == [r.1] + a.tracks
  {
    var index := match anchor case None => 0 case Some(t) => IndexOf(a.tracks, t) + 1;
    var (b, res) := NewTrack(a, kind, KindLabel(kind) + Decimal.NatToString(|a.tracks|), index);
    assert anchor.None? || anchor.value !in a.tracks ==> b.tracks == [res.value] + a.tracks by {
      if anchor.None? || anchor.value !in a.tracks {
        assert b.tracks[1..] == a.tracks[0..];
      }
    }
    (b, res.value)
  }

  // ----- keyboard shortcuts on the selected clips -----

  /** What one of the clip shortcuts does to a clip. */
  datatype ClipEdit = MarkDelete | MarkDuplicate | FlipEnabled

  function EditClip(c: Clips.Clip, e: ClipEdit): (r: Clips.Clip)
    ensures e.MarkDelete? ==> r == c.(deleteRequested := true)
    ensures e.MarkDuplicate? ==> r == c.(duplicateRequested := true)
    ensures e.FlipEnabled? ==> r == Clips.ToggleEnabled(c)
  {
    match e
    case MarkDelete => c.(deleteRequested := true)
    case MarkDuplicate => c.(duplicateRequested := true)
    case FlipEnabled => Clips.ToggleEnabled(c)
  }

  /** One edit applied to the clips whose id is selected. */
  function EditClips(cs: seq<Clips.Clip>, selected: seq<nat>, e: ClipEdit): (r: seq<Clips.Clip>)
    ensures |r| == |cs|
    ensures forall j :: 0 <= j < |cs| ==> r[j] == if cs[j].id in selected then EditClip(cs[j], e) else cs[j]
  {
    seq(|cs|, j requires 0 <= j < |cs| => if cs[j].id in selected then EditClip(cs[j], e) else cs[j])
  }

  /** `SelectedClips.ForEach(...)`, over every track that holds a selected clip. */
  function EditSelected(tracks: seq<Tracks.Track>, selected: seq<nat>, e: ClipEdit): (r: seq<Tracks.Track>)
    ensures |r| == |tracks|
    ensures forall i :: 0 <= i < |tracks| ==> r[i] == tracks[i].(clips := EditClips(tracks[i].clips, selected, e))
  {
    seq(|tracks|, i requires 0 <= i < |tracks| => tracks[i].(clips := EditClips(tracks[i].clips, selected, e)))
  }

  /** Pressing '0' twice gives every clip back its Enabled flag. */
  lemma FlipTwiceRestores(tracks: seq<Tracks.Track>, selected: seq<nat>)
    ensures EditSelected(EditSelected(tracks, selected, FlipEnabled), selected, FlipEnabled) == tracks
  {
    var once := EditSelected(tracks, selected, FlipEnabled);
    var twice := EditSelected(once, selected, FlipEnabled);
    forall i | 0 <= i < |tracks| ensures twice[i] == tracks[i] {
      var cs := tracks[i].clips;
      var back := EditClips(EditClips(cs, selected, FlipEnabled), selected, FlipEnabled);
      forall j | 0 <= j < |cs| ensures back[j] == cs[j] {
        if cs[j].id in selected {
          assert EditClips(cs, selected, FlipEnabled)[j].id == cs[j].id;
        }
      }
      assert back == cs;
    }
  }

  /** Removal keeps only clips that were there. */
  lemma {:induction false} WithoutKeeps(cs: seq<Clips.Clip>, q: Tracks.Request)
    ensures forall c :: c in Tracks.Without(cs, q) ==> c in cs
    decreases |cs|
  {
    if |cs| > 0 {
      WithoutKeeps(cs[1..], q);
    }
  }

  /**
   * Delete, then let the track render: once every pending deletion has been
   * served (one per render), no selected clip is left on any track.
   */
  lemma DeleteKeyEmptiesSelection(tracks: seq<Tracks.Track>, selected: seq<nat>, i: nat)
    requires i < |tracks|
    ensures var cs := EditSelected(tracks, selected, MarkDelete)[i].clips;
      forall c :: c in Tracks.DeleteRenders(cs, |cs|) ==> c.id !in selected
  {
    var cs := EditSelected(tracks, selected, MarkDelete)[i].clips;
    Tracks.RendersDrainDeletions(cs, |cs|);
    WithoutKeeps(cs, Tracks.DeleteRequest);
    forall c | c in Tracks.DeleteRenders(cs, |cs|) ensures c.id !in selected {
      var w := Tracks.Without(cs, Tracks.DeleteRequest);
      var k :| 0 <= k < |w| && w[k] == c;
      assert !w[k].deleteRequested;
    }
  }

  /** The keys of one frame that the shortcuts look at. */
  datatype Keys = Keys(delete: bool, ctrl: bool, shift: bool, d: bool, zero: bool, t: bool)

  /**
   * ListenForShortcuts, in its order: Delete, Ctrl+D and '0' on the selected
   * clips, then Ctrl+T (audio) or Ctrl+Shift+T (MIDI) after the selected
   * track, which becomes the selected track. The arrow keys do nothing.
   */
  function Shortcuts(a: View, clips: seq<nat>, track: Option<Tracks.Track>, keys: Keys): (r: (View, Option<Tracks.Track>))
    ensures |r.0.tracks| == |a.tracks| + (if keys.ctrl && keys.t then 1 else 0)
    ensures !(keys.ctrl && keys.t) ==> r.1 == track && r.0.master == a.master
    ensures keys.ctrl && keys.t ==> r.1.Some? && r.1.value.kind == (if keys.shift then Midi else Audio)
    ensures !keys.delete && !(keys.ctrl && keys.d) && !keys.zero && !(keys.ctrl && keys.t) ==> r == (a, track)
  {
    var t0 := a.tracks;
    var t1 := if keys.delete then EditSelected(t0, clips, MarkDelete) else t0;
    var t2 := if keys.ctrl && keys.d then EditSelected(t1, clips, MarkDuplicate) else t1;
    var t3 := if keys.zero then EditSelected(t2, clips, FlipEnabled) else t2;
    var b := a.(tracks := t3);
    if keys.ctrl && !keys.shift && keys.t then
      var (c, n) := InsertAfter(b, track, Audio);
      (c, Some(n))
    else if keys.ctrl && keys.shift && keys.t then
      var (c, n) := InsertAfter(b, track, Midi);
      (c, Some(n))
    else (b, track)
  }

  // ----- the scheduler -----

  /** A clip is started when the transport plays, the playhead has reached it and it has not played in this run. */
  predicate Due(c: Clips.Clip, playing: bool, tick: int)
  {
    playing && tick >= c.startTick && !c.hasPlayed
  }

  /**
   * The engine call that starts a clip: the offset is the time from the
   * clip's start to the playhead; audio plays to its end, MIDI gets the
   * offset scaled by BPM / 120.
   */
  function ClipCall(c: Clips.Clip, tick: int, bpm: real, seconds: int -> real): (call: Engines.Call)
    ensures c.content.AudioContent? ==>
      call == Engines.FireAudioCall(c.content.file, seconds(tick) - seconds(c.startTick), 0.0)
    ensures c.content.MidiContent? ==>
      && call.FireMidiCall? && call.file == c.content.data
      && call.offset == (seconds(tick) - seconds(c.startTick)) * bpm / 120.0 && call.bpm == bpm
  {
    var offset := seconds(tick) - seconds(c.startTick);
    match c.content
    case AudioContent(file, _) => Clips.PlayAudio(file, offset, 0.0)
    case MidiContent(data) => Clips.PlayMidi(data, offset * bpm / 120.0, bpm)
  }

  /** The due clips that are enabled, in list order: these are the ones started. */
  function Started(cs: seq<Clips.Clip>, playing: bool, tick: int): (r: nat)
    ensures r <= |cs|
    ensures !playing ==> r == 0
  {
    if |cs| == 0 then 0 else (if Due(cs[0], playing, tick) && cs[0].enabled then 1 else 0) + Started(cs[1..], playing, tick)
  }

  /**
   * The inner loop over a track's clips: every due clip is marked played,
   * enabled or not, and the enabled ones each produce their engine call.
   */
  function ScanClips(cs: seq<Clips.Clip>, playing: bool, tick: int, bpm: real, seconds: int -> real): (r: (seq<Clips.Clip>, seq<Engines.Call>))
    ensures |r.0| == |cs|
    ensures forall j :: 0 <= j < |cs| ==> r.0[j] == if Due(cs[j], playing, tick) then cs[j].(hasPlayed := true) else cs[j]
    ensures |r.1| == Started(cs, playing, tick)
    ensures forall call :: call in r.1 ==>
      exists j :: 0 <= j < |cs| && Due(cs[j], playing, tick) && cs[j].enabled && call == ClipCall(cs[j], tick, bpm, seconds)
    decreases |cs|
  {
    if |cs| == 0 then ([], [])
    else
      var c := cs[0];
      var rest := ScanClips(cs[1..], playing, tick, bpm, seconds);
      var here := if Due(c, playing, tick) then c.(hasPlayed := true) else c;
      var calls := (if Due(c, playing, tick) && c.enabled then [ClipCall(c, tick, bpm, seconds)] else []) + rest.1;
      forall call | call in calls
        ensures exists j :: 0 <= j < |cs| && Due(cs[j], playing, tick) && cs[j].enabled && call == ClipCall(cs[j], tick, bpm, seconds)
      {
        if call !in rest.1 {
          assert Due(cs[0], playing, tick) && cs[0].enabled && call == ClipCall(cs[0], tick, bpm, seconds);
        } else {
          var j :| 0 <= j < |cs[1..]| && Due(cs[1..][j], playing, tick) && cs[1..][j].enabled && call == ClipCall(cs[1..][j], tick, bpm, seconds);
          assert cs[j + 1] == cs[1..][j];
        }
      }
      ([here] + rest.0, calls)
  }

  /** One track's clips scanned, then the calls played on its engine; a call that throws ends the frame. */
  function FireTrack(t: Tracks.Track, playing: bool, tick: int, bpm: real, seconds: int -> real): (r: Result<Tracks.Track>)
    ensures !playing ==> r == Ok(t)
    ensures r.Ok? ==> r.value == t.(engine := r.value.engine, clips := ScanClips(t.clips, playing, tick, bpm, seconds).0)
    ensures r.Ok? ==> r.value.engine.id == t.engine.id
  {
    var s := ScanClips(t.clips, playing, tick, bpm, seconds);
    if !playing then
      assert s.0 == t.clips;
      assert s.1 == [];
      Ok(t)
    else
      match Engines.ApplyAll(t.engine, s.1)
      case Err(f) => Err(f)
      case Ok(e) =>
        ApplyAllKeepsId(t.engine, s.1);
        Ok(t.(engine := e, clips := s.0))
  }

  lemma {:induction false} ApplyAllKeepsId(e: Engines.Engine, cs: seq<Engines.Call>)
    ensures Engines.ApplyAll(e, cs).Ok? ==> Engines.ApplyAll(e, cs).value.id == e.id
    decreases |cs|
  {
    if |cs| > 0 {
      match Engines.Apply(e, cs[0])
      case Err(_) =>
      case Ok(e') => ApplyAllKeepsId(e', cs[1..]);
    }
  }

  /**
   * The scheduler's pass over every track of the list, disabled ones
   * included, from position i on. The whole pass is skipped on a frame where
   * the zoom changed.
   */
  function FireFrom(tracks: seq<Tracks.Track>, i: nat, playing: bool, tick: int, bpm: real, seconds: int -> real): (r: Result<seq<Tracks.Track>>)
    requires i <= |tracks|
    ensures r.Ok? ==> |r.value| == |tracks| - i
    ensures r.Ok? ==> forall k :: i <= k < |tracks| ==>
      FireTrack(tracks[k], playing, tick, bpm, seconds).Ok? && r.value[k - i] == FireTrack(tracks[k], playing, tick, bpm, seconds).value
    ensures (forall k :: i <= k < |tracks| ==> FireTrack(tracks[k], playing, tick, bpm, seconds).Ok?) ==> r.Ok?
    decreases |tracks| - i
  {
    if i == |tracks| then Ok([])
    else
      match FireTrack(tracks[i], playing, tick, bpm, seconds)
      case Err(f) => Err(f)
      case Ok(t) =>
        match FireFrom(tracks, i + 1, playing, tick, bpm, seconds)
        case Err(f) => Err(f)
        case Ok(rest) => Ok([t] + rest)
  }

  function FireClips(tracks: seq<Tracks.Track>, zoomed: bool, playing: bool, tick: int, bpm: real, seconds: int -> real): (r: Result<seq<Tracks.Track>>)
    ensures zoomed || !playing ==> r == Ok(tracks)
    ensures r.Ok? ==> |r.value| == |tracks|
    ensures r.Ok? && !zoomed ==> forall k :: 0 <= k < |tracks| ==>
      r.value[k].clips == ScanClips(tracks[k].clips, playing, tick, bpm, seconds).0
  {
    if zoomed then Ok(tracks)
    else
      var r := FireFrom(tracks, 0, playing, tick, bpm, seconds);
      if !playing then
        assert forall k :: 0 <= k < |tracks| ==> FireTrack(tracks[k], playing, tick, bpm, seconds) == Ok(tracks[k]);
        assert r.value == tracks;
        r
      else r
  }

  /** The clips after a run of frames, each frame with whether the transport played and where the playhead was. */
  function Frames(cs: seq<Clips.Clip>, frames: seq<(bool, int)>): (r: seq<Clips.Clip>)
    ensures |r| == |cs|
    decreases |frames|
  {
    if |frames| == 0 then cs
    else Frames(ScanClips(cs, frames[0].0, frames[0].1, 120.0, _ => 0.0).0, frames[1..])
  }

  /** In how many frames of the run clip j was due. */
  function TimesDue(cs: seq<Clips.Clip>, frames: seq<(bool, int)>, j: nat): nat
    requires j < |cs|
    decreases |frames|
  {
    if |frames| == 0 then 0
    else
      (if Due(cs[j], frames[0].0, frames[0].1) then 1 else 0)
      + TimesDue(ScanClips(cs, frames[0].0, frames[0].1, 120.0, _ => 0.0).0, frames[1..], j)
  }

  /**
   * Each clip is started at most once per run: over any run of frames
   * without a stop, a clip is due in at most one frame, in none if it had
   * already played, and a clip that was due has played at the end.
   */
  lemma {:induction false} FiresAtMostOnce(cs: seq<Clips.Clip>, frames: seq<(bool, int)>, j: nat)
    requires j < |cs|
    ensures TimesDue(cs, frames, j) <= (if cs[j].hasPlayed then 0 else 1)
    ensures TimesDue(cs, frames, j) > 0 ==> Frames(cs, frames)[j].hasPlayed
    ensures cs[j].hasPlayed ==> Frames(cs, frames)[j].hasPlayed
    decreases |frames|
  {
    if |frames| > 0 {
      var next := ScanClips(cs, frames[0].0, frames[0].1, 120.0, _ => 0.0).0;
      FiresAtMostOnce(next, frames[1..], j);
      if Due(cs[j], frames[0].0, frames[0].1) {
        assert next[j].hasPlayed;
      }
    }
  }

  /** What is due does not depend on the tempo or the time conversion, which only shape the calls. */
  lemma ScanMarksIndependently(cs: seq<Clips.Clip>, playing: bool, tick: int, bpm: real, seconds: int -> real)
    ensures ScanClips(cs, playing, tick, bpm, seconds).0 == ScanClips(cs, playing, tick, 120.0, _ => 0.0).0
  {
    var a := ScanClips(cs, playing, tick, bpm, seconds).0;
    var b := ScanClips(cs, playing, tick, 120.0, _ => 0.0).0;
    assert forall j :: 0 <= j < |cs| ==> a[j] == b[j];
  }

  /** Stopping the transport re-arms every clip the playhead has reached: the next play starts it again. */
  lemma StopReArms(t: Tracks.Track, tick: int, j: nat)
    requires j < |t.clips| && t.clips[j].startTick <= tick
    ensures Due(Tracks.StopSounds(t).clips[j], true, tick)
  {
  }
}
