/**
 * The per-track rules of Lumix/Tracks/Track.cs: the enable, solo and
 * record-arm buttons, the per-render removal and duplication of clips that
 * asked for it, which dragged files and plugins a track admits, and what the
 * transport's stop does to a track. Mouse and key state are parameters; the
 * files a drop or a recording opens are given already opened.
 */
module Tracks {
  import opened Wrappers
  import opened TrackTypes
  import opened Clips
  import Engines
  import PluginChain
  import Devices
  import Paths
  import Decimal

  datatype Track = Track(
    id: nat,
    kind: TrackType,
    name: string,
    enabled: bool,
    solo: bool,
    recordOnStart: bool,
    engine: Engines.Engine,
    chain: PluginChain.Chain,
    clips: seq<Clip>,
    dragged: Option<nat>,
    hasDropped: bool)

  /**
   * The AudioTrack and MidiTrack constructors (a group track is built by
   * GroupTrack): enabled, not soloed, not armed, no clips, a stereo engine of
   * its kind at the given sample rate and a fresh plugin chain.
   */
  function NewTrack(id: nat, kind: TrackType, name: string, sampleRate: int, utilityId: nat, eqId: nat): (t: Track)
    requires kind != Group
    ensures t.id == id && t.kind == kind && t.name == name && t.clips == []
    ensures t.enabled && !t.solo && !t.recordOnStart && !Engines.IsRecording(t.engine)
    ensures t.engine == Engines.NewEngine(id, kind, sampleRate, 2)
    ensures t.chain == PluginChain.New(utilityId, eqId) && PluginChain.Valid(t.chain)
  {
    Track(id, kind, name, true, false, false, Engines.NewEngine(id, kind, sampleRate, 2),
          PluginChain.New(utilityId, eqId), [], None, false)
  }

  /** The power button. */
  function ToggleEnabled(t: Track): (r: Track)
    ensures r.enabled == !t.enabled && r.(enabled := t.enabled) == t
  {
    t.(enabled := !t.enabled)
  }

  /** The record-arm button. */
  function ToggleRecordOnStart(t: Track): (r: Track)
    ensures r.recordOnStart == !t.recordOnStart && r.(recordOnStart := t.recordOnStart) == t
  {
    t.(recordOnStart := !t.recordOnStart)
  }

  /** What a solo click does to track i of the list when track k was clicked. */
  function SoloAt(tracks: seq<Track>, k: nat, ctrl: bool, i: nat): (t: Track)
    requires k < |tracks| && i < |tracks|
  {
    var newSolo := !tracks[k].solo;
    if i == k then tracks[k].(solo := newSolo, enabled := if ctrl then !tracks[k].enabled else true)
    else if ctrl then tracks[i]
    else tracks[i].(enabled := !newSolo, solo := false)
  }

  /**
   * The solo button of track k. Its solo flag flips; with Ctrl held its
   * enable flag flips too and no other track is touched; without Ctrl it is
   * enabled, and every other track is un-soloed and enabled exactly when k is
   * no longer soloed.
   */
  function Solo(tracks: seq<Track>, k: nat, ctrl: bool): (r: seq<Track>)
    requires k < |tracks|
    ensures |r| == |tracks|
    ensures r[k].solo == !tracks[k].solo
    ensures r[k].enabled == (if ctrl then !tracks[k].enabled else true)
    ensures forall i :: 0 <= i < |tracks| && i != k && ctrl ==> r[i] == tracks[i]
    ensures forall i :: 0 <= i < |tracks| && i != k && !ctrl ==> !r[i].solo && r[i].enabled == !r[k].solo
    ensures forall i :: 0 <= i < |tracks| ==> r[i].(enabled := tracks[i].enabled, solo := tracks[i].solo) == tracks[i]
  {
    seq(|tracks|, i requires 0 <= i < |tracks| => SoloAt(tracks, k, ctrl, i))
  }

  /** Soloing a track without Ctrl leaves it the only enabled track and the only soloed one. */
  lemma SoloIsolates(tracks: seq<Track>, k: nat)
    requires k < |tracks| && !tracks[k].solo
    ensures forall i :: 0 <= i < |tracks| ==> (Solo(tracks, k, false)[i].enabled <==> i == k)
    ensures forall i :: 0 <= i < |tracks| ==> (Solo(tracks, k, false)[i].solo <==> i == k)
  {
  }

  /** Un-soloing without Ctrl re-enables every track and leaves none soloed. */
  lemma UnsoloEnablesAll(tracks: seq<Track>, k: nat)
    requires k < |tracks| && tracks[k].solo
    ensures forall i :: 0 <= i < |tracks| ==> Solo(tracks, k, false)[i].enabled && !Solo(tracks, k, false)[i].solo
  {
  }

  /** A Ctrl-solo click is local: it is the clicked track's two toggles and nothing else. */
  lemma CtrlSoloIsLocal(tracks: seq<Track>, k: nat)
    requires k < |tracks|
    ensures Solo(tracks, k, true) == tracks[k := ToggleEnabled(tracks[k]).(solo := !tracks[k].solo)]
  {
  }

  // ----- per-render clip requests -----

  datatype Request = DeleteRequest | DuplicateRequest

  predicate Requested(c: Clip, q: Request)
  {
    match q
    case DeleteRequest => c.deleteRequested
    case DuplicateRequest => c.duplicateRequested
  }

  /** `Clips.FirstOrDefault(clip => clip.XRequested)`, as an index. */
  function FirstRequested(cs: seq<Clip>, q: Request): (r: Option<nat>)
    ensures r.Some? ==> r.value < |cs| && Requested(cs[r.value], q)
    ensures r.Some? ==> forall j :: 0 <= j < r.value ==> !Requested(cs[j], q)
    ensures r.None? ==> forall j :: 0 <= j < |cs| ==> !Requested(cs[j], q)
  {
    if |cs| == 0 then None
    else if Requested(cs[0], q) then Some(0)
    else match FirstRequested(cs[1..], q)
      case None => None
      case Some(j) => Some(j + 1)
  }

  /** How many clips carry the request. */
  function Count(cs: seq<Clip>, q: Request): (n: nat)
    ensures n <= |cs|
  {
    if |cs| == 0 then 0 else (if Requested(cs[0], q) then 1 else 0) + Count(cs[1..], q)
  }

  /** The clips without the request, in order. */
  function Without(cs: seq<Clip>, q: Request): (r: seq<Clip>)
    ensures forall j :: 0 <= j < |r| ==> !Requested(r[j], q)
  {
    if |cs| == 0 then [] else (if Requested(cs[0], q) then [] else [cs[0]]) + Without(cs[1..], q)
  }

  lemma {:induction false} SplitCounts(a: seq<Clip>, b: seq<Clip>, q: Request)
    ensures Count(a + b, q) == Count(a, q) + Count(b, q)
    ensures Without(a + b, q) == Without(a, q) + Without(b, q)
    decreases |a|
  {
    if |a| == 0 {
      assert a + b == b;
    } else {
      assert (a + b)[0] == a[0];
      assert (a + b)[1..] == a[1..] + b;
      SplitCounts(a[1..], b, q);
    }
  }

  /** Clips none of which carries the request are counted zero and all kept. */
  lemma {:induction false} NoneRequested(a: seq<Clip>, q: Request)
    requires forall j :: 0 <= j < |a| ==> !Requested(a[j], q)
    ensures Count(a, q) == 0 && Without(a, q) == a
    decreases |a|
  {
    if |a| > 0 {
      NoneRequested(a[1..], q);
    }
  }

  /** A count of zero means no clip carries the request. */
  lemma {:induction false} ZeroCount(a: seq<Clip>, q: Request)
    requires Count(a, q) == 0
    ensures forall j :: 0 <= j < |a| ==> !Requested(a[j], q)
    decreases |a|
  {
    if |a| > 0 {
      ZeroCount(a[1..], q);
      forall j | 1 <= j < |a| ensures !Requested(a[j], q) {
        assert a[j] == a[1..][j - 1];
      }
    }
  }

  /** With no request pending, every clip is kept. */
  lemma ZeroCountKeepsAll(a: seq<Clip>, q: Request)
    requires Count(a, q) == 0
    ensures Without(a, q) == a
  {
    ZeroCount(a, q);
    NoneRequested(a, q);
  }

  /** The count around position i splits as prefix, the clip, suffix. */
  lemma CountAround(cs: seq<Clip>, i: nat, q: Request)
    requires i < |cs|
    ensures Count(cs, q) == Count(cs[..i], q) + (if Requested(cs[i], q) then 1 else 0) + Count(cs[i + 1..], q)
  {
    var tail := cs[i..];
    assert cs == cs[..i] + tail;
    SplitCounts(cs[..i], tail, q);
    assert tail[1..] == cs[i + 1..];
  }

  /** So do the kept clips. */
  lemma WithoutAround(cs: seq<Clip>, i: nat, q: Request)
    requires i < |cs|
    ensures Without(cs, q) == Without(cs[..i], q) + (if Requested(cs[i], q) then [] else [cs[i]]) + Without(cs[i + 1..], q)
  {
    var tail := cs[i..];
    assert cs == cs[..i] + tail;
    SplitCounts(cs[..i], tail, q);
    assert tail[0] == cs[i] && tail[1..] == cs[i + 1..];
    var here := if Requested(cs[i], q) then [] else [cs[i]];
    assert Without(tail, q) == here + Without(cs[i + 1..], q);
    Associate(Without(cs[..i], q), here, Without(cs[i + 1..], q));
  }

  lemma Associate(a: seq<Clip>, b: seq<Clip>, c: seq<Clip>)
    ensures a + (b + c) == a + b + c
  {
  }

  lemma CountsAround(cs: seq<Clip>, i: nat, q: Request)
    requires i < |cs|
    ensures Count(cs, q) == Count(cs[..i], q) + (if Requested(cs[i], q) then 1 else 0) + Count(cs[i + 1..], q)
    ensures Without(cs, q) == Without(cs[..i], q) + (if Requested(cs[i], q) then [] else [cs[i]]) + Without(cs[i + 1..], q)
  {
    CountAround(cs, i, q);
    WithoutAround(cs, i, q);
  }

  /** One render's `Clips.Remove(deleted)`: the first clip that asked to be deleted goes. */
  function RemoveDeleted(cs: seq<Clip>): (r: seq<Clip>)
    ensures FirstRequested(cs, DeleteRequest).None? ==> r == cs
    ensures FirstRequested(cs, DeleteRequest).Some? ==>
      var i := FirstRequested(cs, DeleteRequest).value; r == cs[..i] + cs[i + 1..]
  {
    match FirstRequested(cs, DeleteRequest)
    case None => cs
    case Some(i) => cs[..i] + cs[i + 1..]
  }

  /** A render removes exactly one pending deletion, if there is one, and keeps every other clip in order. */
  lemma RemoveDeletedStep(cs: seq<Clip>)
    ensures Count(RemoveDeleted(cs), DeleteRequest) == if Count(cs, DeleteRequest) > 0 then Count(cs, DeleteRequest) - 1 else 0
    ensures Without(RemoveDeleted(cs), DeleteRequest) == Without(cs, DeleteRequest)
  {
    match FirstRequested(cs, DeleteRequest)
    case None =>
      NoneRequested(cs, DeleteRequest);
    case Some(i) =>
      var pre, post := cs[..i], cs[i + 1..];
      assert RemoveDeleted(cs) == pre + post;
      assert Requested(cs[i], DeleteRequest);
      CountsAround(cs, i, DeleteRequest);
      NoneRequested(pre, DeleteRequest);
      SplitCounts(pre, post, DeleteRequest);
      assert Without(cs, DeleteRequest) == pre + [] + Without(post, DeleteRequest);
      assert pre + [] == pre;
  }

  /** n renders of the deletion step. */
  function DeleteRenders(cs: seq<Clip>, n: nat): seq<Clip>
  {
    if n == 0 then cs else DeleteRenders(RemoveDeleted(cs), n - 1)
  }

  /**
   * Deletions are served one per render: after as many renders as there were
   * pending deletions, exactly the clips that did not ask to go remain, in
   * their order.
   */
  lemma {:induction false} RendersDrainDeletions(cs: seq<Clip>, n: nat)
    requires n >= Count(cs, DeleteRequest)
    ensures DeleteRenders(cs, n) == Without(cs, DeleteRequest)
    decreases n
  {
    if n == 0 {
      ZeroCountKeepsAll(cs, DeleteRequest);
    } else {
      var next := RemoveDeleted(cs);
      assert DeleteRenders(cs, n) == DeleteRenders(next, n - 1);
      RemoveDeletedStep(cs);
      RendersDrainDeletions(next, n - 1);
    }
  }

  /**
   * One render's duplication: the first clip that asked for a copy has its
   * request cleared, its copy is appended right after it in time, and the
   * copy becomes the sole selected clip and the dragged clip.
   */
  function DuplicateFirst(t: Track, selected: seq<nat>, copyId: nat): (r: (Track, seq<nat>))
    ensures FirstRequested(t.clips, DuplicateRequest).None? ==> r == (t, selected)
    ensures FirstRequested(t.clips, DuplicateRequest).Some? ==>
      var i := FirstRequested(t.clips, DuplicateRequest).value;
      && r.0 == t.(clips := r.0.clips, dragged := Some(copyId))
      && r.0.clips == t.clips[i := t.clips[i].(duplicateRequested := false)] + [Copy(t.clips[i], copyId)]
      && r.1 == [copyId]
  {
    match FirstRequested(t.clips, DuplicateRequest)
    case None => (t, selected)
    case Some(i) =>
      var clips := t.clips[i := t.clips[i].(duplicateRequested := false)] + [Copy(t.clips[i], copyId)];
      (t.(clips := clips, dragged := Some(copyId)), [copyId])
  }

  /** A duplication serves one request, adds no deletion, and its copy asks for nothing. */
  lemma DuplicateStep(t: Track, selected: seq<nat>, copyId: nat)
    ensures var n := Count(t.clips, DuplicateRequest);
      Count(DuplicateFirst(t, selected, copyId).0.clips, DuplicateRequest) == if n > 0 then n - 1 else 0
    ensures Count(DuplicateFirst(t, selected, copyId).0.clips, DeleteRequest) == Count(t.clips, DeleteRequest)
  {
    match FirstRequested(t.clips, DuplicateRequest)
    case None =>
      NoneRequested(t.clips, DuplicateRequest);
    case Some(i) =>
      var cs := t.clips;
      var cleared := cs[i := cs[i].(duplicateRequested := false)];
      var copy := Copy(cs[i], copyId);
      assert cleared[..i] == cs[..i] && cleared[i + 1..] == cs[i + 1..];
      CountsAround(cs, i, DuplicateRequest);
      CountsAround(cs, i, DeleteRequest);
      CountsAround(cleared, i, DuplicateRequest);
      CountsAround(cleared, i, DeleteRequest);
      NoneRequested(cs[..i], DuplicateRequest);
      SplitCounts(cleared, [copy], DuplicateRequest);
      SplitCounts(cleared, [copy], DeleteRequest);
  }

  /**
   * The end of Track.RenderArrangement: remove the first clip that asked to be
   * deleted, then duplicate the first clip that asked for a copy.
   */
  function RenderRequests(t: Track, selected: seq<nat>, copyId: nat): (r: (Track, seq<nat>))
  {
    DuplicateFirst(t.(clips := RemoveDeleted(t.clips)), selected, copyId)
  }

  /**
   * A render removes one pending deletion and serves at least one pending
   * duplication (the deleted clip may itself have asked for a copy).
   */
  lemma RenderMakesProgress(t: Track, selected: seq<nat>, copyId: nat)
    ensures var d := Count(t.clips, DeleteRequest);
      Count(RenderRequests(t, selected, copyId).0.clips, DeleteRequest) == if d > 0 then d - 1 else 0
    ensures Count(t.clips, DuplicateRequest) > 0 ==>
      Count(RenderRequests(t, selected, copyId).0.clips, DuplicateRequest) < Count(t.clips, DuplicateRequest)
    ensures Count(t.clips, DuplicateRequest) == 0 ==> Count(RenderRequests(t, selected, copyId).0.clips, DuplicateRequest) == 0
  {
    var t1 := t.(clips := RemoveDeleted(t.clips));
    RemoveDeletedStep(t.clips);
    DuplicateStep(t1, selected, copyId);
    RemovalNeverAddsRequests(t.clips);
  }

  /** Removing a clip never raises the number of pending duplications. */
  lemma RemovalNeverAddsRequests(cs: seq<Clip>)
    ensures Count(RemoveDeleted(cs), DuplicateRequest) <= Count(cs, DuplicateRequest)
  {
    match FirstRequested(cs, DeleteRequest)
    case None =>
    case Some(i) =>
      CountsAround(cs, i, DuplicateRequest);
      SplitCounts(cs[..i], cs[i + 1..], DuplicateRequest);
  }

  // ----- drops onto the track -----

  /**
   * A file that is neither a plugin nor extension-less is admitted by an
   * audio track unless it is ".mid", and by a MIDI track only if it is.
   */
  predicate AdmitsFile(kind: TrackType, path: string)
  {
    (kind == Audio && Paths.Extension(path) != ".mid") || (kind == Midi && Paths.Extension(path) == ".mid")
  }

  /** The clip a dropped file becomes: named after the file, at the snapped drop position. */
  function FileClip(kind: TrackType, path: string, clipId: nat, audio: Engines.AudioFile, midiData: nat, snapped: int): (c: Clip)
    ensures c.id == clipId && c.startTick == snapped && c.name == Paths.FileTitle(path)
    ensures kind == Audio ==> c.content == AudioContent(audio, Paths.FileTitle(path))
    ensures kind != Audio ==> c.content == MidiContent(midiData)
  {
    var content := if kind == Audio then AudioContent(audio, Paths.FileTitle(path)) else MidiContent(midiData);
    NewClip(clipId, content, Paths.FileTitle(path), snapped)
  }

  /** What a drop frame leaves: the track, what is still being dragged, and the VSTs it disposed. */
  datatype Dropped = Dropped(track: Track, drag: Devices.Drag, disposed: seq<PluginChain.Processor>)

  /** The plugin a released ".dll" drag gives the track, by track kind. */
  function DropVst(t: Track, loaded: PluginChain.Processor): (e: PluginChain.Edit)
    requires PluginChain.Valid(t.chain)
    ensures PluginChain.Valid(e.chain)
    ensures t.kind == Audio && PluginChain.IsInstrument(loaded) ==> e == PluginChain.Edit(t.chain, [loaded])
    ensures t.kind == Group ==> e == PluginChain.Edit(t.chain, [])
    ensures t.kind == Midi || (t.kind == Audio && !PluginChain.IsInstrument(loaded)) ==> e == PluginChain.AddPlugin(t.chain, loaded)
  {
    match t.kind
    case Audio => if PluginChain.IsInstrument(loaded) then PluginChain.Edit(t.chain, [loaded]) else PluginChain.AddPlugin(t.chain, loaded)
    case Midi => PluginChain.AddPlugin(t.chain, loaded)
    case Group => PluginChain.Edit(t.chain, [])
  }

  /** The drop frame before the latch is cleared: what a release of the drag does to the track. */
  function Release(t: Track, drag: Devices.Drag, released: bool, loaded: PluginChain.Processor,
                   clipId: nat, audio: Engines.AudioFile, midiData: nat, snapped: int): (r: Dropped)
    requires PluginChain.Valid(t.chain)
    requires drag.builtIn.Some? ==> !drag.builtIn.value.kind.Vst?
    ensures PluginChain.Valid(r.track.chain)
    ensures r.track == t.(chain := r.track.chain, clips := r.track.clips, hasDropped := r.track.hasDropped)
    ensures !Devices.Accepting(drag, t.hasDropped) || !released ==>
      r.track.chain == t.chain && r.track.clips == t.clips && r.disposed == [] && r.drag == drag
    ensures r.track.clips == t.clips
      || (r.track.clips == t.clips + [FileClip(t.kind, drag.path, clipId, audio, midiData, snapped)]
          && released && drag.builtIn.None? && !Devices.IsDll(drag.path) && Paths.HasExtension(drag.path)
          && AdmitsFile(t.kind, drag.path))
    ensures t.kind != Midi ==> r.track.chain.instrument == t.chain.instrument
    ensures Devices.Accepting(drag, t.hasDropped) && released && drag.builtIn.Some? ==>
      r.track.chain == PluginChain.Chain(t.chain.instrument, t.chain.effects + [drag.builtIn.value])
      && r.drag.builtIn.None? && r.disposed == []
    ensures Devices.Accepting(drag, t.hasDropped) && released && drag.builtIn.None? && Devices.IsDll(drag.path) ==>
      r.track.chain == DropVst(t, loaded).chain && r.disposed == DropVst(t, loaded).disposed && r.drag.path == ""
  {
    if !Devices.Accepting(drag, t.hasDropped) || !released then Dropped(t, drag, [])
    else if drag.builtIn.Some? then
      Dropped(t.(chain := PluginChain.AddPlugin(t.chain, drag.builtIn.value).chain, hasDropped := true),
              Devices.Drag(drag.path, None), [])
    else if Devices.IsDll(drag.path) then
      var e := DropVst(t, loaded);
      Dropped(t.(chain := e.chain, hasDropped := true), Devices.Drag("", None), e.disposed)
    else if Paths.HasExtension(drag.path) && AdmitsFile(t.kind, drag.path) then
      var clip := FileClip(t.kind, drag.path, clipId, audio, midiData, snapped);
      Dropped(t.(clips := t.clips + [clip], hasDropped := true), Devices.Drag("", None), [])
    else Dropped(t, drag, [])
  }

  /**
   * One frame of the track's drop target. The guard is DevicesView's (the
   * latch gates only built-in drags). On release: a built-in is added to the
   * chain; a ".dll" is added, except that an audio track disposes a VSTi and
   * a group track does nothing with it; any other file with an extension
   * becomes a clip if the track admits it. `loaded` is the plugin the ".dll"
   * loads, `audio`/`midiData` the file opened as the track's kind needs it.
   */
  function Drop(t: Track, drag: Devices.Drag, released: bool, dragging: bool, loaded: PluginChain.Processor,
                clipId: nat, audio: Engines.AudioFile, midiData: nat, snapped: int): (r: Dropped)
    requires PluginChain.Valid(t.chain)
    requires drag.builtIn.Some? ==> !drag.builtIn.value.kind.Vst?
    ensures PluginChain.Valid(r.track.chain)
    ensures r.track == t.(chain := r.track.chain, clips := r.track.clips, hasDropped := r.track.hasDropped)
    ensures !dragging ==> !r.track.hasDropped
    ensures !Devices.Accepting(drag, t.hasDropped) || !released ==>
      r.track.chain == t.chain && r.track.clips == t.clips && r.disposed == [] && r.drag == drag
    ensures r.track.clips == t.clips
      || (r.track.clips == t.clips + [FileClip(t.kind, drag.path, clipId, audio, midiData, snapped)]
          && released && drag.builtIn.None? && !Devices.IsDll(drag.path) && Paths.HasExtension(drag.path)
          && AdmitsFile(t.kind, drag.path))
    ensures t.kind != Midi ==> r.track.chain.instrument == t.chain.instrument
    ensures Devices.Accepting(drag, t.hasDropped) && released && drag.builtIn.Some? ==>
      r.track.chain == PluginChain.Chain(t.chain.instrument, t.chain.effects + [drag.builtIn.value])
      && r.drag.builtIn.None? && r.disposed == []
    ensures Devices.Accepting(drag, t.hasDropped) && released && drag.builtIn.None? && Devices.IsDll(drag.path) ==>
      r.track.chain == DropVst(t, loaded).chain && r.disposed == DropVst(t, loaded).disposed && r.drag.path == ""
  {
    var after := Release(t, drag, released, loaded, clipId, audio, midiData, snapped);
    if dragging then after else after.(track := after.track.(hasDropped := false))
  }

  /** An audio track never takes a MIDI file: dropping a path ending in ".mid" adds no clip. */
  lemma AudioRejectsMidiFiles(t: Track, drag: Devices.Drag, released: bool, dragging: bool, loaded: PluginChain.Processor,
                              clipId: nat, audio: Engines.AudioFile, midiData: nat, snapped: int)
    requires PluginChain.Valid(t.chain) && t.kind == Audio
    requires drag.builtIn.Some? ==> !drag.builtIn.value.kind.Vst?
    requires |drag.path| >= 4 && drag.path[|drag.path| - 4..] == ".mid"
    ensures Drop(t, drag, released, dragging, loaded, clipId, audio, midiData, snapped).track.clips == t.clips
  {
    Paths.ExtensionIsSuffix(drag.path, ".mid");
  }

  /** A MIDI track gains a clip only from a path ending in ".mid". */
  lemma MidiTakesOnlyMidFiles(t: Track, drag: Devices.Drag, released: bool, dragging: bool, loaded: PluginChain.Processor,
                              clipId: nat, audio: Engines.AudioFile, midiData: nat, snapped: int)
    requires PluginChain.Valid(t.chain) && t.kind == Midi
    requires drag.builtIn.Some? ==> !drag.builtIn.value.kind.Vst?
    ensures Drop(t, drag, released, dragging, loaded, clipId, audio, midiData, snapped).track.clips != t.clips ==>
      |drag.path| >= 4 && drag.path[|drag.path| - 4..] == ".mid"
  {
    Paths.ExtensionIsSuffix(drag.path, ".mid");
  }

  /** An instrument dropped on an audio track is disposed and the chain is left as it was. */
  lemma AudioRejectsInstruments(t: Track, path: string, dragging: bool, loaded: PluginChain.Processor,
                                clipId: nat, audio: Engines.AudioFile, midiData: nat, snapped: int)
    requires PluginChain.Valid(t.chain) && t.kind == Audio && PluginChain.IsInstrument(loaded)
    requires |path| >= 4 && path[|path| - 4..] == ".dll"
    ensures var r := Drop(t, Devices.Drag(path, None), true, dragging, loaded, clipId, audio, midiData, snapped);
      r.track.chain == t.chain && r.disposed == [loaded] && r.track.clips == t.clips
  {
    Devices.IsDllIffSuffix(path);
  }

  // ----- transport stop -----

  /** StopSounds on the engine and HasPlayed cleared on every clip. */
  function StopSounds(t: Track): (r: Track)
    ensures r.engine == Engines.StopSounds(t.engine)
    ensures |r.clips| == |t.clips|
    ensures forall j :: 0 <= j < |t.clips| ==> r.clips[j] == t.clips[j].(hasPlayed := false)
    ensures r == t.(engine := r.engine, clips := r.clips)
  {
    t.(engine := Engines.StopSounds(t.engine),
       clips := seq(|t.clips|, j requires 0 <= j < |t.clips| => t.clips[j].(hasPlayed := false)))
  }

  /**
   * StopRecording(track) on the track's own engine: an audio engine stops
   * and the recording, the file `<recordId>.wav` opened as `recorded`,
   * becomes a clip at tick 0 named by its file title; a MIDI engine throws.
   */
  function StopRecording(t: Track, clipId: nat, recorded: Engines.AudioFile): (r: Result<Track>)
    ensures t.engine.AudioEngine? ==>
      && r.Ok? && !Engines.IsRecording(r.value.engine) && r.value.engine.mixer == t.engine.mixer
      && r.value == t.(engine := r.value.engine, clips := r.value.clips)
      && |r.value.clips| == |t.clips| + 1 && r.value.clips[..|t.clips|] == t.clips
      && r.value.clips[|t.clips|].startTick == 0 && r.value.clips[|t.clips|].content.AudioContent?
      && !r.value.clips[|t.clips|].hasPlayed
    ensures t.engine.MidiEngine? ==> r == Err(NotImplemented)
    ensures t.engine.GroupEngine? ==> r == Ok(t)
  {
    match Engines.StopRecording(t.engine, [])
    case Err(f) => Err(f)
    case Ok(stopped) =>
      var added := seq(|stopped.1|, j requires 0 <= j < |stopped.1| =>
        var title := Decimal.NatToString(stopped.1[j].file);
        NewClip(clipId, AudioContent(recorded, title), title, stopped.1[j].startTick));
      assert (t.clips + added)[..|t.clips|] == t.clips;
      assert |added| == 0 ==> t.clips + added == t.clips;
      Ok(t.(engine := stopped.0, clips := t.clips + added))
  }
}
