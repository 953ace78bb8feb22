/**
 * The bookkeeping of an arrangement clip (Lumix/Clips/Clip.cs): its tick
 * fields, marker setters, the drag clamp, the rename and enable toggles, and
 * how Play forwards to the track's engine. The tick/musical-time conversions
 * and MusicalTime subtraction belong to code that is not part of this model;
 * they are carried as an uninterpreted Timebase.
 */
module Clips {
  import opened Wrappers
  import CSharp
  import Engines

  /** Bars:Beats:Ticks, three independent integers (MusicalTime.cs). */
  datatype MusicalTime = MusicalTime(bars: int, beats: int, ticks: int)

  /** What the clip plays: an audio file with the title it was named after, or shared MIDI clip data. */
  datatype Content = AudioContent(file: Engines.AudioFile, title: string) | MidiContent(data: nat)

  datatype Clip = Clip(
    id: nat,
    content: Content,
    name: string,
    enabled: bool,
    startTick: int,
    endTick: int,
    durationTicks: int,
    startMusical: MusicalTime,
    endMusical: MusicalTime,
    durationMusical: MusicalTime,
    startMarker: MusicalTime,
    endMarker: MusicalTime,
    hasPlayed: bool,
    deleteRequested: bool,
    duplicateRequested: bool)

  const Zero := MusicalTime(0, 0, 0)

  /**
   * A clip as the AudioClip and MidiClip constructors leave it: the given name
   * and start tick, enabled, every other field at its default.
   */
  function NewClip(id: nat, content: Content, name: string, startTick: int): (c: Clip)
    ensures c.id == id && c.content == content && c.name == name && c.startTick == startTick
    ensures c.enabled && !c.hasPlayed && !c.deleteRequested && !c.duplicateRequested
  {
    Clip(id, content, name, true, startTick, 0, 0, Zero, Zero, Zero, Zero, Zero, false, false, false)
  }

  /** The conversions Clip.cs borrows from the timeline, kept abstract. */
  datatype Timebase = Timebase(
    toMusical: (int, bool) -> MusicalTime,
    toTicks: MusicalTime -> int,
    minus: (MusicalTime, MusicalTime) -> MusicalTime)

  /** GetStartTimeInMusicalTime: the start tick shifted by the start marker, converted. */
  function StartInMusical(c: Clip, tb: Timebase): MusicalTime
  {
    tb.toMusical(c.startTick + tb.toTicks(c.startMarker), true)
  }

  /** GetDurationInMusicalTime: the duration less the marked-off span, converted. */
  function DurationInMusical(c: Clip, tb: Timebase): MusicalTime
  {
    tb.toMusical(c.durationTicks - tb.toTicks(tb.minus(c.startMarker, c.endMarker)), false)
  }

  /** Component-wise sum of two musical times, without carrying ticks into beats or beats into bars. */
  function Add(a: MusicalTime, b: MusicalTime): (r: MusicalTime)
  {
    MusicalTime(a.bars + b.bars, a.beats + b.beats, a.ticks + b.ticks)
  }

  /** GetEndTimeInMusicalTime: start plus duration, component by component. */
  function EndInMusical(c: Clip, tb: Timebase): (r: MusicalTime)
    ensures r.bars == StartInMusical(c, tb).bars + DurationInMusical(c, tb).bars
    ensures r.beats == StartInMusical(c, tb).beats + DurationInMusical(c, tb).beats
    ensures r.ticks == StartInMusical(c, tb).ticks + DurationInMusical(c, tb).ticks
  {
    Add(StartInMusical(c, tb), DurationInMusical(c, tb))
  }

  /** A conversion to ticks that weighs bars, beats and ticks by fixed factors. */
  ghost predicate Linear(toTicks: MusicalTime -> int, perBar: int, perBeat: int)
  {
    forall m: MusicalTime :: toTicks(m) == perBar * m.bars + perBeat * m.beats + m.ticks
  }

  /**
   * Summing without normalising loses nothing as long as the conversion back
   * to ticks is linear: the end converts to start plus duration.
   */
  lemma AddKeepsTicks(toTicks: MusicalTime -> int, perBar: int, perBeat: int, a: MusicalTime, b: MusicalTime)
    requires Linear(toTicks, perBar, perBeat)
    ensures toTicks(Add(a, b)) == toTicks(a) + toTicks(b)
  {
    var s := Add(a, b);
    assert toTicks(s) == perBar * s.bars + perBeat * s.beats + s.ticks;
    assert toTicks(a) == perBar * a.bars + perBeat * a.beats + a.ticks;
    assert toTicks(b) == perBar * b.bars + perBeat * b.beats + b.ticks;
    assert perBar * s.bars == perBar * a.bars + perBar * b.bars;
    assert perBeat * s.beats == perBeat * a.beats + perBeat * b.beats;
  }

  /** Everything but the derived time fields agrees. */
  predicate SameButTimes(a: Clip, b: Clip)
  {
    && a.id == b.id && a.content == b.content && a.name == b.name && a.enabled == b.enabled
    && a.startTick == b.startTick && a.startMarker == b.startMarker && a.endMarker == b.endMarker
    && a.hasPlayed == b.hasPlayed && a.deleteRequested == b.deleteRequested
    && a.duplicateRequested == b.duplicateRequested
  }

  /**
   * UpdateTimesData with GetClipDuration() == clipDuration: the tick fields
   * follow the start and the duration, the musical fields follow them, and
   * nothing else changes.
   */
  function UpdateTimesData(c: Clip, clipDuration: int, tb: Timebase): (r: Clip)
    ensures SameButTimes(r, c)
    ensures r.durationTicks == clipDuration && r.endTick == c.startTick + clipDuration
    ensures r.startMusical == StartInMusical(r, tb) && r.durationMusical == DurationInMusical(r, tb)
    ensures r.endMusical == Add(r.startMusical, r.durationMusical)
  {
    var ticks := c.(endTick := c.startTick + clipDuration, durationTicks := clipDuration);
    ticks.(startMusical := StartInMusical(ticks, tb),
           endMusical := EndInMusical(ticks, tb),
           durationMusical := DurationInMusical(ticks, tb))
  }

  /** Recomputing the times of an unchanged clip changes nothing. */
  lemma UpdateTimesIdempotent(c: Clip, clipDuration: int, tb: Timebase)
    ensures UpdateTimesData(UpdateTimesData(c, clipDuration, tb), clipDuration, tb) == UpdateTimesData(c, clipDuration, tb)
  {
  }

  datatype Marker = StartMarker | EndMarker

  /** The TimeChangedEventArgs a marker setter raises: the value before and the value after. */
  datatype TimeChanged = TimeChanged(before: MusicalTime, after: MusicalTime)

  function MarkerOf(c: Clip, which: Marker): MusicalTime
  {
    match which
    case StartMarker => c.startMarker
    case EndMarker => c.endMarker
  }

  /**
   * The StartMarker/EndMarker setters: a different value raises one change
   * event carrying the old and the new value and is then stored; an equal
   * value does nothing.
   */
  function SetMarker(c: Clip, which: Marker, v: MusicalTime): (r: (Clip, seq<TimeChanged>))
    ensures MarkerOf(r.0, which) == v
    ensures MarkerOf(c, which) == v <==> r.1 == []
    ensures MarkerOf(c, which) != v ==> r.1 == [TimeChanged(MarkerOf(c, which), v)]
    ensures which == StartMarker ==> r.0 == c.(startMarker := v)
    ensures which == EndMarker ==> r.0 == c.(endMarker := v)
  {
    if MarkerOf(c, which) == v then (c, [])
    else
      match which
      case StartMarker => (c.(startMarker := v), [TimeChanged(c.startMarker, v)])
      case EndMarker => (c.(endMarker := v), [TimeChanged(c.endMarker, v)])
  }

  /**
   * A sequence of marker writes raises one event per actual change, and the
   * events chain: each starts where the previous one ended.
   */
  function SetMarkers(c: Clip, which: Marker, vs: seq<MusicalTime>): (r: (Clip, seq<TimeChanged>))
    ensures |vs| > 0 ==> MarkerOf(r.0, which) == vs[|vs| - 1]
    ensures |vs| == 0 ==> r == (c, [])
    ensures |r.1| == 0 ==> MarkerOf(r.0, which) == MarkerOf(c, which)
    ensures |r.1| <= |vs|
    ensures |r.1| > 0 ==> r.1[0].before == MarkerOf(c, which) && r.1[|r.1| - 1].after == MarkerOf(r.0, which)
    ensures forall k :: 0 <= k < |r.1| ==> r.1[k].before != r.1[k].after
    ensures forall k :: 0 < k < |r.1| ==> r.1[k].before == r.1[k - 1].after
    decreases |vs|
  {
    if |vs| == 0 then (c, [])
    else
      var first := SetMarker(c, which, vs[0]);
      var rest := SetMarkers(first.0, which, vs[1..]);
      if |vs| == 1 then
        assert rest == (first.0, []);
        first
      else (rest.0, first.1 + rest.1)
  }

  /** Writing the value a marker already holds raises nothing, so a repeated write is silent. */
  lemma SetMarkerTwiceIsSilent(c: Clip, which: Marker, v: MusicalTime)
    ensures SetMarker(SetMarker(c, which, v).0, which, v) == (SetMarker(c, which, v).0, [])
  {
  }

  /** SetStartTick: the start tick is assigned as given, negative or not. */
  function SetStartTick(c: Clip, tick: int): (r: Clip)
    ensures r.startTick == tick
    ensures r.(startTick := c.startTick) == c
  {
    c.(startTick := tick)
  }

  /** Dragging: the snapped position, clamped to [0, long.MaxValue], becomes the start tick. */
  function Drag(c: Clip, snapped: int): (r: Clip)
    requires CSharp.IsLong(snapped)
    ensures r.startTick >= 0
    ensures snapped >= 0 ==> r.startTick == snapped
    ensures snapped < 0 ==> r.startTick == 0
    ensures r.(startTick := c.startTick) == c
  {
    c.(startTick := CSharp.Clamp(snapped, 0, CSharp.LongMax))
  }

  /** A drag is SetStartTick of the position floored at zero; so dragging never produces a negative start. */
  lemma DragIsClampedSet(c: Clip, snapped: int)
    requires CSharp.IsLong(snapped)
    ensures Drag(c, snapped) == SetStartTick(c, if snapped < 0 then 0 else snapped)
  {
  }

  /** Play(audioFile, offset, endOffset): the Fire call the track's engine receives, arguments unchanged. */
  function PlayAudio(f: Engines.AudioFile, offset: real, endOffset: real): (call: Engines.Call)
    ensures call.FireAudioCall? && call.f == f && call.offset == offset && call.endOffset == endOffset
  {
    Engines.FireAudioCall(f, offset, endOffset)
  }

  /** Play(midiFile, offset): the offset is passed as both the start and the end offset. */
  function PlayMidi(file: nat, offset: real, bpm: real): (call: Engines.Call)
    ensures call.FireMidiCall? && call.file == file && call.offset == offset && call.endOffset == offset
  {
    Engines.FireMidiCall(file, offset, offset, bpm)
  }

  /** A MIDI clip played on an idle MIDI engine starts its playback at the offset it was given. */
  lemma PlayMidiStartsAtOffset(e: Engines.Engine, file: nat, offset: real, bpm: real)
    requires e.MidiEngine? && !e.playing
    ensures Engines.Apply(e, PlayMidi(file, offset, bpm)).Ok?
    ensures Engines.Apply(e, PlayMidi(file, offset, bpm)).value.playback == Some(Engines.Playback(file, offset, bpm / 120.0))
  {
  }

  /** Char.IsWhiteSpace: the Unicode space separators, line and paragraph separators, and U+0009-U+000D, U+0085. */
  predicate IsWhiteSpace(ch: char)
  {
    || ch == ' ' || ch == '\U{A0}' || ch == '\U{1680}' || ('\U{2000}' <= ch <= '\U{200A}')
    || ch == '\U{202F}' || ch == '\U{205F}' || ch == '\U{3000}'
    || ch == '\U{2028}' || ch == '\U{2029}'
    || ('\U{9}' <= ch <= '\U{D}') || ch == '\U{85}'
  }

  /** string.IsNullOrWhiteSpace on a non-null string. */
  predicate IsBlank(s: string)
  {
    forall k :: 0 <= k < |s| ==> IsWhiteSpace(s[k])
  }

  /** Committing a rename: a blank name becomes "Blank", any other is kept as typed. */
  function Rename(c: Clip, typed: string): (r: Clip)
    ensures !IsBlank(r.name)
    ensures !IsBlank(typed) ==> r.name == typed
    ensures IsBlank(typed) ==> r.name == "Blank"
    ensures r.(name := c.name) == c
  {
    assert !IsWhiteSpace("Blank"[0]);
    c.(name := if IsBlank(typed) then "Blank" else typed)
  }

  /** Committing the name a clip already has changes nothing, so a rename settles after one commit. */
  lemma RenameIsStable(c: Clip, typed: string)
    ensures Rename(Rename(c, typed), Rename(c, typed).name) == Rename(c, typed)
  {
  }

  /** The context menu's Activate/Deactivate item. */
  function ToggleEnabled(c: Clip): (r: Clip)
    ensures r.enabled == !c.enabled
    ensures r.(enabled := c.enabled) == c
  {
    c.(enabled := !c.enabled)
  }

  /** The copy Track makes of a clip that asked to be duplicated: same content, placed right after the original. */
  function Copy(c: Clip, id: nat): (r: Clip)
    ensures r.id == id && r.content == c.content
    ensures r.startTick == c.startTick + c.durationTicks
    ensures r.enabled && !r.hasPlayed && !r.deleteRequested && !r.duplicateRequested
    ensures c.content.AudioContent? ==> r.name == c.content.title
    ensures c.content.MidiContent? ==> r.name == ""
  {
    var name := if c.content.AudioContent? then c.content.title else "";
    NewClip(id, c.content, name, c.startTick + c.durationTicks)
  }
}
