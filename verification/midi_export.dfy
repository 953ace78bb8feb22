/**
 * PianoRoll.ToMidiFile (Lumix/Views/Midi/PianoRoll.cs): the clip's non-note
 * events are kept at their absolute times, every listed note contributes a
 * NoteOn at its start and a NoteOff at its end, the list is stable-sorted by
 * absolute time, and each event's delta time is its distance from the
 * previous event, cast to a 32-bit int.
 */
module MidiExport {
  import opened Notes
  import CSharp

  /** A MIDI event of the clip; every event other than a note on/off is opaque. */
  datatype Event = NoteOn(pitch: int, velocity: int) | NoteOff(pitch: int, velocity: int) | Other(tag: nat)

  predicate IsNote(e: Event)
  {
    e.NoteOn? || e.NoteOff?
  }

  /** An event with its absolute time in ticks. */
  datatype Timed = Timed(time: int, ev: Event)

  /** An event as stored in the track chunk: delta time from its predecessor. */
  datatype Delta = Delta(delta: int, ev: Event)

  /** The first loop: the clip's events that are not NoteOn or NoteOff, in order. */
  function Kept(clip: seq<Timed>): (kept: seq<Timed>)
    ensures forall e :: multiset(kept)[e] == if IsNote(e.ev) then 0 else multiset(clip)[e]
    ensures forall i :: 0 <= i < |kept| ==> !IsNote(kept[i].ev)
  {
    if |clip| == 0 then []
    else
      assert clip == [clip[0]] + clip[1..];
      var rest := Kept(clip[1..]);
      if IsNote(clip[0].ev) then rest else [clip[0]] + rest
  }

  /** The NoteOn emitted for a note: at its start, with its velocity. */
  function OnOf(n: Note): Timed
  {
    Timed(n.time, NoteOn(n.pitch, n.velocity))
  }

  /** The NoteOff emitted for a note: at its end, velocity 0. */
  function OffOf(n: Note): Timed
  {
    Timed(n.End(), NoteOff(n.pitch, 0))
  }

  /** The second loop: a NoteOn and a NoteOff per listed note. */
  function NoteEvents(heap: map<Id, Note>, ids: seq<Id>): (evs: seq<Timed>)
    requires forall id :: id in ids ==> id in heap
    ensures |evs| == 2 * |ids|
    ensures forall i :: 0 <= i < |ids| ==> evs[2 * i] == OnOf(heap[ids[i]]) && evs[2 * i + 1] == OffOf(heap[ids[i]])
  {
    if |ids| == 0 then []
    else
      var rest := NoteEvents(heap, ids[1..]);
      var evs := [OnOf(heap[ids[0]]), OffOf(heap[ids[0]])] + rest;
      forall i | 1 <= i < |ids| ensures evs[2 * i] == OnOf(heap[ids[i]]) && evs[2 * i + 1] == OffOf(heap[ids[i]]) {
        assert ids[1..][i - 1] == ids[i];
        assert evs[2 * i] == rest[2 * (i - 1)];
        assert evs[2 * i + 1] == rest[2 * (i - 1) + 1];
      }
      evs
  }

  /** Non-decreasing absolute times. */
  predicate Sorted(s: seq<Timed>)
  {
    forall i, j :: 0 <= i < j < |s| ==> s[i].time <= s[j].time
  }

  /** The events at tick t, in order. */
  function At(s: seq<Timed>, t: int): seq<Timed>
  {
    if |s| == 0 then [] else (if s[0].time == t then [s[0]] else []) + At(s[1..], t)
  }

  /** Place x before the first element that is not strictly earlier. */
  function Insert(x: Timed, s: seq<Timed>): (r: seq<Timed>)
    ensures |r| == |s| + 1 && multiset(r) == multiset(s) + multiset{x}
  {
    if |s| == 0 || x.time <= s[0].time then [x] + s
    else
      assert s == [s[0]] + s[1..];
      [s[0]] + Insert(x, s[1..])
  }

  /**
   * OrderBy(e => e.AbsoluteTime): a stable sort, here an insertion sort that
   * inserts each element ahead of the equal-time elements that follow it.
   */
  function SortByTime(s: seq<Timed>): (r: seq<Timed>)
    ensures |r| == |s| && multiset(r) == multiset(s)
  {
    if |s| == 0 then []
    else
      assert s == [s[0]] + s[1..];
      Insert(s[0], SortByTime(s[1..]))
  }

  lemma {:induction false} InsertSorted(x: Timed, s: seq<Timed>)
    requires Sorted(s)
    ensures Sorted(Insert(x, s))
    decreases |s|
  {
    if |s| == 0 || x.time <= s[0].time {
      ConsSorted(x, s);
    } else {
      InsertSorted(x, s[1..]);
      var r := Insert(x, s[1..]);
      forall i | 0 <= i < |r| ensures s[0].time <= r[i].time {
        assert r[i] in multiset(r);
        assert r[i] == x || r[i] in s[1..];
      }
      ConsSorted(s[0], r);
    }
  }

  /** An event no later than every event of a sorted list can go in front of it. */
  lemma ConsSorted(h: Timed, r: seq<Timed>)
    requires Sorted(r) && forall i :: 0 <= i < |r| ==> h.time <= r[i].time
    ensures Sorted([h] + r)
  {
    var s := [h] + r;
    forall i, j | 0 <= i < j < |s| ensures s[i].time <= s[j].time {
      if i > 0 {
        assert s[i] == r[i - 1];
      }
      assert s[j] == r[j - 1];
    }
  }

  /** The sort's output is ordered by absolute time. */
  lemma {:induction false} SortSorted(s: seq<Timed>)
    ensures Sorted(SortByTime(s))
    decreases |s|
  {
    if |s| > 0 {
      SortSorted(s[1..]);
      InsertSorted(s[0], SortByTime(s[1..]));
    }
  }

  lemma {:induction false} InsertAt(x: Timed, s: seq<Timed>, t: int)
    ensures At(Insert(x, s), t) == (if x.time == t then [x] else []) + At(s, t)
    decreases |s|
  {
    if |s| == 0 || x.time <= s[0].time {
      assert ([x] + s)[1..] == s;
    } else {
      InsertAt(x, s[1..], t);
      assert ([s[0]] + Insert(x, s[1..]))[1..] == Insert(x, s[1..]);
    }
  }

  /** Stability: the events sharing a tick keep their input order. */
  lemma {:induction false} SortStable(s: seq<Timed>, t: int)
    ensures At(SortByTime(s), t) == At(s, t)
    decreases |s|
  {
    if |s| > 0 {
      SortStable(s[1..], t);
      InsertAt(s[0], SortByTime(s[1..]), t);
    }
  }

  /** The delta loop: `DeltaTime = (int)(absoluteTime - lastEventTime)`. */
  function Encode(s: seq<Timed>, last: int): (d: seq<Delta>)
    ensures |d| == |s|
    ensures forall i :: 0 <= i < |s| ==> d[i].ev == s[i].ev
  {
    if |s| == 0 then []
    else [Delta(CSharp.ToInt32(s[0].time - last), s[0].ev)] + Encode(s[1..], s[0].time)
  }

  /** Reading a track chunk back: absolute times are the running sums of the deltas. */
  function Decode(d: seq<Delta>, last: int): (s: seq<Timed>)
    ensures |s| == |d|
  {
    if |d| == 0 then []
    else [Timed(last + d[0].delta, d[0].ev)] + Decode(d[1..], last + d[0].delta)
  }

  /** Times that are ordered, start at or after `last` and fit the 32-bit delta. */
  predicate Encodable(s: seq<Timed>, last: int)
  {
    Sorted(s) && 0 <= last && forall i :: 0 <= i < |s| ==> last <= s[i].time < CSharp.TwoTo31
  }

  /** On encodable times no delta is negative and the deltas sum back to the absolute times. */
  lemma {:induction false} EncodeDecode(s: seq<Timed>, last: int)
    requires Encodable(s, last)
    ensures forall i :: 0 <= i < |s| ==> Encode(s, last)[i].delta >= 0
    ensures Decode(Encode(s, last), last) == s
    decreases |s|
  {
    if |s| > 0 {
      var d := s[0].time - last;
      assert 0 <= d < CSharp.TwoTo31;
      assert Encodable(s[1..], s[0].time);
      EncodeDecode(s[1..], s[0].time);
      var e := Encode(s, last);
      assert e[1..] == Encode(s[1..], s[0].time);
    }
  }

  /** All the events ToMidiFile sorts, in the order it collects them. */
  function Collected(clip: seq<Timed>, r: Roll): (evs: seq<Timed>)
    requires Valid(r)
    ensures |evs| == |Kept(clip)| + 2 * |r.notes|
  {
    Kept(clip) + NoteEvents(r.heap, r.notes)
  }

  /** ToMidiFile's track chunk: the collected events, sorted, delta-encoded from tick 0. */
  function ToMidiFile(clip: seq<Timed>, r: Roll): (track: seq<Delta>)
    requires Valid(r)
    ensures |track| == |Kept(clip)| + 2 * |r.notes|
  {
    Encode(SortByTime(Collected(clip, r)), 0)
  }

  /** Every listed note, enabled or not, yields exactly one NoteOn at its start and one NoteOff at its end. */
  lemma NotesExported(clip: seq<Timed>, r: Roll, i: int)
    requires Valid(r) && 0 <= i < |r.notes|
    ensures OnOf(r.heap[r.notes[i]]) in multiset(SortByTime(Collected(clip, r)))
    ensures OffOf(r.heap[r.notes[i]]) in multiset(SortByTime(Collected(clip, r)))
  {
    var c := Collected(clip, r);
    var k := Kept(clip);
    var evs := NoteEvents(r.heap, r.notes);
    assert c == k + evs;
    Sorts(c, |k| + 2 * i);
    Sorts(c, |k| + 2 * i + 1);
  }

  /** Each collected event is among the sorted ones. */
  lemma Sorts(c: seq<Timed>, j: nat)
    requires j < |c|
    ensures c[j] in multiset(SortByTime(c))
  {
    assert c[j] in multiset(c);
  }

  /**
   * When every event lies in [0, 2^31) ticks, the exported deltas are
   * non-negative and their running sums rebuild the time-sorted collection,
   * which is a permutation of the collected events that keeps the collection
   * order among events at the same tick.
   */
  lemma ToMidiFileRoundTrip(clip: seq<Timed>, r: Roll)
    requires Valid(r)
    requires forall e :: e in clip ==> 0 <= e.time < CSharp.TwoTo31
    requires forall id :: id in r.notes ==> r.heap[id].End() < CSharp.TwoTo31
    ensures var sorted := SortByTime(Collected(clip, r));
      && Sorted(sorted)
      && multiset(sorted) == multiset(Collected(clip, r))
      && (forall t :: At(sorted, t) == At(Collected(clip, r), t))
      && (forall i :: 0 <= i < |sorted| ==> ToMidiFile(clip, r)[i].delta >= 0)
      && Decode(ToMidiFile(clip, r), 0) == sorted
  {
    var c := Collected(clip, r);
    var sorted := SortByTime(c);
    SortSorted(c);
    forall t ensures At(sorted, t) == At(c, t) {
      SortStable(c, t);
    }
    SortedInRange(clip, r);
    EncodeDecode(sorted, 0);
  }

  lemma SortedInRange(clip: seq<Timed>, r: Roll)
    requires Valid(r)
    requires forall e :: e in clip ==> 0 <= e.time < CSharp.TwoTo31
    requires forall id :: id in r.notes ==> r.heap[id].End() < CSharp.TwoTo31
    ensures Encodable(SortByTime(Collected(clip, r)), 0)
  {
    var sorted := SortByTime(Collected(clip, r));
    SortSorted(Collected(clip, r));
    forall i | 0 <= i < |sorted| ensures 0 <= sorted[i].time < CSharp.TwoTo31 {
      assert sorted[i] in multiset(Collected(clip, r));
      CollectedInRange(clip, r, sorted[i]);
    }
  }

  lemma CollectedInRange(clip: seq<Timed>, r: Roll, e: Timed)
    requires Valid(r)
    requires forall e :: e in clip ==> 0 <= e.time < CSharp.TwoTo31
    requires forall id :: id in r.notes ==> r.heap[id].End() < CSharp.TwoTo31
    requires e in Collected(clip, r)
    ensures 0 <= e.time < CSharp.TwoTo31
  {
    var k := Kept(clip);
    var evs := NoteEvents(r.heap, r.notes);
    if e in k {
      assert multiset(k)[e] > 0;
    } else {
      assert e in evs;
      var j :| 0 <= j < |evs| && evs[j] == e;
      var i := j / 2;
      assert j == 2 * i || j == 2 * i + 1;
      assert r.notes[i] in r.notes;
    }
  }
}
