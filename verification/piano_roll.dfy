/**
 * The piano roll's editing commands (Lumix/Views/Midi/PianoRoll.cs:108-222,
 * 477-481): keyboard nudges of the selected notes, duplication, and snapping
 * a tick to the fixed grid. Every nudge is followed by HandleOverlappingNotes.
 */
module PianoRoll {
  import opened Wrappers
  import opened Seqs
  import opened Notes
  import CSharp
  import PianoKeys
  import OverlapResolution

  const LongMax: int := 0x7FFF_FFFF_FFFF_FFFF

  /** One keyboard nudge applied to each selected note; `bar` is GetTicksInBar(). */
  datatype Nudge =
    | Transpose(semitones: int)   // Up/Down arrow: ±1, with Shift ±12
    | Lengthen(bar: int)          // Shift+Right
    | Later(bar: int)             // Right
    | Shorten(bar: int)           // Shift+Left
    | Earlier(bar: int)           // Left
    | ToggleEnabled               // the 0 key

  predicate NudgeOk(e: Nudge)
  {
    !e.Transpose? && !e.ToggleEnabled? ==> 0 <= e.bar <= LongMax
  }

  function NudgeNote(e: Nudge, n: Note): (m: Note)
    requires NudgeOk(e) && WellFormed(n)
    ensures WellFormed(m)
    ensures e.Transpose? ==>
      (m == n.(pitch := m.pitch)
       && PianoKeys.LowestKey <= m.pitch <= PianoKeys.HighestKey
       && (PianoKeys.LowestKey <= n.pitch + e.semitones <= PianoKeys.HighestKey ==> m.pitch == n.pitch + e.semitones))
    ensures e.Lengthen? ==> m == n.(length := n.length + e.bar)
    ensures e.Later? ==> m == n.(time := n.time + e.bar)
    ensures e.Shorten? ==>
      (m == n.(length := m.length) && m.length >= e.bar
       && (2 * e.bar <= n.length <= LongMax ==> m.length == n.length - e.bar))
    ensures e.Earlier? ==>
      (m == n.(time := m.time) && 0 <= m.time <= n.time
       && (e.bar <= n.time <= LongMax ==> m.time == n.time - e.bar))
    ensures e.ToggleEnabled? ==> m == n.(enabled := !n.enabled)
  {
    match e
    case Transpose(k) => n.(pitch := CSharp.Clamp(n.pitch + k, PianoKeys.LowestKey, PianoKeys.HighestKey))
    case Lengthen(bar) => n.(length := n.length + bar)
    case Later(bar) => n.(time := n.time + bar)
    case Shorten(bar) => n.(length := CSharp.Clamp(n.length - bar, bar, LongMax))
    case Earlier(bar) => n.(time := CSharp.Clamp(n.time - bar, 0, LongMax))
    case ToggleEnabled => n.(enabled := !n.enabled)
  }

  /** `_selectedNotes.ForEach(...)`: the nudge reaches each selected note once and nothing else. */
  function NudgeSelected(r: Roll, e: Nudge, pending: seq<Id>): (r': Roll)
    requires Valid(r) && NudgeOk(e) && Distinct(pending) && forall s :: s in pending ==> s in r.heap
    ensures Valid(r') && r'.notes == r.notes && r'.selected == r.selected && r'.next == r.next
    ensures r'.heap.Keys == r.heap.Keys
    ensures forall id :: id in r.heap && id in pending ==> r'.heap[id] == NudgeNote(e, r.heap[id])
    ensures forall id :: id in r.heap && id !in pending ==> r'.heap[id] == r.heap[id]
    decreases |pending|
  {
    if |pending| == 0 then r
    else
      var s := pending[0];
      assert s !in pending[1..];
      var r1 := r.(heap := r.heap[s := NudgeNote(e, r.heap[s])]);
      NudgeSelected(r1, e, pending[1..])
  }

  /** The keys that drive ListenForShortcuts in one frame. */
  datatype Keys = Keys(up: bool, down: bool, right: bool, left: bool, shift: bool,
                       zero: bool, ctrl: bool, alt: bool, click: bool, d: bool)

  /** Pitch nudge (Up/Down, ±12 with Shift) then overlap resolution. */
  function PitchKeys(r: Roll, k: Keys, v: int): (r': Roll)
    requires Valid(r)
    ensures Valid(r') && r'.selected == r.selected
    ensures k.up || k.down ==> forall s :: s in r.selected ==>
      PianoKeys.LowestKey <= r'.heap[s].pitch <= PianoKeys.HighestKey
    ensures !k.up && !k.down ==> r' == r
  {
    var step := if k.shift then 12 else 1;
    if k.up then OverlapResolution.HandleOverlappingNotes(NudgeSelected(r, Transpose(step), r.selected), v)
    else if k.down then OverlapResolution.HandleOverlappingNotes(NudgeSelected(r, Transpose(-step), r.selected), v)
    else r
  }

  /** A span nudge of the selection followed by HandleOverlappingNotes; pitches stay as they were. */
  function NudgeAndResolve(r: Roll, e: Nudge, v: int): (r': Roll)
    requires Valid(r) && NudgeOk(e) && !e.Transpose?
    ensures Valid(r') && r'.selected == r.selected
    ensures forall s :: s in r.selected ==> r'.heap[s].pitch == r.heap[s].pitch
  {
    var r1 := NudgeSelected(r, e, r.selected);
    assert forall s :: s in r.selected ==> r1.heap[s].pitch == r.heap[s].pitch;
    OverlapResolution.HandleOverlappingNotes(r1, v)
  }

  /** Time nudge (Right/Left; with Shift the length) then overlap resolution. */
  function TimeKeys(r: Roll, k: Keys, bar: int, v: int): (r': Roll)
    requires Valid(r) && 0 <= bar <= LongMax
    ensures Valid(r') && r'.selected == r.selected
    ensures forall s :: s in r.selected ==> r'.heap[s].pitch == r.heap[s].pitch
    ensures !k.right && !k.left ==> r' == r
  {
    if k.right then NudgeAndResolve(r, if k.shift then Lengthen(bar) else Later(bar), v)
    else if k.left then NudgeAndResolve(r, if k.shift then Shorten(bar) else Earlier(bar), v)
    else r
  }

  /** A clone of n: same data, a new PNote (so enabled), moved to n's end when shifting. */
  function Clone(n: Note, shiftTime: bool): (c: Note)
    ensures c.pitch == n.pitch && c.length == n.length && c.velocity == n.velocity && c.enabled
    ensures c.time == (if shiftTime then n.End() else n.time)
  {
    Note(n.pitch, if shiftTime then n.End() else n.time, n.length, n.velocity, true)
  }

  /** The identities first, first + 1, ..., first + count - 1. */
  function Fresh(first: Id, count: nat): (ids: seq<Id>)
    ensures |ids| == count && forall i :: 0 <= i < count ==> ids[i] == first + i
  {
    seq(count, i requires 0 <= i < count => first + i)
  }

  /** One iteration of DuplicateNotes' loop: the clone of s replaces s in the selection. */
  function DuplicateOne(r: Roll, s: Id, shiftTime: bool): (r': Roll)
    requires Valid(r) && |r.selected| > 0 && s == r.selected[0]
    ensures Valid(r') && r'.next == r.next + 1
    ensures r'.selected == r.selected[1..] + [r.next] && r'.notes == r.notes + [r.next]
    ensures r'.heap == r.heap[r.next := Clone(r.heap[s], shiftTime)]
  {
    assert r.selected == [s] + r.selected[1..];
    assert RemoveFirst(r.selected, s) == r.selected[1..];
    var r1 := r.(selected := RemoveFirst(r.selected, s));
    assert Distinct(r1.selected) by {
      forall i, j | 0 <= i < j < |r1.selected| ensures r1.selected[i] != r1.selected[j] {
        assert r1.selected[i] == r.selected[i + 1] && r1.selected[j] == r.selected[j + 1];
      }
    }
    assert r.next !in r.selected && r.next !in r.notes;
    r1.(heap := r1.heap[r1.next := Clone(r1.heap[s], shiftTime)],
        notes := r1.notes + [r1.next], selected := r1.selected + [r1.next], next := r1.next + 1)
  }

  /** The heap after cloning `pending` in order into identities next, next + 1, .... */
  function CloneHeap(h: map<Id, Note>, pending: seq<Id>, next: Id, shiftTime: bool): (h': map<Id, Note>)
    requires forall p :: p in pending ==> p in h && p < next
    decreases |pending|
  {
    if |pending| == 0 then h
    else
      assert forall p :: p in pending[1..] ==> p in pending;
      CloneHeap(h[next := Clone(h[pending[0]], shiftTime)], pending[1..], next + 1, shiftTime)
  }

  /** Cloning only adds identities at or above `next`. */
  lemma {:induction false} CloneHeapFrame(h: map<Id, Note>, pending: seq<Id>, next: Id, shiftTime: bool, id: Id)
    requires forall p :: p in pending ==> p in h && p < next
    requires id in h && id < next
    ensures var h' := CloneHeap(h, pending, next, shiftTime); id in h' && h'[id] == h[id]
    decreases |pending|
  {
    if |pending| > 0 {
      var h1 := h[next := Clone(h[pending[0]], shiftTime)];
      assert forall p :: p in pending[1..] ==> p in pending;
      CloneHeapFrame(h1, pending[1..], next + 1, shiftTime, id);
    }
  }

  /** The i-th pending note's clone sits at next + i. */
  lemma {:induction false} CloneHeapAt(h: map<Id, Note>, pending: seq<Id>, next: Id, shiftTime: bool, i: nat)
    requires forall p :: p in pending ==> p in h && p < next
    requires i < |pending|
    ensures var h' := CloneHeap(h, pending, next, shiftTime);
      next + i in h' && h'[next + i] == Clone(h[pending[i]], shiftTime)
    decreases |pending|
  {
    var h1 := h[next := Clone(h[pending[0]], shiftTime)];
    assert forall p :: p in pending[1..] ==> p in pending;
    if i == 0 {
      CloneHeapFrame(h1, pending[1..], next + 1, shiftTime, next);
    } else {
      CloneHeapAt(h1, pending[1..], next + 1, shiftTime, i - 1);
      assert pending[1..][i - 1] == pending[i];
    }
  }

  /** The loop of DuplicateNotes over a snapshot of the selection. */
  function DuplicateLoop(r: Roll, pending: seq<Id>, kept: seq<Id>, shiftTime: bool): (r': Roll)
    requires Valid(r) && r.selected == pending + kept
    requires forall p :: p in pending ==> p in r.heap
    ensures Valid(r') && r'.next == r.next + |pending|
    ensures r'.selected == kept + Fresh(r.next, |pending|)
    ensures r'.notes == r.notes + Fresh(r.next, |pending|)
    ensures r'.heap == CloneHeap(r.heap, pending, r.next, shiftTime)
    decreases |pending|
  {
    if |pending| == 0 then r
    else
      var r1 := DuplicateOne(r, pending[0], shiftTime);
      assert r1.selected == pending[1..] + (kept + [r.next]);
      assert Fresh(r.next, |pending|) == [r.next] + Fresh(r.next + 1, |pending| - 1);
      assert forall p :: p in pending[1..] ==> p in pending;
      DuplicateLoop(r1, pending[1..], kept + [r.next], shiftTime)
  }

  /**
   * DuplicateNotes: each selected note is cloned and appended to `_notes`;
   * afterwards the selection is exactly the clones, in the same order, and
   * (before any overlap handling) the originals are still listed, unchanged.
   */
  function DuplicateNotes(r: Roll, shiftTime: bool, handleOverlaps: bool, v: int): (r': Roll)
    requires Valid(r)
    ensures Valid(r') && r'.selected == Fresh(r.next, |r.selected|)
    ensures !handleOverlaps ==> r'.notes == r.notes + r'.selected
    ensures !handleOverlaps ==> forall i :: 0 <= i < |r.selected| ==>
      r'.selected[i] in r'.heap && r'.heap[r'.selected[i]] == Clone(r.heap[r.selected[i]], shiftTime)
    ensures !handleOverlaps ==> forall id :: id in r.heap ==> id in r'.heap && r'.heap[id] == r.heap[id]
  {
    var d := Duplicated(r, shiftTime);
    if handleOverlaps then OverlapResolution.HandleOverlappingNotes(d, v) else d
  }

  function Duplicated(r: Roll, shiftTime: bool): (r': Roll)
    requires Valid(r)
    ensures Valid(r') && r'.selected == Fresh(r.next, |r.selected|)
    ensures r'.notes == r.notes + r'.selected
    ensures forall i :: 0 <= i < |r.selected| ==>
      r'.selected[i] in r'.heap && r'.heap[r'.selected[i]] == Clone(r.heap[r.selected[i]], shiftTime)
    ensures forall id :: id in r.heap ==> id in r'.heap && r'.heap[id] == r.heap[id]
  {
    assert r.selected == r.selected + [];
    var d := DuplicateLoop(r, r.selected, [], shiftTime);
    assert [] + Fresh(r.next, |r.selected|) == Fresh(r.next, |r.selected|);
    forall i | 0 <= i < |r.selected|
      ensures d.selected[i] in d.heap && d.heap[d.selected[i]] == Clone(r.heap[r.selected[i]], shiftTime)
    {
      assert d.selected[i] == r.next + i;
      CloneHeapAt(r.heap, r.selected, r.next, shiftTime, i);
    }
    forall id | id in r.heap ensures id in d.heap && d.heap[id] == r.heap[id] {
      CloneHeapFrame(r.heap, r.selected, r.next, shiftTime, id);
    }
    d
  }

  /** The clones are new notes: none of them existed before. */
  lemma ClonesAreNew(r: Roll, shiftTime: bool, handleOverlaps: bool, v: int)
    requires Valid(r)
    ensures forall s :: s in DuplicateNotes(r, shiftTime, handleOverlaps, v).selected ==> s !in r.heap
  {
  }

  /**
   * ListenForShortcuts for one frame: pitch keys, then time keys, then the
   * Enabled toggle, then Ctrl+click duplication in place (no overlap
   * handling) and Ctrl+D (without Alt) duplication after the originals.
   */
  function Shortcuts(r: Roll, k: Keys, bar: int, v: int): (r': Roll)
    requires Valid(r) && 0 <= bar <= LongMax
    ensures Valid(r')
    ensures !k.ctrl ==> r'.selected == r.selected
    ensures !k.ctrl && (k.up || k.down) ==> forall s :: s in r.selected ==>
      PianoKeys.LowestKey <= r'.heap[s].pitch <= PianoKeys.HighestKey
  {
    var r1 := PitchKeys(r, k, v);
    var r2 := TimeKeys(r1, k, bar, v);
    var r3 := if k.zero then NudgeSelected(r2, ToggleEnabled, r2.selected) else r2;
    var r4 := if k.ctrl && k.click then DuplicateNotes(r3, false, false, v) else r3;
    if k.ctrl && k.d && !k.alt then DuplicateNotes(r4, true, true, v) else r4
  }

  /** GridSpacing: `(long)(PPQ * _beatsPerBar)`. */
  function GridSpacing(ppq: int, beatsPerBar: real): int
  {
    CSharp.Truncate(ppq as real * beatsPerBar)
  }

  /**
   * SnapToGrid: the multiple of the grid spacing nearest the tick, ties to the
   * even multiple. A zero spacing makes the double division non-finite, but
   * whatever the cast to long makes of that is multiplied by the zero spacing,
   * so the result is 0. The case only arises when PPQ times the grid
   * setting truncates to zero ticks.
   */
  function SnapToGrid(tick: int, spacing: int): (r: int)
    ensures spacing == 0 ==> r == 0
    ensures spacing != 0 ==> r % spacing == 0
    ensures spacing != 0 ==> forall m: int {:trigger m * spacing} ::
      CSharp.Abs(tick - r) <= CSharp.Abs(tick - m * spacing)
  {
    if spacing == 0 then 0
    else
      var k := CSharp.RoundDiv(tick, spacing);
      MultipleMod(k, spacing);
      forall m: int ensures CSharp.Abs(tick - k * spacing) <= CSharp.Abs(tick - m * spacing) {
        CSharp.RoundDivNearest(tick, spacing, m);
      }
      k * spacing
  }

  lemma MultipleMod(k: int, g: int)
    requires g != 0
    ensures (k * g) % g == 0
  {
    var q := (k * g) / g;
    var e := (k * g) % g;
    assert k * g == g * q + e && 0 <= e < CSharp.Abs(g);
    assert g * (k - q) == e;
    if k - q != 0 {
      CSharp.MulAtLeast(g, k - q);
    }
  }

  /** Snapping a tick that is already on the grid leaves it there. */
  lemma SnapIdempotent(tick: int, spacing: int)
    ensures SnapToGrid(SnapToGrid(tick, spacing), spacing) == SnapToGrid(tick, spacing)
  {
    if spacing != 0 {
      var k := CSharp.RoundDiv(tick, spacing);
      CSharp.RoundDivExact(k, spacing);
    }
  }
}
