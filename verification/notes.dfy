/**
 * The piano roll's note store (Lumix/Views/Midi/PianoRoll.cs, PNote.cs).
 * A PNote is a reference, so the model keeps every note in a heap indexed by
 * an identity, and `_notes` and `_selectedNotes` are sequences of identities.
 */
module Notes {
  import opened Seqs

  type Id = nat

  /** DryWetMidi note data (number, start tick, length, velocity) and the PNote Enabled flag. */
  datatype Note = Note(pitch: int, time: int, length: int, velocity: int, enabled: bool)
  {
    function End(): int { time + length }
  }

  /** DryWetMidi refuses negative note times and lengths. */
  predicate WellFormed(n: Note)
  {
    n.time >= 0 && n.length >= 0
  }

  /** Tick t lies in the note's span [Time, Time + Length). */
  predicate Sounds(n: Note, t: int)
  {
    n.time <= t < n.End()
  }

  /** The overlap test of HandleOverlappingNotes: start before the other ends, end after it starts. */
  predicate Overlaps(a: Note, b: Note)
  {
    a.time < b.End() && a.End() > b.time
  }

  /** a's span lies inside b's span and both have the same note number. */
  predicate Shrunk(a: Note, b: Note)
  {
    a.pitch == b.pitch && b.time <= a.time && a.End() <= b.End()
  }

  /** Two notes that overlap keep overlapping when either is widened. */
  lemma OverlapsWiden(a: Note, a': Note, b: Note, b': Note)
    requires Shrunk(a, a') && Shrunk(b, b') && Overlaps(a, b)
    ensures Overlaps(a', b') && Overlaps(b', a')
  {
  }

  /** The piano roll: note heap, `_notes`, `_selectedNotes`, and the next fresh identity. */
  datatype Roll = Roll(heap: map<Id, Note>, notes: seq<Id>, selected: seq<Id>, next: Id)

  /**
   * What the class maintains: every listed note exists and is well formed,
   * identities below `next` are the used ones, and neither list repeats a
   * note (every `_notes.Add` adds a new PNote; selection adds check Contains).
   */
  predicate Valid(r: Roll)
  {
    && (forall id :: id in r.heap ==> id < r.next && WellFormed(r.heap[id]))
    && (forall id :: id in r.notes ==> id in r.heap)
    && (forall id :: id in r.selected ==> id in r.heap)
    && Distinct(r.notes)
    && Distinct(r.selected)
  }

  /** Same note number and overlapping spans: the pairs HandleOverlappingNotes acts on. */
  predicate Clash(r: Roll, s: Id, o: Id)
  {
    s in r.heap && o in r.heap && s != o
    && r.heap[s].pitch == r.heap[o].pitch && Overlaps(r.heap[s], r.heap[o])
  }
}
