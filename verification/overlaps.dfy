/**
 * HandleOverlappingNotes (Lumix/Views/Midi/PianoRoll.cs:1020-1076): for each
 * selected note, in selection order, every other listed note with the same
 * note number whose span overlaps it is removed, split in two, or trimmed.
 */
module Carving {
  import opened Seqs
  import opened Notes

  /** Some piece sounds tick t. */
  predicate SoundedBy(pieces: seq<Note>, t: int)
  {
    exists i :: 0 <= i < |pieces| && Sounds(pieces[i], t)
  }

  /**
   * What is left of the other note o after the selected note s is carved out
   * of it: nothing when s covers o, two pieces when s lies strictly inside o,
   * otherwise the one side of o that s does not reach. The second piece of a
   * split is the new note, with velocity `splitVelocity` and enabled.
   */
  function Carve(o: Note, s: Note, splitVelocity: int): (pieces: seq<Note>)
    requires WellFormed(o) && WellFormed(s) && Overlaps(s, o)
    ensures |pieces| <= 2
    ensures forall i :: 0 <= i < |pieces| ==>
      WellFormed(pieces[i]) && pieces[i].length > 0 && Shrunk(pieces[i], o) && !Overlaps(s, pieces[i])
    ensures forall t :: SoundedBy(pieces, t) <==> Sounds(o, t) && !Sounds(s, t)
    ensures |pieces| == 2 ==> !Overlaps(pieces[0], pieces[1]) && !Overlaps(pieces[1], pieces[0])
    ensures |pieces| > 0 ==> pieces[0].velocity == o.velocity && pieces[0].enabled == o.enabled
  {
    if s.time <= o.time && s.End() >= o.End() then
      []
    else if s.time > o.time && s.End() < o.End() then
      var left := o.(length := s.time - o.time);
      var right := Note(o.pitch, s.End(), o.End() - s.End(), splitVelocity, true);
      var ps := [left, right];
      assert ps[0] == left && ps[1] == right;
      assert forall t :: Sounds(left, t) ==> SoundedBy(ps, t);
      assert forall t :: Sounds(right, t) ==> SoundedBy(ps, t);
      ps
    else if s.time <= o.time then
      var tail := o.(time := s.End(), length := o.End() - s.End());
      var ps := [tail];
      assert ps[0] == tail;
      assert forall t :: Sounds(tail, t) ==> SoundedBy(ps, t);
      ps
    else
      var head := o.(length := s.time - o.time);
      var ps := [head];
      assert ps[0] == head;
      assert forall t :: Sounds(head, t) ==> SoundedBy(ps, t);
      ps
  }

  /** `_notes.Remove(other)`. */
  function Drop(r: Roll, o: Id): (r': Roll)
    requires Valid(r)
    ensures Valid(r') && r'.heap == r.heap && r'.selected == r.selected && r'.next == r.next
    ensures o !in r'.notes && forall id :: id in r'.notes <==> id in r.notes && id != o
  {
    RemoveFirstDistinct(r.notes, o);
    r.(notes := RemoveFirst(r.notes, o))
  }

  /** Assign new span data to the existing note o. */
  function Reshape(r: Roll, o: Id, n: Note): (r': Roll)
    requires Valid(r) && o in r.heap && WellFormed(n)
    ensures Valid(r') && r'.notes == r.notes && r'.selected == r.selected && r'.next == r.next
    ensures r'.heap == r.heap[o := n]
  {
    r.(heap := r.heap[o := n])
  }

  /** `_notes.Add(newNote)` for a new PNote holding n. */
  function Append(r: Roll, n: Note): (r': Roll)
    requires Valid(r) && WellFormed(n)
    ensures Valid(r') && r'.selected == r.selected && r'.next == r.next + 1
    ensures r'.heap == r.heap[r.next := n] && r'.notes == r.notes + [r.next]
  {
    assert r.next !in r.notes;
    r.(heap := r.heap[r.next := n], notes := r.notes + [r.next], next := r.next + 1)
  }

  /** One iteration of the inner loop: selected note s against listed note o. */
  function Step(r: Roll, s: Id, o: Id, splitVelocity: int): (r': Roll)
    requires Valid(r) && s in r.heap && o in r.heap
    ensures Valid(r') && r'.selected == r.selected && r'.next >= r.next
    ensures forall id :: id in r.heap ==> id in r'.heap && Shrunk(r'.heap[id], r.heap[id])
    ensures forall id :: id in r.heap && id != o ==> r'.heap[id] == r.heap[id]
    ensures !Clash(r, s, o) ==> r' == r
  {
    if !Clash(r, s, o) then r
    else
      var pieces := Carve(r.heap[o], r.heap[s], splitVelocity);
      if |pieces| == 0 then Drop(r, o)
      else if |pieces| == 1 then Reshape(r, o, pieces[0])
      else Append(Reshape(r, o, pieces[0]), pieces[1])
  }

  /** After a step on a clashing pair, o is gone from the list or clear of s. */
  lemma StepClears(r: Roll, s: Id, o: Id, v: int)
    requires Valid(r) && Clash(r, s, o)
    ensures var r' := Step(r, s, o, v);
      o !in r'.notes || !Overlaps(r'.heap[s], r'.heap[o])
  {
    var pieces := Carve(r.heap[o], r.heap[s], v);
    if |pieces| == 0 {
      RemoveFirstDistinct(r.notes, o);
    }
  }

  /**
   * A step removes at most o from the list and adds at most one note: a new
   * one, lying inside o's old span, clear of s and of what remains of o.
   */
  lemma StepList(r: Roll, s: Id, o: Id, v: int)
    requires Valid(r) && s in r.heap && o in r.heap
    ensures var r' := Step(r, s, o, v);
      && (forall id :: id in r.notes && id != o ==> id in r'.notes)
      && (forall id :: id in r'.notes && id in r.heap ==> id in r.notes)
      && (forall id :: id in r'.notes && id !in r.heap ==>
            id == r.next && id in r'.heap && Shrunk(r'.heap[id], r.heap[o])
            && !Overlaps(r'.heap[s], r'.heap[id]) && !Overlaps(r'.heap[id], r'.heap[o]))
  {
    if Clash(r, s, o) {
      var pieces := Carve(r.heap[o], r.heap[s], v);
      if |pieces| == 0 {
        RemoveFirstDistinct(r.notes, o);
      }
    }
  }
}

module OverlapResolution {
  import opened Seqs
  import opened Notes
  import opened Carving

  /** The inner loop: selected note s against each note of a snapshot of `_notes`. */
  function Sweep(r: Roll, s: Id, snap: seq<Id>, v: int): (r': Roll)
    requires Valid(r) && s in r.heap && forall x :: x in snap ==> x in r.heap
    ensures Valid(r') && r'.selected == r.selected && r'.next >= r.next
    ensures forall id :: id in r.heap ==> id in r'.heap && Shrunk(r'.heap[id], r.heap[id])
    ensures forall id :: id in r.heap && id !in snap ==> r'.heap[id] == r.heap[id]
    ensures r'.heap[s] == r.heap[s]
    decreases |snap|
  {
    if |snap| == 0 then r
    else Sweep(Step(r, s, snap[0], v), s, snap[1..], v)
  }

  /** The outer loop over a snapshot of the selection; each sweep takes a fresh snapshot of `_notes`. */
  function Resolve(r: Roll, pending: seq<Id>, v: int): (r': Roll)
    requires Valid(r) && forall s :: s in pending ==> s in r.heap
    ensures Valid(r') && r'.selected == r.selected && r'.next >= r.next
    ensures forall id :: id in r.heap ==> id in r'.heap && Shrunk(r'.heap[id], r.heap[id])
    decreases |pending|
  {
    if |pending| == 0 then r
    else Resolve(Sweep(r, pending[0], r.notes, v), pending[1..], v)
  }

  /** No listed note clashes with s, except possibly those still waiting in `rest`. */
  predicate ClearOf(r: Roll, s: Id, rest: seq<Id>)
  {
    forall o :: o in r.notes && o !in rest ==> !Clash(r, s, o)
  }

  /** No listed note clashes with any note of `done`. */
  predicate Cleared(r: Roll, done: seq<Id>)
  {
    forall s, o :: s in done && o in r.notes ==> !Clash(r, s, o)
  }

  lemma {:induction false} SweepClears(r: Roll, s: Id, rest: seq<Id>, v: int)
    requires Valid(r) && s in r.heap && (forall x :: x in rest ==> x in r.heap)
    requires ClearOf(r, s, rest)
    ensures ClearOf(Sweep(r, s, rest, v), s, [])
    decreases |rest|
  {
    if |rest| > 0 {
      var x := rest[0];
      var r1 := Step(r, s, x, v);
      StepList(r, s, x, v);
      if Clash(r, s, x) {
        StepClears(r, s, x, v);
      }
      forall o | o in r1.notes && o !in rest[1..]
        ensures !Clash(r1, s, o)
      {
        if o !in r.heap {
        } else if o == x {
        } else {
          assert o in r.notes && o !in rest;
        }
      }
      SweepClears(r1, s, rest[1..], v);
    }
  }

  /** Every note a sweep adds to the list comes from a snapshot note it lies inside and is clear of. */
  predicate Origins(r0: Roll, r: Roll, k: nat)
    requires k <= |r0.notes|
  {
    && (forall id :: id in r0.heap ==> id in r.heap)
    && (forall id :: id in r.notes && id in r0.heap ==> id in r0.notes)
    && (forall j :: k <= j < |r0.notes| && r0.notes[j] in r0.heap ==>
          r.heap[r0.notes[j]] == r0.heap[r0.notes[j]])
    && (forall id :: id in r.notes && id !in r0.heap ==>
          id in r.heap && r.next > id >= r0.next
          && exists q :: q in r0.notes[..k] && q in r0.heap && q in r.heap && Shrunk(r.heap[id], r0.heap[q]) && !Overlaps(r.heap[id], r.heap[q]))
  }

  /** A note the step on x adds, or one added earlier, keeps an origin among the first k + 1 snapshot notes. */
  lemma StepOrigin(r0: Roll, r: Roll, s: Id, k: nat, v: int, id: Id)
    requires Valid(r0) && Valid(r) && s in r.heap && k < |r0.notes|
    requires r.next >= r0.next && Origins(r0, r, k)
    requires var r1 := Step(r, s, r0.notes[k], v); id in r1.notes && id !in r0.heap
    ensures var r1 := Step(r, s, r0.notes[k], v);
      && id in r1.heap && r1.next > id >= r0.next
      && exists q :: q in r0.notes[..k + 1] && q in r0.heap && q in r1.heap
           && Shrunk(r1.heap[id], r0.heap[q]) && !Overlaps(r1.heap[id], r1.heap[q])
  {
    var x := r0.notes[k];
    var r1 := Step(r, s, x, v);
    StepList(r, s, x, v);
    if id in r.heap {
      assert id in r.notes;
      var q :| q in r0.notes[..k] && q in r0.heap && q in r.heap && Shrunk(r.heap[id], r0.heap[q]) && !Overlaps(r.heap[id], r.heap[q]);
      var i :| 0 <= i < k && r0.notes[..k][i] == q;
      assert r0.notes[i] == q;
      assert q != x;
      assert r0.notes[..k + 1][i] == q;
    } else {
      assert r.heap[x] == r0.heap[x];
      assert r0.notes[..k + 1][k] == x;
    }
  }

  /** One step keeps the origins of the notes added so far and extends them by x. */
  lemma StepOrigins(r0: Roll, r: Roll, s: Id, k: nat, v: int)
    requires Valid(r0) && Valid(r) && s in r.heap && k < |r0.notes|
    requires r.next >= r0.next && Origins(r0, r, k)
    ensures Origins(r0, Step(r, s, r0.notes[k], v), k + 1)
  {
    var x := r0.notes[k];
    var r1 := Step(r, s, x, v);
    StepList(r, s, x, v);
    forall j | k + 1 <= j < |r0.notes| && r0.notes[j] in r0.heap
      ensures r1.heap[r0.notes[j]] == r0.heap[r0.notes[j]]
    {
      assert r0.notes[j] != x;
    }
    forall id | id in r1.notes && id !in r0.heap
      ensures id in r1.heap && r1.next > id >= r0.next
      ensures exists q :: q in r0.notes[..k + 1] && q in r0.heap && q in r1.heap && Shrunk(r1.heap[id], r0.heap[q]) && !Overlaps(r1.heap[id], r1.heap[q])
    {
      StepOrigin(r0, r, s, k, v, id);
    }
  }

  lemma {:induction false} SweepOrigins(r0: Roll, r: Roll, s: Id, k: nat, v: int)
    requires Valid(r0) && Valid(r) && s in r.heap && k <= |r0.notes|
    requires r.next >= r0.next
    requires Origins(r0, r, k)
    ensures Origins(r0, Sweep(r, s, r0.notes[k..], v), |r0.notes|)
    decreases |r0.notes| - k
  {
    if k < |r0.notes| {
      var x := r0.notes[k];
      assert r0.notes[k..][0] == x && r0.notes[k..][1..] == r0.notes[k + 1..];
      StepOrigins(r0, r, s, k, v);
      SweepOrigins(r0, Step(r, s, x, v), s, k + 1, v);
    }
  }

  /** A whole sweep over the list: old notes stay listed only if they were, and every new note has a listed origin. */
  lemma SweepOriginsAll(r: Roll, s: Id, v: int)
    requires Valid(r) && s in r.heap
    ensures var r' := Sweep(r, s, r.notes, v);
      && (forall id :: id in r'.notes && id in r.heap ==> id in r.notes)
      && (forall id :: id in r'.notes && id !in r.heap ==>
            exists q :: q in r.notes && q in r.heap && q in r'.heap && Shrunk(r'.heap[id], r.heap[q]) && !Overlaps(r'.heap[id], r'.heap[q]))
  {
    assert r.notes[0..] == r.notes;
    assert Origins(r, r, 0);
    SweepOrigins(r, r, s, 0, v);
    assert r.notes[..|r.notes|] == r.notes;
  }

  /**
   * One pair (d, o) after any change that only shrinks notes, where d was
   * cleared before and o is an old listed note or a piece clear of its origin.
   */
  lemma SweptPairClear(r: Roll, r': Roll, done: seq<Id>, d: Id, o: Id)
    requires forall id :: id in r.heap ==> id in r'.heap && Shrunk(r'.heap[id], r.heap[id])
    requires Cleared(r, done) && d in done && d in r.heap
    requires o in r'.heap && (o in r.heap ==> o in r.notes)
    requires o !in r.heap ==> exists q :: q in r.notes && q in r.heap && q in r'.heap && Shrunk(r'.heap[o], r.heap[q]) && !Overlaps(r'.heap[o], r'.heap[q])
    ensures !Clash(r', d, o)
  {
    if o in r.heap {
      if Clash(r', d, o) {
        OverlapsWiden(r'.heap[d], r.heap[d], r'.heap[o], r.heap[o]);
      }
    } else {
      var q :| q in r.notes && q in r.heap && q in r'.heap && Shrunk(r'.heap[o], r.heap[q]) && !Overlaps(r'.heap[o], r'.heap[q]);
      if Clash(r', d, o) && q != d {
        OverlapsWiden(r'.heap[d], r.heap[d], r'.heap[o], r.heap[q]);
      }
    }
  }

  /** A sweep for s leaves s clear and keeps every earlier selected note clear. */
  lemma SweepKeepsCleared(r: Roll, s: Id, done: seq<Id>, v: int)
    requires Valid(r) && s in r.heap && (forall d :: d in done ==> d in r.heap)
    requires Cleared(r, done)
    ensures Cleared(Sweep(r, s, r.notes, v), done + [s])
  {
    var r' := Sweep(r, s, r.notes, v);
    assert ClearOf(r, s, r.notes);
    SweepClears(r, s, r.notes, v);
    SweepOriginsAll(r, s, v);
    forall d, o | d in done + [s] && o in r'.notes
      ensures !Clash(r', d, o)
    {
      if d != s {
        SweptPairClear(r, r', done, d, o);
      }
    }
  }

  lemma {:induction false} ResolveClears(r: Roll, pending: seq<Id>, done: seq<Id>, v: int)
    requires Valid(r) && (forall s :: s in pending ==> s in r.heap) && (forall d :: d in done ==> d in r.heap)
    requires Cleared(r, done)
    ensures Cleared(Resolve(r, pending, v), done + pending)
    decreases |pending|
  {
    if |pending| > 0 {
      var r1 := Sweep(r, pending[0], r.notes, v);
      SweepKeepsCleared(r, pending[0], done, v);
      ShiftHead(done, pending);
      ResolveClears(r1, pending[1..], done + [pending[0]], v);
    }
  }

  /** Every listed note lies inside some note that was listed in r0. */
  predicate Descends(r0: Roll, r: Roll)
  {
    forall o :: o in r.notes && o in r.heap ==>
      exists q :: q in r0.notes && q in r0.heap && Shrunk(r.heap[o], r0.heap[q])
  }

  lemma {:induction false} ResolveDescends(r0: Roll, r: Roll, pending: seq<Id>, v: int)
    requires Valid(r0) && Valid(r) && (forall s :: s in pending ==> s in r.heap)
    requires Descends(r0, r)
    ensures Descends(r0, Resolve(r, pending, v))
    decreases |pending|
  {
    if |pending| > 0 {
      var r1 := Sweep(r, pending[0], r.notes, v);
      SweepDescends(r0, r, pending[0], v);
      ResolveDescends(r0, r1, pending[1..], v);
    }
  }

  /** One sweep keeps every listed note inside a note of r0. */
  lemma SweepDescends(r0: Roll, r: Roll, s: Id, v: int)
    requires Valid(r) && s in r.heap && Descends(r0, r)
    ensures Descends(r0, Sweep(r, s, r.notes, v))
  {
    var r1 := Sweep(r, s, r.notes, v);
    SweepOriginsAll(r, s, v);
    forall o | o in r1.notes && o in r1.heap
      ensures exists q :: q in r0.notes && q in r0.heap && Shrunk(r1.heap[o], r0.heap[q])
    {
      var p := o;
      if o !in r.heap {
        p :| p in r.notes && p in r.heap && p in r1.heap && Shrunk(r1.heap[o], r.heap[p]) && !Overlaps(r1.heap[o], r1.heap[p]);
      }
      assert p in r.notes && Shrunk(r1.heap[o], r.heap[p]);
      var q :| q in r0.notes && q in r0.heap && Shrunk(r.heap[p], r0.heap[q]);
    }
  }

  /** A sweep for s leaves a listed note that does not clash with s where and as it was. */
  lemma {:induction false} SweepKeeps(r: Roll, s: Id, snap: seq<Id>, o: Id, v: int)
    requires Valid(r) && s in r.heap && (forall x :: x in snap ==> x in r.heap)
    requires o in r.notes && !Clash(r, s, o)
    ensures var r' := Sweep(r, s, snap, v); o in r'.notes && o in r'.heap && r'.heap[o] == r.heap[o]
    decreases |snap|
  {
    if |snap| > 0 {
      var r1 := Step(r, s, snap[0], v);
      StepList(r, s, snap[0], v);
      SweepKeeps(r1, s, snap[1..], o, v);
    }
  }

  lemma {:induction false} ResolveKeeps(r0: Roll, r: Roll, pending: seq<Id>, o: Id, v: int)
    requires Valid(r0) && Valid(r) && (forall s :: s in pending ==> s in r0.heap)
    requires forall id :: id in r0.heap ==> id in r.heap && Shrunk(r.heap[id], r0.heap[id])
    requires o in r.notes && o in r0.heap && r.heap[o] == r0.heap[o]
    requires forall s :: s in pending ==> !Clash(r0, s, o)
    ensures var r' := Resolve(r, pending, v); o in r'.notes && o in r'.heap && r'.heap[o] == r0.heap[o]
    decreases |pending|
  {
    if |pending| > 0 {
      var s := pending[0];
      if Clash(r, s, o) {
        OverlapsWiden(r.heap[s], r0.heap[s], r.heap[o], r0.heap[o]);
        assert Clash(r0, s, o);
      }
      SweepKeeps(r, s, r.notes, o, v);
      var r1 := Sweep(r, s, r.notes, v);
      ResolveKeeps(r0, r1, pending[1..], o, v);
    }
  }

  /**
   * HandleOverlappingNotes. Afterwards no listed note clashes with a selected
   * note, every listed note lies inside a note listed before, and a listed
   * note that clashed with no selected note is still listed and unchanged.
   * `splitVelocity` is the velocity DryWetMidi gives a Note built without one.
   */
  function HandleOverlappingNotes(r: Roll, splitVelocity: int): (r': Roll)
    requires Valid(r)
    ensures Valid(r') && r'.selected == r.selected
    ensures forall s, o :: s in r.selected && o in r'.notes ==> !Clash(r', s, o)
    ensures forall o :: o in r'.notes ==>
      exists q :: q in r.notes && q in r.heap && Shrunk(r'.heap[o], r.heap[q])
    ensures forall o :: o in r.notes && Untouched(r, o) ==> o in r'.notes && r'.heap[o] == r.heap[o]
    ensures forall id :: id in r.heap ==> id in r'.heap && Shrunk(r'.heap[id], r.heap[id])
  {
    var r' := Resolve(r, r.selected, splitVelocity);
    ResolveClears(r, r.selected, [], splitVelocity);
    assert [] + r.selected == r.selected;
    ResolveDescends(r, r, r.selected, splitVelocity);
    UntouchedKept(r, splitVelocity);
    r'
  }

  /** The listed note o clashes with no selected note. */
  predicate Untouched(r: Roll, o: Id)
  {
    forall s :: s in r.selected ==> !Clash(r, s, o)
  }

  /** Every listed note that clashes with no selected note survives the whole resolution. */
  lemma UntouchedKept(r: Roll, v: int)
    requires Valid(r)
    ensures var r' := Resolve(r, r.selected, v);
      forall o :: o in r.notes && Untouched(r, o) ==> o in r'.notes && o in r'.heap && r'.heap[o] == r.heap[o]
  {
    forall o | o in r.notes && Untouched(r, o)
      ensures var r' := Resolve(r, r.selected, v); o in r'.notes && o in r'.heap && r'.heap[o] == r.heap[o]
    {
      ResolveKeeps(r, r, r.selected, o, v);
    }
  }
}
