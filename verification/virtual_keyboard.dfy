/**
 * The computer-keyboard piano (Lumix/Views/Midi/VirtualKeyboard.cs): the
 * row A W S E D F T G Y H U J K plays C4..C5, Z/X shift the octave, C/V the
 * velocity, and every note goes to each track that is armed for recording and
 * has a MIDI engine. Two entry points feed it: the key events of a plugin's
 * editor window, and the main window's per-frame key poll.
 */
module VirtualKeyboard {
  import opened Wrappers
  import CSharp
  import VstMidi
  import Tracks

  datatype Key = A | W | S | E | D | F | T | G | Y | H | U | J | K | Z | X | C | V | Space | OtherKey(code: nat)

  /** The note keys, in the order the dictionaries list them. */
  const NoteKeys: seq<Key> := [A, W, S, E, D, F, T, G, Y, H, U, J, K]

  /** The key-to-note dictionary. */
  function NoteOf(k: Key): (n: Option<int>)
    ensures n.Some? <==> k in NoteKeys
    ensures n.Some? ==> 60 <= n.value <= 72
  {
    match k
    case A => Some(60) case W => Some(61) case S => Some(62) case E => Some(63)
    case D => Some(64) case F => Some(65) case T => Some(66) case G => Some(67)
    case Y => Some(68) case H => Some(69) case U => Some(70) case J => Some(71)
    case K => Some(72)
    case _ => None
  }

  /** The note row is chromatic: the i-th note key plays 60 + i, C4 to C5. */
  lemma NoteRowIsChromatic()
    ensures |NoteKeys| == 13
    ensures forall i :: 0 <= i < 13 ==> NoteOf(NoteKeys[i]) == Some(60 + i)
  {
  }

  datatype Keyboard = Keyboard(enabled: bool, octaveShift: int, velocity: int, isKeyDown: bool)

  /** The static fields' initial values. */
  const Initial: Keyboard := Keyboard(true, 0, 100, false)

  /** The ranges ShiftOctave and ShiftVelocity clamp to. */
  predicate Valid(kb: Keyboard)
  {
    -36 <= kb.octaveShift <= 36 && 7 <= kb.velocity <= 127
  }

  /** Toggle: the top bar's keyboard button. */
  function Toggle(kb: Keyboard): (r: Keyboard)
    ensures r.enabled == !kb.enabled && r.(enabled := kb.enabled) == kb
  {
    kb.(enabled := !kb.enabled)
  }

  /** ShiftOctave: add, then clamp to [-36, 36] (three octaves either way). */
  function ShiftOctave(kb: Keyboard, amount: int): (r: Keyboard)
    ensures -36 <= r.octaveShift <= 36
    ensures -36 <= kb.octaveShift + amount <= 36 ==> r.octaveShift == kb.octaveShift + amount
    ensures r == kb.(octaveShift := r.octaveShift)
  {
    kb.(octaveShift := CSharp.Clamp(kb.octaveShift + amount, -36, 36))
  }

  /** ShiftVelocity: add, then clamp to [7, 127]. */
  function ShiftVelocity(kb: Keyboard, amount: int): (r: Keyboard)
    ensures 7 <= r.velocity <= 127
    ensures 7 <= kb.velocity + amount <= 127 ==> r.velocity == kb.velocity + amount
    ensures r == kb.(velocity := r.velocity)
  {
    kb.(velocity := CSharp.Clamp(kb.velocity + amount, 7, 127))
  }

  /** Shifting up and back down returns to the same octave whenever the first shift did not clamp. */
  lemma OctaveShiftUndoes(kb: Keyboard)
    requires Valid(kb) && kb.octaveShift <= 24
    ensures ShiftOctave(ShiftOctave(kb, 12), -12) == kb
  {
  }

  /** A message addressed to the MIDI engine of the track at a list position. */
  datatype Sent = Sent(track: nat, voice: VstMidi.Voice)

  /** Armed for recording with a MIDI engine: the tracks the keyboard plays. */
  predicate Listens(t: Tracks.Track)
  {
    t.recordOnStart && t.engine.MidiEngine?
  }

  /** `Tracks.ForEach`: the voice to every listening track from position i on, in list order. */
  function Broadcast(tracks: seq<Tracks.Track>, i: nat, v: VstMidi.Voice): (r: seq<Sent>)
    requires i <= |tracks|
    ensures forall m :: m in r ==> m.voice == v && i <= m.track < |tracks| && Listens(tracks[m.track])
    ensures forall k :: i <= k < |tracks| && Listens(tracks[k]) ==> Sent(k, v) in r
    decreases |tracks| - i
  {
    if i == |tracks| then []
    else (if Listens(tracks[i]) then [Sent(i, v)] else []) + Broadcast(tracks, i + 1, v)
  }

  /** The note a note key sends: its dictionary value plus the octave shift. */
  function Pitch(kb: Keyboard, k: Key): (n: int)
    requires NoteOf(k).Some?
    ensures Valid(kb) ==> 24 <= n <= 108
  {
    NoteOf(k).value + kb.octaveShift
  }

  /** What a note key's press sends: NoteOn at the current velocity on channel 0. */
  function PressOf(kb: Keyboard, k: Key): VstMidi.Voice
    requires NoteOf(k).Some? && Valid(kb)
  {
    VstMidi.NoteOnMsg(0, Pitch(kb, k), kb.velocity)
  }

  /** What a note key's release sends: NoteOff with velocity 0. */
  function ReleaseOf(kb: Keyboard, k: Key): VstMidi.Voice
    requires NoteOf(k).Some? && Valid(kb)
  {
    VstMidi.NoteOffMsg(0, Pitch(kb, k), 0)
  }

  /** The Z/X/C/V handling of a key event from a plugin window. */
  function ShiftKeys(kb: Keyboard, k: Key): (r: Keyboard)
  {
    match k
    case Z => ShiftOctave(kb, -12)
    case X => ShiftOctave(kb, 12)
    case C => ShiftVelocity(kb, -10)
    case V => ShiftVelocity(kb, 10)
    case _ => kb
  }

  /** What a key event did: the new state, the messages, and whether it toggled the transport. */
  datatype Outcome = Outcome(keyboard: Keyboard, sent: seq<Sent>, toggledTransport: bool)

  /**
   * KeyDownFromPlugin: repeats are dropped; Space toggles the transport
   * whether or not the keyboard is enabled; a disabled keyboard stops there;
   * a note key plays on every listening track; Z/X/C/V shift.
   */
  function KeyDown(kb: Keyboard, tracks: seq<Tracks.Track>, k: Key, repeat: bool): (r: Outcome)
    requires Valid(kb)
    ensures Valid(r.keyboard)
    ensures repeat ==> r == Outcome(kb, [], false)
    ensures !repeat ==> r.toggledTransport == (k == Space)
    ensures !kb.enabled ==> r.keyboard == kb && r.sent == []
    ensures forall m :: m in r.sent ==>
      && m.voice.NoteOnMsg? && m.voice.channel == 0 && 24 <= m.voice.key <= 108 && 7 <= m.voice.velocity <= 127
      && m.track < |tracks| && Listens(tracks[m.track])
    ensures !repeat && kb.enabled && NoteOf(k).Some? ==>
      forall i :: 0 <= i < |tracks| && Listens(tracks[i]) ==> Sent(i, PressOf(kb, k)) in r.sent
    ensures r.keyboard.enabled == kb.enabled && r.keyboard.isKeyDown == kb.isKeyDown
  {
    if repeat then Outcome(kb, [], false)
    else if !kb.enabled then Outcome(kb, [], k == Space)
    else
      var sent := if NoteOf(k).Some? then Broadcast(tracks, 0, PressOf(kb, k)) else [];
      Outcome(ShiftKeys(kb, k), sent, k == Space)
  }

  /** KeyUpFromPlugin: a note key's release sends NoteOff to every listening track, unless the keyboard is disabled. */
  function KeyUp(kb: Keyboard, tracks: seq<Tracks.Track>, k: Key): (r: seq<Sent>)
    requires Valid(kb)
    ensures !kb.enabled || NoteOf(k).None? ==> r == []
    ensures forall m :: m in r ==>
      && m.voice.NoteOffMsg? && m.voice.channel == 0 && 24 <= m.voice.key <= 108 && m.voice.velocity == 0
      && m.track < |tracks| && Listens(tracks[m.track])
    ensures kb.enabled && NoteOf(k).Some? ==>
      forall i :: 0 <= i < |tracks| && Listens(tracks[i]) ==> Sent(i, ReleaseOf(kb, k)) in r
  {
    if kb.enabled && NoteOf(k).Some? then Broadcast(tracks, 0, ReleaseOf(kb, k)) else []
  }

  /** A press and its release, with no shift in between, address the same tracks with the same note. */
  lemma PressReleasePair(kb: Keyboard, tracks: seq<Tracks.Track>, k: Key)
    requires Valid(kb) && kb.enabled && NoteOf(k).Some? && k != Z && k != X
    ensures var down := KeyDown(kb, tracks, k, false);
      forall i :: 0 <= i < |tracks| ==>
        (Sent(i, PressOf(kb, k)) in down.sent <==> Sent(i, ReleaseOf(down.keyboard, k)) in KeyUp(down.keyboard, tracks, k))
  {
    var down := KeyDown(kb, tracks, k, false);
    assert down.keyboard.octaveShift == kb.octaveShift;
  }

  /**
   * The note loop of ListenForKeyPresses over NoteKeys[i..]: a pressed key
   * sends NoteOn and sets isKeyDown, a released key sends NoteOff and clears
   * it, so the last note key with an event decides the flag.
   */
  function PollNotes(kb: Keyboard, tracks: seq<Tracks.Track>, pressed: set<Key>, released: set<Key>, i: nat): (r: (Keyboard, seq<Sent>))
    requires Valid(kb) && i <= |NoteKeys|
    ensures r.0 == kb.(isKeyDown := r.0.isKeyDown)
    ensures (forall j :: i <= j < |NoteKeys| ==> NoteKeys[j] !in pressed && NoteKeys[j] !in released) ==> r == (kb, [])
    ensures forall m :: m in r.1 ==>
      && m.track < |tracks| && Listens(tracks[m.track])
      && (m.voice.NoteOnMsg? || m.voice.NoteOffMsg?) && 24 <= m.voice.key <= 108
    decreases |NoteKeys| - i
  {
    if i == |NoteKeys| then (kb, [])
    else
      var k := NoteKeys[i];
      var on := if k in pressed then Broadcast(tracks, 0, PressOf(kb, k)) else [];
      var kb1 := if k in pressed then kb.(isKeyDown := true) else kb;
      var off := if k in released then Broadcast(tracks, 0, ReleaseOf(kb1, k)) else [];
      var kb2 := if k in released then kb1.(isKeyDown := false) else kb1;
      var rest := PollNotes(kb2, tracks, pressed, released, i + 1);
      (rest.0, on + off + rest.1)
  }

  /**
   * ListenForKeyPresses, which Program only calls while the keyboard is
   * enabled: the note loop, then Z and X shift the octave only when no note
   * key is held, while C and V shift the velocity regardless.
   */
  function Poll(kb: Keyboard, tracks: seq<Tracks.Track>, pressed: set<Key>, released: set<Key>): (r: (Keyboard, seq<Sent>))
    requires Valid(kb)
    ensures Valid(r.0)
    ensures !kb.enabled ==> r == (kb, [])
    ensures r.0.isKeyDown ==> r.0.octaveShift == kb.octaveShift
    ensures (C !in pressed && V !in pressed) ==> r.0.velocity == kb.velocity
  {
    if !kb.enabled then (kb, [])
    else
      var (k0, sent) := PollNotes(kb, tracks, pressed, released, 0);
      var k1 := if Z in pressed && !k0.isKeyDown then ShiftOctave(k0, -12) else k0;
      var k2 := if X in pressed && !k1.isKeyDown then ShiftOctave(k1, 12) else k1;
      var k3 := if C in pressed then ShiftVelocity(k2, -10) else k2;
      var k4 := if V in pressed then ShiftVelocity(k3, 10) else k3;
      (k4, sent)
  }

  /** Holding a note key from an earlier frame blocks Z and X while no note key changes. */
  lemma HeldNoteBlocksOctave(kb: Keyboard, tracks: seq<Tracks.Track>, pressed: set<Key>, released: set<Key>)
    requires Valid(kb) && kb.isKeyDown
    requires forall j :: 0 <= j < |NoteKeys| ==> NoteKeys[j] !in pressed && NoteKeys[j] !in released
    ensures Poll(kb, tracks, pressed, released).0.octaveShift == kb.octaveShift
    ensures Poll(kb, tracks, pressed, released).1 == []
  {
  }

  /** With nothing held, Z lowers the octave by twelve semitones unless that would pass -36. */
  lemma FreeZLowers(kb: Keyboard, tracks: seq<Tracks.Track>)
    requires Valid(kb) && kb.enabled && !kb.isKeyDown && kb.octaveShift >= -24
    ensures Poll(kb, tracks, {Z}, {}).0.octaveShift == kb.octaveShift - 12
  {
    var p := PollNotes(kb, tracks, {Z}, {}, 0);
    assert forall j :: 0 <= j < |NoteKeys| ==> NoteKeys[j] !in {Z} && NoteKeys[j] !in {};
  }

  /** Every note the keyboard can send is a seven-bit number, so the SevenBitNumber constructor never throws. */
  lemma NotesFitSevenBits(kb: Keyboard, k: Key)
    requires Valid(kb) && NoteOf(k).Some?
    ensures 0 <= Pitch(kb, k) < 128 && 0 <= kb.velocity < 128
  {
  }

  /** The initial keyboard is in range. */
  lemma InitialValid()
    ensures Valid(Initial)
  {
  }
}
