/**
 * The piano roll's key geometry and naming (Lumix/Views/Midi/PianoRoll.cs:1103-1148):
 * rows count down from C8 (note 108), the drawn keyboard counts up from A0
 * (note 21), and names and octaves use C#'s truncating `/` and `%`.
 */
module PianoKeys {
  import opened Wrappers
  import CSharp
  import Decimal

  const LowestKey: int := 21   // A0
  const HighestKey: int := 108 // C8
  const TotalKeys: int := 88

  /** DryWetMidi's NoteName, in pitch-class order starting at C. */
  datatype PitchClass = C | CSharp | D | DSharp | E | F | FSharp | G | GSharp | A | ASharp | B

  const Classes: seq<PitchClass> := [C, CSharp, D, DSharp, E, F, FSharp, G, GSharp, A, ASharp, B]

  /** The spellings of NoteNumberToName's `noteNames` table. */
  const Names: seq<string> := ["C", "C#", "D", "D#", "E", "F", "F#", "G", "G#", "A", "A#", "B"]

  predicate IsSharp(p: PitchClass)
  {
    p == CSharp || p == DSharp || p == FSharp || p == GSharp || p == ASharp
  }

  /** IsBlackKey: the C# remainder modulo 12 is 1, 3, 6, 8 or 10. */
  predicate IsBlackKey(n: int)
  {
    var k := CSharp.Rem(n, 12);
    k == 1 || k == 3 || k == 6 || k == 8 || k == 10
  }

  /** The black keys are the five sharps of each octave; a negative number is never black. */
  lemma BlackKeysAreSharps(n: int)
    ensures IsBlackKey(n) <==> n >= 0 && IsSharp(Classes[n % 12])
  {
    if n < 0 {
      assert CSharp.Rem(n, 12) <= 0;
    } else {
      assert CSharp.Rem(n, 12) == n % 12;
    }
  }

  /** The drawn keyboard: row i from the bottom is note 21 + i. */
  function RowToNoteNumberDraw(row: int): (n: int)
    ensures n - LowestKey == row
  {
    LowestKey + row
  }

  function RowToNoteNumber(row: int): int
  {
    HighestKey - row
  }

  function NoteNumberToRow(n: int): (row: int)
    ensures RowToNoteNumber(row) == n
  {
    HighestKey - n
  }

  /** Rows and note numbers are in one-to-one correspondence. */
  lemma RowNoteInverse(row: int)
    ensures NoteNumberToRow(RowToNoteNumber(row)) == row
  {
  }

  /** The drawn keyboard and the note rows list the same 88 keys in opposite orders. */
  lemma DrawnRowsReverseNoteRows(i: int)
    requires 0 <= i < TotalKeys
    ensures LowestKey <= RowToNoteNumberDraw(i) <= HighestKey
    ensures NoteNumberToRow(RowToNoteNumberDraw(i)) == TotalKeys - 1 - i
  {
  }

  /**
   * NoteNumberToName: the pitch-class spelling followed by the octave
   * n / 12 - 1. A negative note number whose remainder is non-zero indexes
   * the table at a negative position and throws.
   */
  function NoteNumberToName(n: int): (r: Result<string>)
    ensures r.Ok? <==> CSharp.Rem(n, 12) >= 0
    ensures n >= 0 ==> r.Ok?
  {
    var k := CSharp.Rem(n, 12);
    if k < 0 then Err(IndexOutOfRange)
    else Ok(Names[k] + Decimal.IntToString(CSharp.Div(n, 12) - 1))
  }

  /** Reads a name of the form NoteNumberToName prints back into a note number. */
  function ParseNoteName(s: string): (r: Option<int>)
  {
    var split := if |s| >= 2 && s[1] == '#' then 2 else 1;
    if |s| < split then None
    else
      var k := IndexOfName(s[..split], 0);
      match Decimal.ParseInt(s[split..])
      case None => None
      case Some(octave) => if k < 0 then None else Some(12 * (octave + 1) + k)
  }

  function IndexOfName(name: string, from: nat): (k: int)
    requires from <= 12
    ensures -1 <= k < 12
    ensures k >= 0 ==> Names[k] == name
    decreases 12 - from
  {
    if from == 12 then -1 else if Names[from] == name then from else IndexOfName(name, from + 1)
  }

  /** NoteNumberToName loses nothing for the note numbers MIDI uses. */
  lemma NameRoundTrip(n: int)
    requires n >= 0
    ensures NoteNumberToName(n).Ok? && ParseNoteName(NoteNumberToName(n).value) == Some(n)
  {
    NonNegativeName(n);
    ParseSpelledName(n % 12, n / 12 - 1);
    assert 12 * (n / 12 - 1 + 1) + n % 12 == n;
  }

  /** For a note number of at least zero the C# division is Euclidean. */
  lemma NonNegativeName(n: int)
    requires n >= 0
    ensures NoteNumberToName(n) == Ok(Names[n % 12] + Decimal.IntToString(n / 12 - 1))
  {
    assert CSharp.Rem(n, 12) == n % 12 && CSharp.Div(n, 12) == n / 12;
  }

  /** A spelling followed by a printed octave parses back to its note number. */
  lemma ParseSpelledName(k: nat, octave: int)
    requires k < 12
    ensures ParseNoteName(Names[k] + Decimal.IntToString(octave)) == Some(12 * (octave + 1) + k)
  {
    var oct := Decimal.IntToString(octave);
    var s := Names[k] + oct;
    var split := |Names[k]|;
    assert s[..split] == Names[k] && s[split..] == oct;
    assert split == 2 <==> |s| >= 2 && s[1] == '#';
    NamesIndex(k, 0);
    Decimal.ParseIntToString(octave);
  }

  lemma {:induction false} NamesIndex(k: nat, from: nat)
    requires from <= k < 12
    ensures IndexOfName(Names[k], from) == k
    decreases k - from
  {
    if from < k {
      assert Names[from] != Names[k];
      NamesIndex(k, from + 1);
    }
  }

  /** RowToNoteName: the pitch class of 108 - row; a negative remainder throws. */
  function RowToNoteName(row: int): (r: Result<PitchClass>)
    ensures r.Ok? <==> row <= HighestKey || CSharp.Rem(HighestKey - row, 12) == 0
    ensures row <= HighestKey ==> r == Ok(Classes[(HighestKey - row) % 12])
  {
    var k := CSharp.Rem(RowToNoteNumber(row), 12);
    if 0 <= k < 12 then Ok(Classes[k]) else Err(InvalidOperation)
  }

  function RowToOctave(row: int): (octave: int)
    ensures row <= HighestKey ==> 12 * (octave + 1) <= HighestKey - row < 12 * (octave + 2)
  {
    CSharp.Div(RowToNoteNumber(row), 12) - 1
  }

  /** The row's name, octave and black/white colour all describe the same key. */
  lemma RowNamingAgrees(row: int)
    requires row <= HighestKey
    ensures var n := RowToNoteNumber(row);
      && NoteNumberToName(n) == Ok(Names[(HighestKey - row) % 12] + Decimal.IntToString(RowToOctave(row)))
      && (IsBlackKey(n) <==> IsSharp(RowToNoteName(row).value))
  {
    var n := RowToNoteNumber(row);
    assert CSharp.Rem(n, 12) == n % 12 && CSharp.Div(n, 12) == n / 12;
    BlackKeysAreSharps(n);
  }
}
