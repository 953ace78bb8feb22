/**
 * The colour parser of Lumix/ImGuiExtensions/ImGuiTheme.cs: an HTML colour
 * "#RRGGBB" becomes a four-component vector whose red, green and blue are the
 * hex bytes over 255 and whose alpha is the caller's. Each byte goes through
 * Convert.ToInt32(pair, 16), modelled as accepting exactly two hex digits.
 */
module Theme {
  import opened Wrappers

  datatype Vec4 = Vec4(x: real, y: real, z: real, w: real)

  predicate IsHex(c: char)
  {
    '0' <= c <= '9' || 'a' <= c <= 'f' || 'A' <= c <= 'F'
  }

  /** The value of one hex digit, either case. */
  function HexValue(c: char): (v: nat)
    requires IsHex(c)
    ensures v < 16
  {
    if '0' <= c <= '9' then c as int - '0' as int
    else if 'a' <= c <= 'f' then c as int - 'a' as int + 10
    else c as int - 'A' as int + 10
  }

  /** Convert.ToInt32(pair, 16) on a two-character pair: a byte, or a FormatException. */
  function HexByte(hi: char, lo: char): (r: Result<nat>)
    ensures r.Ok? <==> IsHex(hi) && IsHex(lo)
    ensures r.Err? ==> r.fault == FormatFault
    ensures r.Ok? ==> r.value < 256 && r.value / 16 == HexValue(hi) && r.value % 16 == HexValue(lo)
  {
    if IsHex(hi) && IsHex(lo) then Ok(16 * HexValue(hi) + HexValue(lo)) else Err(FormatFault)
  }

  /** The shape HtmlToVec4 checks before parsing: seven characters, the first '#'. */
  predicate WellShaped(s: string)
  {
    |s| == 7 && s[0] == '#'
  }

  /** The colour components a byte stands for. */
  function Component(b: nat): real
  {
    b as real / 255.0
  }

  /**
   * HtmlToVec4(htmlColor, alpha): null, a wrong length or a missing '#' throw
   * ArgumentException; a pair that is not hex throws FormatException, red
   * first.
   */
  function HtmlToVec4(html: Option<string>, alpha: real): (r: Result<Vec4>)
    ensures r.Ok? <==> html.Some? && WellShaped(html.value) && forall i :: 1 <= i < 7 ==> IsHex(html.value[i])
    ensures (html.None? || !WellShaped(html.value)) ==> r == Err(ArgumentFault)
    ensures html.Some? && WellShaped(html.value) && r.Err? ==> r.fault == FormatFault
    ensures r.Ok? ==> && 0.0 <= r.value.x <= 1.0 && 0.0 <= r.value.y <= 1.0 && 0.0 <= r.value.z <= 1.0
                      && r.value.w == alpha
  {
    if html.None? || !WellShaped(html.value) then Err(ArgumentFault)
    else
      var s := html.value;
      match HexByte(s[1], s[2])
      case Err(f) => Err(f)
      case Ok(red) =>
        match HexByte(s[3], s[4])
        case Err(f) => Err(f)
        case Ok(green) =>
          match HexByte(s[5], s[6])
          case Err(f) => Err(f)
          case Ok(blue) => Ok(Vec4(Component(red), Component(green), Component(blue), alpha))
  }

  /** The upper-case hex digit of a value below 16. */
  function HexDigit(v: nat): (c: char)
    requires v < 16
    ensures IsHex(c) && HexValue(c) == v
    ensures !('a' <= c <= 'f')
  {
    if v < 10 then ('0' as int + v) as char else ('A' as int + v - 10) as char
  }

  /** A byte colour written as "#RRGGBB" in upper case. */
  function ToHtml(red: nat, green: nat, blue: nat): (s: string)
    requires red < 256 && green < 256 && blue < 256
    ensures WellShaped(s) && forall i :: 1 <= i < 7 ==> IsHex(s[i])
  {
    ['#', HexDigit(red / 16), HexDigit(red % 16), HexDigit(green / 16), HexDigit(green % 16),
     HexDigit(blue / 16), HexDigit(blue % 16)]
  }

  /** Writing a byte colour and parsing it back gives the bytes over 255 and the alpha. */
  lemma ParseWritten(red: nat, green: nat, blue: nat, alpha: real)
    requires red < 256 && green < 256 && blue < 256
    ensures HtmlToVec4(Some(ToHtml(red, green, blue)), alpha)
      == Ok(Vec4(Component(red), Component(green), Component(blue), alpha))
  {
    var s := ToHtml(red, green, blue);
    assert HexByte(s[1], s[2]) == Ok(red);
    assert HexByte(s[3], s[4]) == Ok(green);
    assert HexByte(s[5], s[6]) == Ok(blue);
  }

  /** Parsing and writing back gives an upper-case code its own text. */
  lemma WriteParsed(s: string, alpha: real)
    requires HtmlToVec4(Some(s), alpha).Ok?
    requires forall i :: 1 <= i < 7 ==> !('a' <= s[i] <= 'f')
    ensures var v := HtmlToVec4(Some(s), alpha).value;
      exists red: nat, green: nat, blue: nat :: red < 256 && green < 256 && blue < 256
        && ToHtml(red, green, blue) == s && v == Vec4(Component(red), Component(green), Component(blue), alpha)
  {
    var red, green, blue := HexByte(s[1], s[2]).value, HexByte(s[3], s[4]).value, HexByte(s[5], s[6]).value;
    var t := ToHtml(red, green, blue);
    forall i | 1 <= i < 7
      ensures t[i] == s[i]
    {
      DigitOfValue(s[i]);
    }
    assert t == s;
  }

  /** An upper-case or decimal digit is the digit of its value. */
  lemma DigitOfValue(c: char)
    requires IsHex(c) && !('a' <= c <= 'f')
    ensures HexDigit(HexValue(c)) == c
  {
  }

  /** The track colours, in order. */
  const DefaultHtml: seq<string> := ["#19B75B", "#2467C7", "#BD2E99", "#AF1E59", "#AFA721", "#D57222", "#1CA9B8", "#7517C3"]

  /** Every default colour parses, so the static initialiser does not throw. */
  lemma DefaultColorsParse()
    ensures forall i :: 0 <= i < |DefaultHtml| ==> HtmlToVec4(Some(DefaultHtml[i]), 1.0).Ok?
  {
    forall i | 0 <= i < |DefaultHtml|
      ensures HtmlToVec4(Some(DefaultHtml[i]), 1.0).Ok?
    {
      var s := DefaultHtml[i];
      assert WellShaped(s) && forall j :: 1 <= j < 7 ==> IsHex(s[j]);
    }
  }

  /** DefaultColors, one opaque colour per code. */
  function DefaultColors(): (cs: seq<Vec4>)
    ensures |cs| == |DefaultHtml|
    ensures forall i :: 0 <= i < |cs| ==> Ok(cs[i]) == HtmlToVec4(Some(DefaultHtml[i]), 1.0) && cs[i].w == 1.0
  {
    DefaultColorsParse();
    seq(|DefaultHtml|, i requires 0 <= i < |DefaultHtml| => HtmlToVec4(Some(DefaultHtml[i]), 1.0).value)
  }

  /** GetRandomColor with the draw of Random.Next(0, Length) as `pick`: one of the default colours. */
  function GetRandomColor(pick: nat): (c: Vec4)
    requires pick < |DefaultHtml|
    ensures exists i :: 0 <= i < |DefaultColors()| && DefaultColors()[i] == c
    ensures c.w == 1.0 && 0.0 <= c.x <= 1.0
  {
    DefaultColors()[pick]
  }
}
