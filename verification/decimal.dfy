/** Decimal text for integers, as C# string interpolation prints an int, and its inverse. */
module Decimal {
  import opened Wrappers

  function DigitChar(d: int): (c: char)
    requires 0 <= d < 10
    ensures '0' <= c <= '9' && (c as int) - ('0' as int) == d
  {
    (d + '0' as int) as char
  }

  predicate IsDigit(c: char) { '0' <= c <= '9' }

  /** The decimal digits of n, most significant first, without leading zeros. */
  function NatToString(n: nat): (s: string)
    ensures |s| > 0 && forall i :: 0 <= i < |s| ==> IsDigit(s[i])
    decreases n
  {
    if n < 10 then [DigitChar(n)] else NatToString(n / 10) + [DigitChar(n % 10)]
  }

  /** Int32.ToString(): a minus sign for negative values, then the digits. */
  function IntToString(i: int): (s: string)
    ensures |s| > 0 && (s[0] == '-' <==> i < 0) && (s[0] == '-' || IsDigit(s[0]))
  {
    if i < 0 then "-" + NatToString(-i) else NatToString(i)
  }

  /** The value of a non-empty string of digits. */
  function ParseNat(s: string): (r: Option<nat>)
    ensures r.Some? <==> |s| > 0 && forall i :: 0 <= i < |s| ==> IsDigit(s[i])
    decreases |s|
  {
    if |s| == 0 || !IsDigit(s[|s| - 1]) then None
    else if |s| == 1 then Some((s[0] as int) - ('0' as int))
    else
      match ParseNat(s[..|s| - 1])
      case None => None
      case Some(p) => Some(p * 10 + ((s[|s| - 1] as int) - ('0' as int)))
  }

  function ParseInt(s: string): (r: Option<int>)
  {
    if |s| > 0 && s[0] == '-' then
      match ParseNat(s[1..])
      case None => None
      case Some(n) => Some(-(n as int))
    else
      match ParseNat(s)
      case None => None
      case Some(n) => Some(n as int)
  }

  lemma {:induction false} ParseNatToString(n: nat)
    ensures ParseNat(NatToString(n)) == Some(n)
    decreases n
  {
    if n >= 10 {
      var s := NatToString(n);
      assert s[..|s| - 1] == NatToString(n / 10);
      ParseNatToString(n / 10);
    }
  }

  /** Printing then parsing an int gives it back. */
  lemma ParseIntToString(i: int)
    ensures ParseInt(IntToString(i)) == Some(i)
  {
    if i < 0 {
      assert IntToString(i)[1..] == NatToString(-i);
      ParseNatToString(-i);
    } else {
      ParseNatToString(i);
    }
  }
}
