/**
 * Colour texts.  App Inventor writes a colour property as `&HAARRGGBB`: the
 * prefix `&H` and then alpha, red, green and blue as two upper-case hex
 * digits each.  The chart library takes CSS-style `#RRGGBB` or `#RRGGBBAA`.
 * This module formats the first and reads back the second, so that the two
 * conversions of the chart models can be stated against colour values.
 */
module ArgbColor {
  import opened Wrappers

  type Byte = x: int | 0 <= x < 256

  datatype Argb = Argb(alpha: Byte, red: Byte, green: Byte, blue: Byte)

  const HexDigits: string := "0123456789ABCDEF"

  /** Two upper-case hex digits, high nibble first. */
  function HexByte(b: Byte): (s: string)
    ensures |s| == 2
  {
    [HexDigits[b / 16], HexDigits[b % 16]]
  }

  /** The value of one hex digit, either case. */
  function DigitValue(c: char): Option<nat>
  {
    if '0' <= c <= '9' then Some(c as nat - '0' as nat)
    else if 'A' <= c <= 'F' then Some(c as nat - 'A' as nat + 10)
    else if 'a' <= c <= 'f' then Some(c as nat - 'a' as nat + 10)
    else None
  }

  /** Reads two hex digits, high nibble first. */
  function ParseHexByte(s: string): (r: Option<Byte>)
    requires |s| == 2
  {
    match (DigitValue(s[0]), DigitValue(s[1]))
    case (Some(hi), Some(lo)) => if hi < 16 && lo < 16 then Some(hi * 16 + lo) else None
    case _ => None
  }

  /** The `&HAARRGGBB` text of a colour. */
  function AppInventorText(c: Argb): (s: string)
    ensures |s| == 10 && s[..2] == "&H"
  {
    "&H" + HexByte(c.alpha) + HexByte(c.red) + HexByte(c.green) + HexByte(c.blue)
  }

  /** Reads a `#RRGGBB` text. */
  function ParseRgb(s: string): Option<(Byte, Byte, Byte)>
  {
    if |s| != 7 || s[0] != '#' then None
    else
      var r :- ParseHexByte(s[1..3]);
      var g :- ParseHexByte(s[3..5]);
      var b :- ParseHexByte(s[5..7]);
      Some((r, g, b))
  }

  /** Reads a `#RRGGBBAA` text. */
  function ParseRgba(s: string): Option<Argb>
  {
    if |s| != 9 || s[0] != '#' then None
    else
      var r :- ParseHexByte(s[1..3]);
      var g :- ParseHexByte(s[3..5]);
      var b :- ParseHexByte(s[5..7]);
      var a :- ParseHexByte(s[7..9]);
      Some(Argb(a, r, g, b))
  }

  lemma DigitRoundTrip(n: int)
    requires 0 <= n < 16
    ensures DigitValue(HexDigits[n]) == Some(n)
  {
    if n < 10 {
      assert HexDigits[n] as int == '0' as int + n;
    } else {
      assert HexDigits[n] as int == 'A' as int + n - 10;
    }
  }

  /** Reading back a formatted byte gives the byte. */
  lemma HexByteRoundTrip(b: Byte)
    ensures ParseHexByte(HexByte(b)) == Some(b)
  {
    DigitRoundTrip(b / 16);
    DigitRoundTrip(b % 16);
  }
}
