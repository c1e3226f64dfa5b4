/**
 * The `#rrggbb` colour notation written by `rgb_to_hex`: a `#` followed by each
 * channel as two lowercase, zero-padded hexadecimal digits (format `{:02x}`).
 */
module Hex {
  import opened Wrappers
  import opened Colors

  predicate IsLowerHex(c: char) { '0' <= c <= '9' || 'a' <= c <= 'f' }

  /** The lowercase hexadecimal digit for `d`. */
  function HexDigit(d: nat): (c: char)
    requires d < 16
    ensures IsLowerHex(c)
  {
    if d < 10 then ('0' as int + d) as char else ('a' as int + (d - 10)) as char
  }

  /** Decoder of one hexadecimal digit; it accepts exactly the lowercase digits. */
  function DigitValue(c: char): (o: Option<nat>)
    ensures o.Some? <==> IsLowerHex(c)
    ensures o.Some? ==> o.value < 16 && HexDigit(o.value) == c
  {
    if '0' <= c <= '9' then Some(c as int - '0' as int)
    else if 'a' <= c <= 'f' then Some(c as int - 'a' as int + 10)
    else None
  }

  /** `{:02x}` of one channel: the high digit first, padded with `0`. */
  function Hex2(v: Byte): string
  {
    [HexDigit(v / 16), HexDigit(v % 16)]
  }

  /** `rgb_to_hex`: seven characters, `#` then lowercase hexadecimal digits. */
  function RgbToHex(c: Rgb): (s: string)
    ensures |s| == 7 && s[0] == '#'
    ensures forall i :: 1 <= i < 7 ==> IsLowerHex(s[i])
  {
    "#" + Hex2(c.r) + Hex2(c.g) + Hex2(c.b)
  }

  /** Two hexadecimal digits, most significant first, read as one channel. */
  function ParseByte(hi: char, lo: char): Option<Byte>
  {
    match (DigitValue(hi), DigitValue(lo))
    case (Some(h), Some(l)) => Some(h * 16 + l)
    case _ => None
  }

  /** Decoder of the `#rrggbb` notation; anything of another shape is rejected. */
  function HexToRgb(s: string): Option<Rgb>
  {
    if |s| != 7 || s[0] != '#' then None
    else
      match (ParseByte(s[1], s[2]), ParseByte(s[3], s[4]), ParseByte(s[5], s[6]))
      case (Some(r), Some(g), Some(b)) => Some(Rgb(r, g, b))
      case _ => None
  }

  /** The digits of each channel sit at fixed positions: red at 1-2, green at 3-4, blue at 5-6. */
  lemma RgbToHexLayout(c: Rgb)
    ensures var s := RgbToHex(c);
      DigitValue(s[1]) == Some(c.r / 16) && DigitValue(s[2]) == Some(c.r % 16) &&
      DigitValue(s[3]) == Some(c.g / 16) && DigitValue(s[4]) == Some(c.g % 16) &&
      DigitValue(s[5]) == Some(c.b / 16) && DigitValue(s[6]) == Some(c.b % 16)
  {
    var s := RgbToHex(c);
    assert s[1..3] == Hex2(c.r) && s[3..5] == Hex2(c.g) && s[5..7] == Hex2(c.b);
  }

  /** A channel below 16 is padded with a leading `0`. */
  lemma RgbToHexZeroPadded(c: Rgb)
    ensures c.r < 16 ==> RgbToHex(c)[1] == '0'
    ensures c.g < 16 ==> RgbToHex(c)[3] == '0'
    ensures c.b < 16 ==> RgbToHex(c)[5] == '0'
  {
    RgbToHexLayout(c);
  }

  lemma Byte2RoundTrip(v: Byte)
    ensures ParseByte(HexDigit(v / 16), HexDigit(v % 16)) == Some(v)
  {
    assert DigitValue(HexDigit(v / 16)) == Some(v / 16);
    assert DigitValue(HexDigit(v % 16)) == Some(v % 16);
  }

  /** Decoding the string gives back the triple it was encoded from. */
  lemma HexRoundTrip(c: Rgb)
    ensures HexToRgb(RgbToHex(c)) == Some(c)
  {
    RgbToHexLayout(c);
    var s := RgbToHex(c);
    Byte2RoundTrip(c.r);
    Byte2RoundTrip(c.g);
    Byte2RoundTrip(c.b);
    assert s[1] == HexDigit(c.r / 16) && s[2] == HexDigit(c.r % 16);
    assert s[3] == HexDigit(c.g / 16) && s[4] == HexDigit(c.g % 16);
    assert s[5] == HexDigit(c.b / 16) && s[6] == HexDigit(c.b % 16);
  }

  /** `rgb_to_hex` is injective on 8-bit triples. */
  lemma RgbToHexInjective(c: Rgb, d: Rgb)
    requires RgbToHex(c) == RgbToHex(d)
    ensures c == d
  {
    HexRoundTrip(c);
    HexRoundTrip(d);
  }

  lemma ParseByteSound(hi: char, lo: char, v: Byte)
    requires ParseByte(hi, lo) == Some(v)
    ensures hi == HexDigit(v / 16) && lo == HexDigit(v % 16)
  {
    var h := DigitValue(hi).value;
    var l := DigitValue(lo).value;
    assert v == h * 16 + l;
    assert v / 16 == h && v % 16 == l;
  }

  /** Every string the decoder accepts is exactly the encoding of what it decodes to. */
  lemma HexToRgbSound(s: string, c: Rgb)
    requires HexToRgb(s) == Some(c)
    ensures RgbToHex(c) == s
  {
    ParseByteSound(s[1], s[2], c.r);
    ParseByteSound(s[3], s[4], c.g);
    ParseByteSound(s[5], s[6], c.b);
    var t := RgbToHex(c);
    assert t[1..3] == Hex2(c.r) && t[3..5] == Hex2(c.g) && t[5..7] == Hex2(c.b);
    assert forall i :: 0 <= i < 7 ==> t[i] == s[i];
  }
}
