/**
 * The two text encodings GetID relies on: fmt's %d for a Go int and
 * encoding/hex's EncodeToString, each with a decoder as its partner.
 */
module Encoding {

  import opened Wrappers

  type byte = b: int | 0 <= b < 256

  predicate IsDigit(c: char) {
    '0' <= c <= '9'
  }

  predicate AllDigits(s: string) {
    forall i | 0 <= i < |s| :: IsDigit(s[i])
  }

  function DigitChar(d: nat): (c: char)
    requires d < 10
    ensures IsDigit(c)
  {
    (48 + d) as char
  }

  function DigitValue(c: char): (d: nat)
    requires IsDigit(c)
    ensures d < 10 && DigitChar(d) == c
  {
    c as int - 48
  }

  /** The decimal digits of `n`, most significant first, without leading zeros. */
  function NatDecimal(n: nat): (s: string)
    ensures |s| >= 1 && AllDigits(s)
    ensures |s| > 1 ==> s[0] != '0'
    decreases n
  {
    if n < 10 then [DigitChar(n)] else NatDecimal(n / 10) + [DigitChar(n % 10)]
  }

  /** fmt.Sprintf("%d", n): a minus sign for negative values, then the magnitude's digits. */
  function Decimal(n: int): (r: string)
    ensures |r| >= 1 && (r[0] == '-' <==> n < 0)
  {
    if n < 0 then "-" + NatDecimal(-n) else NatDecimal(n)
  }

  /** The value of a non-empty string of decimal digits. */
  function ParseDigits(s: string): (r: nat)
    requires |s| >= 1 && AllDigits(s)
    decreases |s|
  {
    if |s| == 1 then DigitValue(s[0])
    else ParseDigits(s[..|s| - 1]) * 10 + DigitValue(s[|s| - 1])
  }

  /** Reads back an optionally negative decimal integer; None when `s` is not one. */
  function ParseDecimal(s: string): (r: Option<int>) {
    if |s| >= 2 && s[0] == '-' && AllDigits(s[1..]) then Some(-(ParseDigits(s[1..]) as int))
    else if |s| >= 1 && AllDigits(s) then Some(ParseDigits(s))
    else None
  }

  lemma {:induction false} ParseNatDecimal(n: nat)
    ensures ParseDigits(NatDecimal(n)) == n
    decreases n
  {
    if n >= 10 {
      var s := NatDecimal(n);
      assert s[..|s| - 1] == NatDecimal(n / 10);
      ParseNatDecimal(n / 10);
    }
  }

  /** %d loses nothing: the printed form reads back as the same integer. */
  lemma DecimalRoundTrip(n: int)
    ensures ParseDecimal(Decimal(n)) == Some(n)
  {
    var s := Decimal(n);
    if n < 0 {
      var t := NatDecimal(-n);
      assert s == "-" + t;
      assert s[1..] == t && AllDigits(s[1..]);
      ParseNatDecimal(-n);
    } else {
      assert IsDigit(s[0]) && s[0] != '-';
      ParseNatDecimal(n);
    }
  }

  /** Distinct integers print differently. */
  lemma DecimalInjective(a: int, b: int)
    requires Decimal(a) == Decimal(b)
    ensures a == b
  {
    DecimalRoundTrip(a);
    DecimalRoundTrip(b);
  }

  predicate IsLowerHex(c: char) {
    '0' <= c <= '9' || 'a' <= c <= 'f'
  }

  function HexChar(d: nat): (c: char)
    requires d < 16
    ensures IsLowerHex(c)
    ensures c as int == if d < 10 then 48 + d else 87 + d
  {
    if d < 10 then (48 + d) as char else (87 + d) as char
  }

  function HexValue(c: char): (d: nat)
    requires IsLowerHex(c)
    ensures d < 16 && HexChar(d) == c
  {
    if c <= '9' then c as int - 48 else c as int - 87
  }

  /** hex.EncodeToString: two lower-case hex digits per byte, high nibble first. */
  function HexEncode(b: seq<byte>): (s: string)
    ensures |s| == 2 * |b|
    ensures forall i | 0 <= i < |s| :: IsLowerHex(s[i])
  {
    if b == [] then "" else [HexChar(b[0] / 16), HexChar(b[0] % 16)] + HexEncode(b[1..])
  }

  /** The inverse of HexEncode: None unless `s` is pairs of lower-case hex digits. */
  function HexDecode(s: string): (r: Option<seq<byte>>)
    ensures r.Some? ==> |s| == 2 * |r.value|
    decreases |s|
  {
    if s == [] then Some([])
    else if |s| < 2 || !IsLowerHex(s[0]) || !IsLowerHex(s[1]) then None
    else match HexDecode(s[2..])
      case None => None
      case Some(rest) => Some([HexValue(s[0]) * 16 + HexValue(s[1])] + rest)
  }

  lemma {:induction false} HexDecodeEncode(b: seq<byte>)
    ensures HexDecode(HexEncode(b)) == Some(b)
  {
    if b != [] {
      var s := HexEncode(b);
      var t := HexEncode(b[1..]);
      assert s == [HexChar(b[0] / 16), HexChar(b[0] % 16)] + t;
      assert s[2..] == t;
      assert HexValue(s[0]) * 16 + HexValue(s[1]) == b[0];
      HexDecodeEncode(b[1..]);
      assert b == [b[0]] + b[1..];
    }
  }

  lemma {:induction false} HexEncodeDecode(s: string, b: seq<byte>)
    requires HexDecode(s) == Some(b)
    ensures HexEncode(b) == s
    decreases |s|
  {
    if s != [] {
      assert |s| >= 2 && IsLowerHex(s[0]) && IsLowerHex(s[1]);
      var rest := HexDecode(s[2..]).value;
      var h := HexValue(s[0]) * 16 + HexValue(s[1]);
      assert b == [h] + rest;
      assert b[0] == h && b[1..] == rest;
      assert h / 16 == HexValue(s[0]) && h % 16 == HexValue(s[1]);
      HexEncodeDecode(s[2..], rest);
      assert HexEncode(b) == [HexChar(h / 16), HexChar(h % 16)] + HexEncode(rest);
      assert s == [s[0], s[1]] + s[2..];
    }
  }

  /** HexEncode and HexDecode are inverse to each other, in both directions. */
  lemma HexRoundTrip(s: string, b: seq<byte>)
    ensures HexDecode(s) == Some(b) <==> HexEncode(b) == s
  {
    if HexDecode(s) == Some(b) {
      HexEncodeDecode(s, b);
    }
    if HexEncode(b) == s {
      HexDecodeEncode(b);
    }
  }
}
