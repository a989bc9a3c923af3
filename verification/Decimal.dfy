/** Decoding of packed DECIMAL values into text. */
module Decimal {

  type Byte = b: nat | b < 256

  type Digit = d: nat | d < 10

  datatype Decoded = Text(s: string) | Invalid

  // Packed values: the scale, two digits to a byte, and the sign in the half byte after the last digit

  function SignNibble(neg: bool): nat { if neg then 0xD else 0xC }

  function Pair(high: nat, low: nat): Byte
    requires high < 16 && low < 16
  {
    16 * high + low
  }

  function Packed(ds: seq<Digit>): seq<Byte> {
    if |ds| < 2 then [] else Packed(ds[..|ds| - 2]) + [Pair(ds[|ds| - 2], ds[|ds| - 1])]
  }

  function Encode(neg: bool, ds: seq<Digit>, scale: Byte): seq<Byte> {
    if |ds| % 2 == 0 then [scale] + Packed(ds) + [Pair(SignNibble(neg), 0)]
    else [scale] + Packed(ds[..|ds| - 1]) + [Pair(ds[|ds| - 1], SignNibble(neg))]
  }

  // The text

  function IntText(n: nat): string
    requires n < 16
  {
    if n < 10 then ['0' + n as char] else ['1', '0' + (n - 10) as char]
  }

  /** The decimal numeral of a half byte, which may be more than a digit. */
  lemma HalfByteText(n: nat)
    requires n < 16
    ensures
      var t := IntText(n);
      && (|t| == 1 || (|t| == 2 && t[0] != '0')) && (forall i :: 0 <= i < |t| ==> '0' <= t[i] <= '9')
      && n == if |t| == 1 then (t[0] - '0') as int else 10 * (t[0] - '0') as int + (t[1] - '0') as int
  {
  }

  /** Half byte at a position among the digits. */
  function Nibble(buf: seq<Byte>, pos: nat): (n: nat)
    requires 1 + pos / 2 < |buf|
    ensures n < 16
  {
    var b := buf[1 + pos / 2];
    if pos % 2 == 1 then b % 16 else b / 16
  }

  /** The text of the first `n` digits, with the decimal point before digit `point`. */
  function Prefix(buf: seq<Byte>, point: nat, n: nat): string
    requires n <= 2 * (|buf| - 1)
  {
    if n == 0 then ""
    else Prefix(buf, point, n - 1) + (if n - 1 == point then "." else "") + IntText(Nibble(buf, n - 1))
  }

  /** The low half of the last byte has the sign, after a digit. */
  predicate SignLow(last: Byte) { last % 16 >= 0xC }

  predicate SignHigh(last: Byte) { last / 16 >= 0xC }

  predicate Negative(nibble: nat) { nibble == 0xD || nibble == 0xF }

  function TotalDigits(buf: seq<Byte>): nat
    requires |buf| >= 2
  {
    2 * (|buf| - 2) + if SignLow(buf[|buf| - 1]) then 1 else 0
  }

  predicate Decodable(buf: seq<Byte>) {
    && |buf| >= 2
    && (SignLow(buf[|buf| - 1]) || SignHigh(buf[|buf| - 1]))
    && buf[0] < TotalDigits(buf)
  }

  /** The text of a decodable buffer. The point is never put before a digit in the last byte. */
  function TextOf(buf: seq<Byte>): string
    requires Decodable(buf)
  {
    var last := buf[|buf| - 1];
    var neg := if SignLow(last) then Negative(last % 16) else Negative(last / 16);
    (if neg then "-" else "")
    + Prefix(buf, TotalDigits(buf) - buf[0], 2 * (|buf| - 2))
    + (if SignLow(last) then IntText(last / 16) else "")
  }

  method DecimalToString(buf: seq<Byte>) returns (r: Decoded)
    ensures r == if Decodable(buf) then Text(TextOf(buf)) else Invalid
  {
    if |buf| < 2 {
      return Invalid;
    }
    var scale, sign := buf[0], buf[|buf| - 1];
    var last: int := -1;
    var neg := false;
    if sign % 16 >= 0xC {
      last := sign / 16;
      neg := Negative(sign % 16);
    } else if sign / 16 >= 0xC {
      neg := Negative(sign / 16);
    } else {
      return Invalid;
    }
    var total := (|buf| - 2) * 2 + if last + 1 != 0 then 1 else 0;
    if total <= scale {
      return Invalid;
    }
    var digits := Digits(buf, total, scale);
    var out := (if neg then "-" else "") + digits;
    if last + 1 != 0 {
      out := out + IntText(last);
    }
    return Text(out);
  }

  /** The digits in all bytes but the first and the last. */
  method Digits(buf: seq<Byte>, total: nat, scale: nat) returns (out: string)
    requires |buf| >= 2 && scale < total
    ensures out == Prefix(buf, total - scale, 2 * (|buf| - 2))
  {
    hide Prefix, IntText;
    out := "";
    var pos := 0;
    PrefixStep(buf, total - scale, pos);
    for k := 1 to |buf| - 1
      invariant pos == 2 * (k - 1)
      invariant out == Prefix(buf, total - scale, pos)
    {
      var again := true;
      while again
        invariant 2 * (k - 1) <= pos <= 2 * k && (again <==> pos < 2 * k)
        invariant out == Prefix(buf, total - scale, pos)
        decreases 2 * k - pos
      {
        PrefixStep(buf, total - scale, pos);
        if total - scale == pos {
          out := out + ".";
        }
        if pos % 2 != 0 {
          out := out + IntText(buf[k] % 16);
        } else {
          out := out + IntText(buf[k] / 16);
        }
        pos := pos + 1;
        again := pos % 2 != 0;
      }
    }
  }

  lemma PrefixStep(buf: seq<Byte>, point: nat, n: nat)
    requires n < 2 * (|buf| - 1)
    ensures Prefix(buf, point, 0) == ""
    ensures n == point ==> Prefix(buf, point, n + 1) == Prefix(buf, point, n) + "." + IntText(Nibble(buf, n))
    ensures n != point ==> Prefix(buf, point, n + 1) == Prefix(buf, point, n) + IntText(Nibble(buf, n))
  {
  }

  // What a text denotes

  function ToNat(ds: seq<Digit>): nat { if ds == [] then 0 else 10 * ToNat(ds[..|ds| - 1]) + ds[|ds| - 1] }

  function Pow10(n: nat): (p: nat)
    ensures p > 0
  {
    if n == 0 then 1 else 10 * Pow10(n - 1)
  }

  predicate IsDigit(c: char) { '0' <= c <= '9' }

  /** The number written by the digits of a text, without its point. */
  function Mantissa(s: string): nat {
    if s == "" then 0
    else
      var c := s[|s| - 1];
      if IsDigit(c) then 10 * Mantissa(s[..|s| - 1]) + (c - '0') as nat else Mantissa(s[..|s| - 1])
  }

  /** Number of characters after the point, 0 without a point. */
  function Fraction(s: string): nat {
    if s == "" || s[|s| - 1] == '.' || '.' !in s then 0 else 1 + Fraction(s[..|s| - 1])
  }

  /** Digits with at most one point, which is not first and not last. */
  ghost predicate IsNumeral(s: string) {
    && (forall i :: 0 <= i < |s| ==> IsDigit(s[i]) || (s[i] == '.' && 0 < i < |s| - 1))
    && (forall i, j :: 0 <= i < j < |s| ==> !(s[i] == '.' && s[j] == '.'))
  }

  function ValueOf(s: string): real {
    var neg := s != "" && s[0] == '-';
    var m := Mantissa(if neg then s[1..] else s) as real / Pow10(Fraction(if neg then s[1..] else s)) as real;
    if neg then -m else m
  }

  function Number(neg: bool, ds: seq<Digit>, scale: nat): real {
    var m := ToNat(ds) as real / Pow10(scale) as real;
    if neg then -m else m
  }

  // Digits of packed bytes

  lemma {:induction false} PackedNibble(ds: seq<Digit>, pos: nat)
    requires |ds| % 2 == 0 && pos < |ds|
    ensures |Packed(ds)| == |ds| / 2
    ensures ds[pos] == if pos % 2 == 1 then Packed(ds)[pos / 2] % 16 else Packed(ds)[pos / 2] / 16
    decreases |ds|
  {
    hide Packed, Pair;
    var n := |ds| - 2;
    PackedStep(ds);
    PackedLength(ds[..n]);
    PairNibbles(ds[n], ds[n + 1]);
    if pos < n {
      PackedNibble(ds[..n], pos);
      assert pos / 2 < n / 2;
    } else {
      assert pos / 2 == n / 2;
    }
  }

  lemma PackedStep(ds: seq<Digit>)
    requires |ds| >= 2
    ensures Packed(ds) == Packed(ds[..|ds| - 2]) + [Pair(ds[|ds| - 2], ds[|ds| - 1])]
  {
    hide Pair;
  }

  lemma PairNibbles(high: nat, low: nat)
    requires high < 16 && low < 16
    ensures Pair(high, low) / 16 == high && Pair(high, low) % 16 == low
  {
  }

  lemma {:induction false} PackedLength(ds: seq<Digit>)
    requires |ds| % 2 == 0
    ensures |Packed(ds)| == |ds| / 2
    decreases |ds|
  {
    hide Pair;
    if ds != [] {
      PackedLength(ds[..|ds| - 2]);
    }
  }

  /** Digits that fill whole bytes. */
  function Whole(ds: seq<Digit>): seq<Digit> { if |ds| % 2 == 0 then ds else ds[..|ds| - 1] }

  lemma EncodeShape(neg: bool, ds: seq<Digit>, scale: Byte)
    ensures
      var buf := Encode(neg, ds, scale);
      && |buf| == |Whole(ds)| / 2 + 2 && buf[0] == scale
      && (SignLow(buf[|buf| - 1]) <==> |ds| % 2 == 1)
      && (SignLow(buf[|buf| - 1]) ==> buf[|buf| - 1] / 16 == ds[|ds| - 1] && buf[|buf| - 1] % 16 == SignNibble(neg))
      && (!SignLow(buf[|buf| - 1]) ==> buf[|buf| - 1] / 16 == SignNibble(neg))
      && TotalDigits(buf) == |ds|
  {
    hide Packed;
    PackedLength(Whole(ds));
  }

  lemma EncodeNibble(neg: bool, ds: seq<Digit>, scale: Byte, pos: nat)
    requires pos < |Whole(ds)|
    ensures 1 + pos / 2 < |Encode(neg, ds, scale)| && Nibble(Encode(neg, ds, scale), pos) == ds[pos]
  {
    hide Packed;
    PackedNibble(Whole(ds), pos);
    assert Encode(neg, ds, scale)[1 + pos / 2] == Packed(Whole(ds))[pos / 2];
  }

  lemma Empty()
    ensures Mantissa("") == 0 && Fraction("") == 0 && IsNumeral("") && '.' !in ""
  {
  }

  lemma Snoc(s: string, d: Digit)
    requires IsNumeral(s)
    ensures
      var t := s + IntText(d);
      && Mantissa(t) == 10 * Mantissa(s) + d
      && Fraction(t) == (if '.' in s then 1 + Fraction(s) else 0)
      && ('.' in t <==> '.' in s) && IsNumeral(t) && t != ""
  {
    var t := s + IntText(d);
    assert t[..|s|] == s && t[|s|] == '0' + d as char;
    assert forall i :: 0 <= i < |s| ==> t[i] == s[i];
  }

  lemma SnocPoint(s: string, d: Digit)
    requires IsNumeral(s) && '.' !in s && s != ""
    ensures
      var t := s + "." + IntText(d);
      && Mantissa(t) == 10 * Mantissa(s) + d && Fraction(t) == 1 && '.' in t && IsNumeral(t) && t != ""
  {
    var t := s + "." + IntText(d);
    assert t[..|s| + 1] == s + "." && t[|s|] == '.' && t[|s| + 1] == '0' + d as char;
    assert (s + ".")[..|s|] == s;
    assert forall i :: 0 <= i < |s| ==> t[i] == s[i];
  }

  /** What the first `n` digits of a packed value are shown as. */
  lemma {:induction false} PrefixReads(neg: bool, ds: seq<Digit>, scale: Byte, point: nat, n: nat)
    requires 0 < point && n <= |Whole(ds)|
    ensures
      var buf := Encode(neg, ds, scale);
      && n <= 2 * (|buf| - 1)
      && var s := Prefix(buf, point, n);
         && Mantissa(s) == ToNat(ds[..n])
         && Fraction(s) == (if point < n then n - point else 0)
         && ('.' in s <==> point < n)
         && IsNumeral(s) && (n > 0 ==> s != "")
    decreases n
  {
    hide Encode, Mantissa, Fraction, Nibble, IsNumeral, IntText;
    EncodeShape(neg, ds, scale);
    if n == 0 {
      Empty();
    } else {
      PrefixReads(neg, ds, scale, point, n - 1);
      EncodeNibble(neg, ds, scale, n - 1);
      var p := Prefix(Encode(neg, ds, scale), point, n - 1);
      assert ds[..n][..n - 1] == ds[..n - 1];
      if n - 1 == point {
        SnocPoint(p, ds[n - 1]);
      } else {
        assert p + "" == p;
        Snoc(p, ds[n - 1]);
      }
    }
  }

  ghost predicate Denotes(body: string, ds: seq<Digit>, fraction: nat) {
    body != "" && body[0] != '-' && IsNumeral(body) && Mantissa(body) == ToNat(ds) && Fraction(body) == fraction
  }

  /** The digits are always right; the point is missing if it would stand before a last digit that
      shares its byte with the sign. */
  lemma DecodedText(neg: bool, ds: seq<Digit>, scale: Byte) returns (body: string)
    requires scale < |ds|
    ensures Decodable(Encode(neg, ds, scale))
    ensures TextOf(Encode(neg, ds, scale)) == (if neg then "-" else "") + body
    ensures Denotes(body, ds, if |ds| % 2 == 1 && scale == 1 then 0 else scale)
  {
    hide Encode, Mantissa, Fraction, Prefix, IntText, ToNat;
    EncodeShape(neg, ds, scale);
    var buf, n, point := Encode(neg, ds, scale), |Whole(ds)|, |ds| - scale;
    PrefixReads(neg, ds, scale, point, n);
    var p := Prefix(buf, point, n);
    if |ds| % 2 == 0 {
      body := p;
      assert p + "" == p && ds[..n] == ds;
    } else {
      var d := ds[|ds| - 1];
      Snoc(p, d);
      body := p + IntText(d);
      LastDigit(ds);
    }
  }

  lemma LastDigit(ds: seq<Digit>)
    requires ds != []
    ensures ToNat(ds) == 10 * ToNat(ds[..|ds| - 1]) + ds[|ds| - 1]
  {
  }

  lemma {:induction false} ZeroDigits(ds: seq<Digit>)
    ensures ToNat(ds) == 0 <==> forall i :: 0 <= i < |ds| ==> ds[i] == 0
    decreases |ds|
  {
    if ds != [] {
      ZeroDigits(ds[..|ds| - 1]);
    }
  }

  /** The text denotes the packed number if and only if it is not the case that an odd number of
      digits, not all 0, has scale 1; in that case it denotes ten times the number. */
  lemma DecodesExactly(neg: bool, ds: seq<Digit>, scale: Byte)
    requires scale < |ds|
    ensures Decodable(Encode(neg, ds, scale))
    ensures
      ValueOf(TextOf(Encode(neg, ds, scale))) == Number(neg, ds, scale)
      <==> !(|ds| % 2 == 1 && scale == 1) || forall i :: 0 <= i < |ds| ==> ds[i] == 0
    ensures |ds| % 2 == 1 && scale == 1 ==>
      ValueOf(TextOf(Encode(neg, ds, scale))) == 10.0 * Number(neg, ds, scale)
  {
    hide Encode, Mantissa, Fraction, TextOf, ToNat, IsNumeral;
    var body := DecodedText(neg, ds, scale);
    var text := TextOf(Encode(neg, ds, scale));
    assert neg ==> text[0] == '-' && text[1..] == body;
    assert !neg ==> text == body;
    ZeroDigits(ds);
    assert Pow10(0) == 1 && Pow10(1) == 10;
  }

  /** A scale that leaves no digit before the point is refused. */
  lemma ScaleTooLarge(neg: bool, ds: seq<Digit>, scale: Byte)
    requires scale >= |ds|
    ensures !Decodable(Encode(neg, ds, scale))
  {
    EncodeShape(neg, ds, scale);
  }
}
