/**
 * Java integer arithmetic as the converter uses it. A Java `byte` is held as its
 * unsigned value 0..255 and a Java `short` as its unsigned value 0..65535; the
 * signed views are used exactly where the source compares such a value.
 */
module Bytes {
  import opened Wrappers

  predicate IsByte(x: int) { 0 <= x < 256 }

  predicate AllBytes(s: seq<int>) { forall i :: 0 <= i < |s| ==> IsByte(s[i]) }

  lemma AllBytesAppend(a: seq<int>, b: seq<int>)
    requires AllBytes(a) && AllBytes(b)
    ensures AllBytes(a + b)
  {
  }

  /** Java's `(byte) v`, read back unsigned: keeps the low 8 bits of `v`. */
  function ToByte(v: int): (r: int)
    ensures IsByte(r)
    ensures IsByte(v) ==> r == v
  {
    v % 256
  }

  /** Java's `(short) v`, read back unsigned: keeps the low 16 bits of `v`. */
  function ToShort(v: int): (r: int)
    ensures 0 <= r < 65536
    ensures 0 <= v < 65536 ==> r == v
  {
    v % 65536
  }

  /** Adding to a byte and casting again is adding and casting once. */
  lemma ByteAdd(a: int, b: int)
    ensures ToByte(ToByte(a) + b) == ToByte(a + b)
  {
  }

  /** Adding to a short and casting again is adding and casting once, whether or not the addend was cast. */
  lemma ShortAdd(a: int, b: int)
    ensures ToShort(ToShort(a) + ToShort(b)) == ToShort(a + b)
    ensures ToShort(ToShort(a) + b) == ToShort(a + b)
  {
  }

  /** The signed value Java sees in a byte variable holding `b`. */
  function SignedByte(b: int): (r: int)
    requires IsByte(b)
    ensures -128 <= r < 128
    ensures ToByte(r) == b
  {
    if b < 128 then b else b - 256
  }

  /** The signed value Java sees in a short variable holding `s`. */
  function SignedShort(s: int): (r: int)
    requires 0 <= s < 65536
    ensures -32768 <= r < 32768
    ensures ToShort(r) == s
  {
    if s < 32768 then s else s - 65536
  }

  /** `(byte)(v >> 8)` and `(byte)(v & 0xFF)`: the two bytes of a 16-bit value, high first. */
  function BigEndian16(v: int): (r: seq<int>)
    ensures |r| == 2 && AllBytes(r)
    ensures r[0] * 256 + r[1] == ToShort(v)
  {
    [(v / 256) % 256, v % 256]
  }

  /** `(byte)(token | 0x80)`, read back unsigned: an imported package's token with its high bit set. */
  function ExternalPackage(token: int): (r: int)
    ensures IsByte(r) && r >= 128
    ensures r % 128 == token % 128
  {
    token % 128 + 128
  }

  /** The four bytes of a 32-bit value, most significant first. */
  function BigEndian32(v: int): (r: seq<int>)
    ensures |r| == 4 && AllBytes(r)
    ensures (r[0] * 256 + r[1]) * 0x1_0000 + r[2] * 256 + r[3] == v % 0x1_0000_0000
  {
    SplitWord(v);
    BigEndian16(v / 0x1_0000) + BigEndian16(v)
  }

  lemma SplitWord(v: int)
    ensures v % 0x1_0000_0000 == ToShort(v / 0x1_0000) * 0x1_0000 + ToShort(v)
  {
    var q, r := v / 0x1_0000, v % 0x1_0000;
    assert v == q * 0x1_0000 + r;
    var q2, r2 := q / 0x1_0000, q % 0x1_0000;
    assert q == q2 * 0x1_0000 + r2;
    assert v == q2 * 0x1_0000_0000 + (r2 * 0x1_0000 + r);
    assert 0 <= r2 * 0x1_0000 + r < 0x1_0000_0000;
  }

  /** Java's `Integer.parseInt`: an optional sign, then one or more decimal digits, within 32-bit range. */
  function ParseInt(s: string): (r: Result<int>)
    ensures r.Ok? ==> -0x8000_0000 <= r.value < 0x8000_0000
    ensures r.Ok? ==> |s| > 0
  {
    if |s| == 0 then Err("NumberFormatException")
    else
      var negative := s[0] == '-';
      var digits := if s[0] == '-' || s[0] == '+' then s[1..] else s;
      match DigitsValue(digits)
      case None => Err("NumberFormatException")
      case Some(magnitude) =>
        var m: int := magnitude;
        var v: int := if negative then -m else m;
        if v < -0x8000_0000 || v >= 0x8000_0000 then Err("NumberFormatException") else Ok(v)
  }

  predicate IsDigit(c: char) { '0' <= c <= '9' }

  /** The value of one or more decimal digits, most significant first; None when empty or not all digits. */
  function DigitsValue(s: string): (r: Option<nat>)
  {
    if |s| == 0 || !IsDigit(s[|s| - 1]) then None
    else if |s| == 1 then Some((s[0] - '0') as int)
    else
      match DigitsValue(s[..|s| - 1])
      case None => None
      case Some(v) => Some(v * 10 + (s[|s| - 1] - '0') as int)
  }

  /** The decimal text of a natural number, as Java prints it. */
  function Decimal(n: nat): (r: string)
    ensures |r| > 0 && IsDigit(r[0])
    decreases n
  {
    if n < 10 then [DigitChar(n)] else Decimal(n / 10) + [DigitChar(n % 10)]
  }

  function DigitChar(d: nat): (c: char)
    requires d < 10
    ensures IsDigit(c) && (c - '0') as int == d
  {
    ('0' as int + d) as char
  }

  /** The decimal text of an integer: Java's `String.valueOf` on a byte, short or int. */
  function SignedDecimal(n: int): (r: string)
    ensures |r| > 0
  {
    if n < 0 then "-" + Decimal(-n) else Decimal(n)
  }

  lemma {:induction false} DecimalValue(n: nat)
    ensures DigitsValue(Decimal(n)) == Some(n)
    decreases n
  {
    if n >= 10 {
      var d := Decimal(n);
      assert d[..|d| - 1] == Decimal(n / 10);
      DecimalValue(n / 10);
    }
  }

  /** Printing an int and parsing it back gives the same int. */
  lemma ParseIntOfDecimal(n: int)
    requires -0x8000_0000 <= n < 0x8000_0000
    ensures ParseInt(SignedDecimal(n)) == Ok(n)
  {
    var s := SignedDecimal(n);
    if n < 0 {
      DecimalValue(-n);
      assert s[0] == '-' && s[1..] == Decimal(-n);
    } else {
      DecimalValue(n);
      assert IsDigit(s[0]);
      assert s[0] != '-' && s[0] != '+';
    }
  }

  /** One upper-case hexadecimal digit. */
  function HexDigit(n: int): (c: char)
    requires 0 <= n < 16
  {
    if n < 10 then ('0' as int + n) as char else ('A' as int + n - 10) as char
  }

  /** The digit value of an upper-case hexadecimal character. */
  function HexValue(c: char): (r: int)
    ensures 0 <= r < 16
  {
    if '0' <= c <= '9' then (c - '0') as int
    else if 'A' <= c <= 'F' then (c - 'A') as int + 10
    else 0
  }

  lemma HexDigitValue(n: int)
    requires 0 <= n < 16
    ensures HexValue(HexDigit(n)) == n
  {
  }

  /** Java's `String.format("%02X", b)` of a byte. */
  function Hex2(b: int): (r: string)
    requires IsByte(b)
    ensures |r| == 2
  {
    [HexDigit(b / 16), HexDigit(b % 16)]
  }

  /** The two digits read back as the byte. */
  lemma Hex2Value(b: int)
    requires IsByte(b)
    ensures HexValue(Hex2(b)[0]) * 16 + HexValue(Hex2(b)[1]) == b
  {
    HexDigitValue(b / 16);
    HexDigitValue(b % 16);
  }

  /** Java's `String.format("%04X", v)` of a value below 0x10000. */
  function Hex4(v: int): (r: string)
    requires 0 <= v < 0x1_0000
    ensures |r| == 4
  {
    Hex2(v / 256) + Hex2(v % 256)
  }

  /** The four digits read back as the value. */
  lemma Hex4Value(v: int)
    requires 0 <= v < 0x1_0000
    ensures var r := Hex4(v);
            HexValue(r[0]) * 0x1000 + HexValue(r[1]) * 0x100 + HexValue(r[2]) * 0x10 + HexValue(r[3]) == v
  {
    Hex2Value(v / 256);
    Hex2Value(v % 256);
    assert Hex4(v)[0] == Hex2(v / 256)[0] && Hex4(v)[1] == Hex2(v / 256)[1];
    assert Hex4(v)[2] == Hex2(v % 256)[0] && Hex4(v)[3] == Hex2(v % 256)[1];
  }
}
