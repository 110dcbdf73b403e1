/** Bytes read as UTF-8 text, and numbers read from text, as Rust's standard library does. */
module Utf8 {
  import opened Basics
  import opened Text

  type byte = x: int | 0 <= x < 256

  predicate Continuation(x: byte) { 0x80 <= x < 0xC0 }

  predicate Scalar(code: int) { 0 <= code < 0xD800 || 0xE000 <= code < 0x11_0000 }

  /** The number that the first `n` bytes of a character encode; the lead byte carries its width. */
  function Code(b: seq<byte>, n: nat): int
    requires 1 <= n <= 4 && n <= |b|
  {
    var b0: int := b[0];
    if n == 1 then b0
    else
      var b1: int := b[1];
      if n == 2 then (b0 - 0xC0) * 0x40 + (b1 - 0x80)
      else
        var b2: int := b[2];
        if n == 3 then (b0 - 0xE0) * 0x1000 + (b1 - 0x80) * 0x40 + (b2 - 0x80)
        else
          var b3: int := b[3];
          (b0 - 0xF0) * 0x4_0000 + (b1 - 0x80) * 0x1000 + (b2 - 0x80) * 0x40 + (b3 - 0x80)
  }

  function Width(lead: byte): (n: nat)
    ensures n <= 4
  {
    if lead < 0x80 then 1
    else if 0xC0 <= lead < 0xE0 then 2
    else if 0xE0 <= lead < 0xF0 then 3
    else if 0xF0 <= lead < 0xF8 then 4
    else 0
  }

  /** The least number that needs `n` bytes. */
  function Least(n: nat): int {
    if n <= 1 then 0 else if n == 2 then 0x80 else if n == 3 then 0x800 else 0x1_0000
  }

  /** The first character of `b` and its width: the shortest encoding of a Unicode scalar value. */
  function FirstChar(b: seq<byte>): (r: Option<(char, nat)>)
    ensures r.Some? ==> 0 < r.value.1 <= |b|
  {
    if |b| == 0 then None
    else
      var n := Width(b[0]);
      if n == 0 || n > |b| || exists i | 0 < i < n :: !Continuation(b[i]) then None
      else
        var code := Code(b, n);
        if Least(n) <= code && Scalar(code) then Some((code as char, n)) else None
  }

  /** `std::str::from_utf8` */
  function FromUtf8(b: seq<byte>): Option<string> {
    if b == [] then Some("")
    else match FirstChar(b)
      case None => None
      case Some((c, n)) =>
        match FromUtf8(b[n..])
        case None => None
        case Some(t) => Some([c] + t)
  }

  lemma {:induction false} FirstCharConcat(a: seq<byte>, b: seq<byte>)
    requires FirstChar(a).Some?
    ensures FirstChar(a + b) == FirstChar(a)
  {
    var n := FirstChar(a).value.1;
    assert forall i | 0 <= i < n :: (a + b)[i] == a[i];
    assert Code(a + b, n) == Code(a, n);
    hide Code;
  }

  lemma {:induction false} Utf8Concat(a: seq<byte>, b: seq<byte>)
    requires FromUtf8(a).Some?
    ensures FromUtf8(a + b) == if FromUtf8(b).Some? then Some(FromUtf8(a).value + FromUtf8(b).value) else None
    decreases |a|
  {
    hide FirstChar;
    if a == [] {
      assert a + b == b;
      assert FromUtf8(b).Some? ==> "" + FromUtf8(b).value == FromUtf8(b).value;
    } else {
      FirstCharConcat(a, b);
      var c, n := FirstChar(a).value.0, FirstChar(a).value.1;
      Utf8Concat(a[n..], b);
      assert (a + b)[n..] == a[n..] + b;
      assert FromUtf8(a) == Some([c] + FromUtf8(a[n..]).value);
      if FromUtf8(b).Some? {
        Assoc([c], FromUtf8(a[n..]).value, FromUtf8(b).value);
      }
    }
  }

  // ---------------------------------------------------------------- encoding

  /** The UTF-8 bytes of a character, as section 3 of RFC 3629 lays them out. */
  function Utf8Char(c: char): (b: seq<byte>)
    ensures 1 <= |b| <= 4
  {
    var n := c as int;
    if n < 0x80 then [n]
    else if n < 0x800 then [0xC0 + n / 0x40, 0x80 + n % 0x40]
    else if n < 0x1_0000 then [0xE0 + n / 0x1000, 0x80 + n / 0x40 % 0x40, 0x80 + n % 0x40]
    else [0xF0 + n / 0x4_0000, 0x80 + n / 0x1000 % 0x40, 0x80 + n / 0x40 % 0x40, 0x80 + n % 0x40]
  }

  function ToUtf8(t: string): seq<byte> {
    if t == "" then [] else Utf8Char(t[0]) + ToUtf8(t[1..])
  }

  lemma {:induction false} SixBits(n: int)
    requires n >= 0
    ensures 0 <= n % 0x40 < 0x40 && n == n / 0x40 * 0x40 + n % 0x40
    ensures n / 0x40 / 0x40 == n / 0x1000 && n / 0x1000 / 0x40 == n / 0x4_0000
  {
  }

  /** A number in base 64. */
  lemma {:induction false} Base64(n: int)
    requires n >= 0
    ensures n == n / 0x1000 * 0x1000 + n / 0x40 % 0x40 * 0x40 + n % 0x40
    ensures n == n / 0x4_0000 * 0x4_0000 + n / 0x1000 % 0x40 * 0x1000 + n / 0x40 % 0x40 * 0x40 + n % 0x40
    ensures 0 <= n % 0x40 < 0x40 && 0 <= n / 0x40 % 0x40 < 0x40 && 0 <= n / 0x1000 % 0x40 < 0x40
  {
    SixBits(n);
    SixBits(n / 0x40);
    SixBits(n / 0x1000);
  }

  /** The digits of a number in base 64 are the ones it is written with. */
  lemma {:induction false} Base64Is(n: int, q: int, x: int, y: int, z: int)
    requires q >= 0 && 0 <= x < 0x40 && 0 <= y < 0x40 && 0 <= z < 0x40
    requires n == q * 0x4_0000 + x * 0x1000 + y * 0x40 + z
    ensures n % 0x40 == z && n / 0x40 % 0x40 == y && n / 0x1000 % 0x40 == x && n / 0x4_0000 == q
    ensures n / 0x40 == (q * 0x40 + x) * 0x40 + y && n / 0x1000 == q * 0x40 + x
  {
    assert n == ((q * 0x40 + x) * 0x40 + y) * 0x40 + z;
    LowDigit(n, (q * 0x40 + x) * 0x40 + y, z);
    LowDigit(n / 0x40, q * 0x40 + x, y);
    SixBits(n);
    LowDigit(n / 0x1000, q, x);
  }

  lemma {:induction false} LowDigit(n: int, q: int, z: int)
    requires 0 <= z < 0x40 && n == q * 0x40 + z
    ensures n / 0x40 == q && n % 0x40 == z
  {
  }

  /** The bytes of a character that a lead byte and continuations spell out. */
  lemma {:induction false} Decodes(b: seq<byte>, n: nat)
    requires 1 <= n <= 4 && |b| == n == Width(b[0]) && (forall i | 0 < i < n :: Continuation(b[i]))
    requires Least(n) <= Code(b, n) && Scalar(Code(b, n))
    ensures FirstChar(b) == Some((Code(b, n) as char, n))
  {
    hide Code, Width;
  }

  lemma {:induction false} CharDecodes(c: char)
    ensures FirstChar(Utf8Char(c)) == Some((c, |Utf8Char(c)|))
  {
    hide FirstChar;
    var n := c as int;
    var b := Utf8Char(c);
    Base64(n);
    SixBits(n);
    Decodes(b, |b|);
  }

  /** Only the encoding of a character decodes to it. */
  lemma {:induction false} CharIsUnique(b: seq<byte>)
    requires FirstChar(b).Some?
    ensures var (c, n) := FirstChar(b).value; b[..n] == Utf8Char(c)
  {
    var n := FirstChar(b).value.1;
    assert forall i | 0 < i < n :: Continuation(b[i]);
    var code := Code(b, n);
    assert n == Width(b[0]) && Least(n) <= code && Scalar(code) && FirstChar(b).value.0 == code as char;
    hide FirstChar;
    if n == 1 {
      assert b[..1] == [b[0]];
    } else if n == 2 {
      TwoBytes(b);
    } else if n == 3 {
      ThreeBytes(b);
    } else {
      FourBytes(b);
    }
  }

  lemma {:induction false} TwoBytes(b: seq<byte>)
    requires |b| >= 2 && Width(b[0]) == 2 && Continuation(b[1]) && 0x80 <= Code(b, 2)
    ensures Code(b, 2) < 0x800 && b[..2] == Utf8Char(Code(b, 2) as char)
  {
    LowDigit(Code(b, 2), b[0] - 0xC0, b[1] - 0x80);
    assert b[..2] == [b[0], b[1]];
  }

  lemma {:induction false} ThreeBytes(b: seq<byte>)
    requires |b| >= 3 && Width(b[0]) == 3 && Continuation(b[1]) && Continuation(b[2])
    requires 0x800 <= Code(b, 3) && Scalar(Code(b, 3))
    ensures b[..3] == Utf8Char(Code(b, 3) as char)
  {
    var n := Code(b, 3);
    var lead := b[0] - 0xE0;
    Base64Is(n, 0, lead, b[1] - 0x80, b[2] - 0x80);
    assert n < 0x1_0000 && n / 0x1000 == lead;
    assert b[..3] == [b[0], b[1], b[2]];
    hide Code;
  }

  lemma {:induction false} FourBytes(b: seq<byte>)
    requires |b| >= 4 && Width(b[0]) == 4 && Continuation(b[1]) && Continuation(b[2]) && Continuation(b[3])
    requires 0x1_0000 <= Code(b, 4) && Scalar(Code(b, 4))
    ensures b[..4] == Utf8Char(Code(b, 4) as char)
  {
    var n := Code(b, 4);
    Base64Is(n, b[0] - 0xF0, b[1] - 0x80, b[2] - 0x80, b[3] - 0x80);
    assert b[..4] == [b[0], b[1], b[2], b[3]];
    hide Code;
  }

  /** Reading is exactly the inverse of encoding. */
  lemma {:induction false} Utf8RoundTrip(b: seq<byte>, t: string)
    ensures FromUtf8(b) == Some(t) <==> b == ToUtf8(t)
  {
    DecodesBack(t);
    if FromUtf8(b) == Some(t) { EncodesBack(b); }
  }

  lemma {:induction false} DecodesBack(t: string)
    ensures FromUtf8(ToUtf8(t)) == Some(t)
  {
    hide FirstChar, Utf8Char;
    if t != "" {
      DecodesBack(t[1..]);
      CharDecodes(t[0]);
      var e, rest := Utf8Char(t[0]), ToUtf8(t[1..]);
      FirstCharConcat(e, rest);
      assert (e + rest)[|e|..] == rest;
      assert t == [t[0]] + t[1..];
    }
  }

  lemma {:induction false} EncodesBack(b: seq<byte>)
    requires FromUtf8(b).Some?
    ensures ToUtf8(FromUtf8(b).value) == b
    decreases |b|
  {
    hide FirstChar, Utf8Char;
    if b != [] {
      var c, n := FirstChar(b).value.0, FirstChar(b).value.1;
      CharIsUnique(b);
      EncodesBack(b[n..]);
      var rest := FromUtf8(b[n..]).value;
      assert FromUtf8(b) == Some([c] + rest) && ([c] + rest)[1..] == rest;
      assert b == b[..n] + b[n..];
    }
  }

  // ---------------------------------------------------------------- ASCII

  predicate IsAscii(t: string) {
    forall i | 0 <= i < |t| :: t[i] as int < 0x80
  }

  function Ascii(t: string): (b: seq<byte>)
    requires IsAscii(t)
    ensures |b| == |t| && forall i | 0 <= i < |t| :: b[i] == t[i] as int
  {
    seq(|t|, i requires 0 <= i < |t| => t[i] as int)
  }

  lemma {:induction false} AsciiText(t: string)
    requires IsAscii(t)
    ensures FromUtf8(Ascii(t)) == Some(t)
  {
    if t != "" {
      AsciiText(t[1..]);
      assert Ascii(t)[1..] == Ascii(t[1..]);
      assert FirstChar(Ascii(t)) == Some((t[0], 1));
      assert [t[0]] + t[1..] == t;
    }
  }

  // ---------------------------------------------------------------- numbers

  const USIZE_MAX := 0xFFFF_FFFF_FFFF_FFFF

  function DigitValue(c: char, radix: nat): (r: Option<nat>)
    ensures r.Some? ==> r.value < radix
  {
    var v :=
      if '0' <= c <= '9' then c as int - '0' as int
      else if 'a' <= c <= 'f' then c as int - 'a' as int + 10
      else if 'A' <= c <= 'F' then c as int - 'A' as int + 10
      else radix;
    if v < radix then Some(v) else None
  }

  function Digits(t: string, radix: nat): Option<nat> {
    if t == "" then Some(0)
    else match Digits(t[..|t| - 1], radix)
      case None => None
      case Some(v) =>
        match DigitValue(t[|t| - 1], radix)
        case None => None
        case Some(d) => Some(v * radix + d)
  }

  /** `from_str_radix`: an optional plus sign, then at least one digit, up to the type's maximum. */
  function ParseUint(t: string, radix: nat, max: nat): Option<nat> {
    var digits := if "+" <= t then t[1..] else t;
    if digits == "" then None
    else match Digits(digits, radix)
      case Some(v) => if v <= max then Some(v) else None
      case None => None
  }

  function ParseUsize(t: string, radix: nat): Option<nat> { ParseUint(t, radix, USIZE_MAX) }

  function DigitChar(d: nat): (c: char)
    requires d < 16
    ensures c as int < 0x80 && !IsSpace(c) && c != ';' && c != '+' && DigitValue(c, 16) == Some(d)
  {
    if d < 10 then (d + '0' as int) as char else (d - 10 + 'a' as int) as char
  }

  lemma {:induction false} DivMod(n: nat, radix: nat)
    requires radix == 10 || radix == 16
    ensures n / radix * radix + n % radix == n && 0 <= n % radix < radix && (n >= radix ==> 0 <= n / radix < n)
  {
  }

  /** A number in decimal or hexadecimal, without leading zeros. */
  function Numeral(n: nat, radix: nat): string
    requires radix == 10 || radix == 16
  {
    DivMod(n, radix);
    if n < radix then [DigitChar(n)] else Numeral(n / radix, radix) + [DigitChar(n % radix)]
  }

  lemma {:induction false} NumeralDigits(n: nat, radix: nat)
    requires radix == 10 || radix == 16
    ensures Digits(Numeral(n, radix), radix) == Some(n)
    ensures var t := Numeral(n, radix);
      t != "" && IsAscii(t) && forall i | 0 <= i < |t| :: !IsSpace(t[i]) && t[i] != ';' && t[i] != '+'
  {
    hide DigitChar, DigitValue, IsSpace, Digits;
    DivMod(n, radix);
    if n < radix {
      DigitOf(n, radix);
      NoDigits(radix);
      DigitsSnoc("", DigitChar(n), radix);
      assert "" + [DigitChar(n)] == Numeral(n, radix);
    } else {
      DigitOf(n % radix, radix);
      NumeralDigits(n / radix, radix);
      DigitsSnoc(Numeral(n / radix, radix), DigitChar(n % radix), radix);
    }
  }

  lemma {:induction false} NoDigits(radix: nat)
    ensures Digits("", radix) == Some(0)
  {
  }

  lemma {:induction false} DigitsSnoc(t: string, c: char, radix: nat)
    requires Digits(t, radix).Some? && DigitValue(c, radix).Some?
    ensures Digits(t + [c], radix) == Some(Digits(t, radix).value * radix + DigitValue(c, radix).value)
  {
    hide DigitValue;
    assert (t + [c])[..|t|] == t;
  }

  lemma {:induction false} DigitOf(d: nat, radix: nat)
    requires (radix == 10 || radix == 16) && d < radix
    ensures DigitValue(DigitChar(d), radix) == Some(d)
  {
  }

  /** Printing a number and reading it back. */
  lemma {:induction false} NumeralRoundTrip(n: nat, radix: nat, max: nat)
    requires radix == 10 || radix == 16
    ensures ParseUint(Numeral(n, radix), radix, max) == if n <= max then Some(n) else None
  {
    NumeralDigits(n, radix);
    assert Numeral(n, radix)[0] != '+';
  }
}
