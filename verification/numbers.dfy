/** The machine integer types the loader parses into, and Rust's `str::parse`
    (the `FromStr` implementations) for them, for `bool` and for `f64`. */
module Numbers {
  import opened Wrappers

  const U8_LIMIT: nat := 0x100
  const U16_LIMIT: nat := 0x1_0000
  const U32_LIMIT: nat := 0x1_0000_0000
  const USIZE_LIMIT: nat := 0x1_0000_0000_0000_0000
  /** `isize::MAX` on a 64-bit target: the largest capacity a `Vec<u8>` may ask for. */
  const ISIZE_MAX: nat := 0x7FFF_FFFF_FFFF_FFFF
  const I64_MIN: int := -0x8000_0000_0000_0000
  const I64_MAX: int := 0x7FFF_FFFF_FFFF_FFFF

  type u8 = x: int | 0 <= x < 0x100
  type u16 = x: int | 0 <= x < 0x1_0000
  type u32 = x: int | 0 <= x < 0x1_0000_0000
  /** `usize` on a 64-bit target. */
  type usize = x: int | 0 <= x < 0x1_0000_0000_0000_0000
  type i64 = x: int | -0x8000_0000_0000_0000 <= x <= 0x7FFF_FFFF_FFFF_FFFF

  predicate IsDigit(c: char) { '0' <= c <= '9' }

  predicate AllDigits(s: string) { forall i :: 0 <= i < |s| ==> IsDigit(s[i]) }

  function DigitValue(c: char): nat
    requires IsDigit(c)
  {
    (c as int) - ('0' as int)
  }

  function DigitChar(d: nat): (c: char)
    requires d < 10
    ensures IsDigit(c) && DigitValue(c) == d
  {
    ('0' as int + d) as char
  }

  /** The value of a run of decimal digits, most significant first. */
  function DigitsValue(s: string): nat
    requires AllDigits(s)
  {
    if s == [] then 0 else DigitsValue(s[..|s| - 1]) * 10 + DigitValue(s[|s| - 1])
  }

  /** The text after an optional leading `+`. */
  function UnsignedDigits(s: string): (d: string)
    ensures |d| <= |s|
  {
    if |s| > 0 && s[0] == '+' then s[1..] else s
  }

  /** `str::parse` for an unsigned integer type whose values lie below `limit`:
      an optional `+`, then at least one ASCII digit and nothing else; a value
      that does not fit is an overflow error. */
  function ParseUnsigned(s: string, limit: nat): (r: Option<nat>)
    ensures r.Some? <==>
      UnsignedDigits(s) != [] && AllDigits(UnsignedDigits(s)) && DigitsValue(UnsignedDigits(s)) < limit
    ensures r.Some? ==> r.value == DigitsValue(UnsignedDigits(s)) && r.value < limit
  {
    var digits := UnsignedDigits(s);
    if digits == [] || !AllDigits(digits) || DigitsValue(digits) >= limit then None
    else Some(DigitsValue(digits))
  }

  /** `str::parse::<u8>`. */
  function ParseU8(s: string): Option<u8>
  {
    match ParseUnsigned(s, U8_LIMIT)
    case Some(n) => Some(n)
    case None => None
  }

  /** `str::parse::<u16>`. */
  function ParseU16(s: string): Option<u16>
  {
    match ParseUnsigned(s, U16_LIMIT)
    case Some(n) => Some(n)
    case None => None
  }

  /** `str::parse::<u32>`. */
  function ParseU32(s: string): Option<u32>
  {
    match ParseUnsigned(s, U32_LIMIT)
    case Some(n) => Some(n)
    case None => None
  }

  /** `str::parse::<usize>`. */
  function ParseUsize(s: string): Option<usize>
  {
    match ParseUnsigned(s, USIZE_LIMIT)
    case Some(n) => Some(n)
    case None => None
  }

  /** An optional sign followed by at least one ASCII digit, of any size. */
  function ParseSignedDecimal(s: string): (r: Option<int>)
  {
    var digits := if |s| > 0 && (s[0] == '+' || s[0] == '-') then s[1..] else s;
    if digits == [] || !AllDigits(digits) then None
    else
      var magnitude: int := DigitsValue(digits);
      Some(if s[0] == '-' then -magnitude else magnitude)
  }

  /** `str::parse::<i64>`. */
  function ParseI64(s: string): (r: Option<i64>)
    ensures r.Some? <==> ParseSignedDecimal(s).Some? && I64_MIN <= ParseSignedDecimal(s).value <= I64_MAX
    ensures r.Some? ==> r.value == ParseSignedDecimal(s).value
  {
    match ParseSignedDecimal(s)
    case Some(v) => if I64_MIN <= v <= I64_MAX then Some(v) else None
    case None => None
  }

  /** `str::parse::<bool>`: exactly `true` or `false`. */
  function ParseBool(s: string): (r: Option<bool>)
    ensures r.Some? <==> s == "true" || s == "false"
    ensures r.Some? ==> (r.value <==> s == "true")
  {
    if s == "true" then Some(true) else if s == "false" then Some(false) else None
  }

  /** The shortest decimal spelling of a natural number. */
  function NatToDecimal(n: nat): (s: string)
    ensures |s| >= 1 && AllDigits(s)
    ensures DigitsValue(s) == n
  {
    if n < 10 then [DigitChar(n)]
    else
      var init := NatToDecimal(n / 10);
      var s := init + [DigitChar(n % 10)];
      assert s[..|s| - 1] == init;
      s
  }

  function IntToDecimal(i: int): string
  {
    if i < 0 then "-" + NatToDecimal(-i) else NatToDecimal(i)
  }

  /** Every value of an unsigned type reads back from its decimal spelling. */
  lemma ParseUnsignedRoundTrip(n: nat, limit: nat)
    requires n < limit
    ensures ParseUnsigned(NatToDecimal(n), limit) == Some(n)
  {
  }

  lemma ParseSignedRoundTrip(i: int)
    ensures ParseSignedDecimal(IntToDecimal(i)) == Some(i)
  {
    if i < 0 {
      assert IntToDecimal(i)[1..] == NatToDecimal(-i);
    }
  }

  /** Every `i64` reads back from its decimal spelling. */
  lemma ParseI64RoundTrip(i: i64)
    ensures ParseI64(IntToDecimal(i)) == Some(i)
  {
    ParseSignedRoundTrip(i);
  }

  /** A minus sign is refused by the unsigned parsers, even on zero. */
  lemma UnsignedRefusesMinus(s: string, limit: nat)
    requires |s| > 0 && s[0] == '-'
    ensures ParseUnsigned(s, limit) == None
  {
    assert !IsDigit(s[0]);
  }

  // ---------------------------------------------------------------- f64

  /** The number an `f64` literal denotes, exactly: `Finite(neg, m, e)` is
      (-1)^neg * m * 10^e. Rounding to the nearest binary double is not modelled. */
  datatype FloatValue = Finite(negative: bool, mantissa: nat, exponent: int) | Infinite(negative: bool) | NaN

  function LowerAscii(c: char): char
  {
    if 'A' <= c <= 'Z' then ((c as int) - ('A' as int) + ('a' as int)) as char else c
  }

  function ToLowerAscii(s: string): (r: string)
    ensures |r| == |s|
    ensures forall i :: 0 <= i < |s| ==> r[i] == LowerAscii(s[i])
  {
    seq(|s|, i requires 0 <= i < |s| => LowerAscii(s[i]))
  }

  predicate IsExponentMark(c: char) { c == 'e' || c == 'E' }

  predicate IsDecimalPoint(c: char) { c == '.' }

  /** `Number ::= (Digit+ | Digit+ '.' Digit* | Digit* '.' Digit+) ('e' Sign? Digit+)?`,
      giving the digits as one mantissa and the exponent shifted by the fraction length. */
  function ParseDecimalNumber(s: string): (r: Option<(nat, int)>)
  {
    var e := FirstIndex(s, IsExponentMark, true);
    var mant := if e.Some? then s[..e.value] else s;
    var exp := if e.Some? then ParseSignedDecimal(s[e.value + 1..]) else Some(0);
    var dot := FirstIndex(mant, IsDecimalPoint, true);
    var intPart := if dot.Some? then mant[..dot.value] else mant;
    var fracPart := if dot.Some? then mant[dot.value + 1..] else "";
    if exp.None? || !AllDigits(intPart) || !AllDigits(fracPart) || |intPart| + |fracPart| == 0 then None
    else
      assert AllDigits(intPart + fracPart);
      Some((DigitsValue(intPart + fracPart), exp.value - |fracPart|))
  }

  /** `str::parse::<f64>`: `Sign? ('inf' | 'infinity' | 'nan' | Number)`, the words
      in any letter case; no surrounding whitespace. */
  function ParseF64(s: string): (r: Option<FloatValue>)
  {
    if s == [] then None
    else if s[0] == '-' || s[0] == '+' then ParseUnsignedF64(s[0] == '-', s[1..])
    else ParseUnsignedF64(false, s)
  }

  /** The part of `ParseF64` after the sign. */
  function ParseUnsignedF64(negative: bool, body: string): (r: Option<FloatValue>)
  {
    var lower := ToLowerAscii(body);
    if lower == "inf" || lower == "infinity" then Some(Infinite(negative))
    else if lower == "nan" then Some(NaN)
    else
      match ParseDecimalNumber(body)
      case Some(me) => Some(Finite(negative, me.0, me.1))
      case None => None
  }

  /** A spelling of each value in the `f64` literal syntax (scientific notation for finite values). */
  function EncodeF64(v: FloatValue): string
  {
    match v
    case Finite(neg, m, e) => if neg then "-" + Scientific(m, e) else Scientific(m, e)
    case Infinite(neg) => if neg then "-inf" else "inf"
    case NaN => "NaN"
  }

  function Scientific(m: nat, e: int): string
  {
    NatToDecimal(m) + "e" + IntToDecimal(e)
  }

  /** The first exponent mark of `digits + "e" + rest` is the one after the digits. */
  lemma ExponentMarkAfterDigits(digits: string, rest: string)
    requires AllDigits(digits)
    ensures FirstIndex(digits + "e" + rest, IsExponentMark, true) == Some(|digits|)
  {
    var s := digits + "e" + rest;
    assert s[|digits|] == 'e';
    assert forall j :: 0 <= j < |digits| ==> s[j] == digits[j];
  }

  lemma {:induction false} NumberRoundTrip(m: nat, e: int)
    ensures ParseDecimalNumber(NatToDecimal(m) + "e" + IntToDecimal(e)) == Some((m, e))
  {
    var d := NatToDecimal(m);
    var s := d + "e" + IntToDecimal(e);
    ExponentMarkAfterDigits(d, IntToDecimal(e));
    assert s[..|d|] == d;
    assert s[|d| + 1..] == IntToDecimal(e);
    ParseSignedRoundTrip(e);
    assert FirstIndex(d, IsDecimalPoint, true) == None;
    assert d + "" == d;
  }

  /** A digit-led body is not one of the words `inf`, `infinity`, `nan`. */
  lemma DigitLedIsNoWord(body: string)
    requires |body| > 0 && IsDigit(body[0])
    ensures var lower := ToLowerAscii(body); lower != "inf" && lower != "infinity" && lower != "nan"
  {
    var lower := ToLowerAscii(body);
    assert lower[0] == body[0];
    assert "inf"[0] == 'i' && "infinity"[0] == 'i' && "nan"[0] == 'n';
  }

  lemma BodyRoundTrip(neg: bool, m: nat, e: int)
    ensures ParseUnsignedF64(neg, Scientific(m, e)) == Some(Finite(neg, m, e))
  {
    NumberRoundTrip(m, e);
    DigitLedIsNoWord(Scientific(m, e));
  }

  lemma FiniteRoundTrip(neg: bool, m: nat, e: int)
    ensures ParseF64(EncodeF64(Finite(neg, m, e))) == Some(Finite(neg, m, e))
  {
    var body := Scientific(m, e);
    BodyRoundTrip(neg, m, e);
    assert IsDigit(body[0]);
    if neg {
      assert ("-" + body)[1..] == body;
    }
  }

  /** Every value reads back from its spelling: the `f64` parser and `EncodeF64` are inverse. */
  lemma {:induction false} ParseF64RoundTrip(v: FloatValue)
    ensures ParseF64(EncodeF64(v)) == Some(v)
  {
    var s := EncodeF64(v);
    match v
    case Finite(neg, m, e) =>
      FiniteRoundTrip(neg, m, e);
    case Infinite(neg) =>
      assert ToLowerAscii("inf") == "inf";
      if neg {
        assert s[1..] == "inf";
      }
    case NaN =>
      assert ToLowerAscii(s) == "nan";
  }
}
