/// The numeral conversions of the C++ library that the assembler relies on:
/// `std::stoi(s, nullptr, base)` for bases 10 and 16, and `std::stoull(s, nullptr, 0)`.
/// Both read an optional sign and then the longest run of digits, ignoring
/// whatever follows; an empty run is `std::invalid_argument` and a value outside
/// the target type is `std::out_of_range`.
module Numerals {
  import opened Common
  import opened Text

  const IntMin: int := -0x8000_0000
  const IntMax: int := 0x7FFF_FFFF
  /// 2^64: one more than the largest `unsigned long long`.
  const ULongLimit: nat := 0x1_0000_0000_0000_0000

  /// Value of `c` as a hexadecimal digit, or -1 when it is none.
  function DigitValue(c: char): (d: int)
    ensures -1 <= d < 16
  {
    if '0' <= c <= '9' then c as int - '0' as int
    else if 'a' <= c <= 'f' then c as int - 'a' as int + 10
    else if 'A' <= c <= 'F' then c as int - 'A' as int + 10
    else -1
  }

  predicate IsDigitIn(c: char, base: nat) {
    0 <= DigitValue(c) < base
  }

  predicate AllDigitsIn(s: string, base: nat) {
    forall i :: 0 <= i < |s| ==> IsDigitIn(s[i], base)
  }

  /// Length of the longest prefix of `s` made of digits of `base`.
  function DigitRun(s: string, base: nat): (n: nat)
    ensures n <= |s| && AllDigitsIn(s[..n], base)
    ensures n < |s| ==> !IsDigitIn(s[n], base)
  {
    if s == [] || !IsDigitIn(s[0], base) then 0
    else
      var n := 1 + DigitRun(s[1..], base);
      assert forall i :: 1 <= i < n ==> s[..n][i] == s[1..][..n - 1][i - 1];
      n
  }

  /// Value of a digit string read most significant digit first.
  function ValueOf(s: string, base: nat): nat
    requires AllDigitsIn(s, base)
  {
    if s == [] then 0 else ValueOf(s[..|s| - 1], base) * base + DigitValue(s[|s| - 1])
  }

  /// Number of sign characters `strtol` accepts in front of the digits.
  function SignLength(s: string): (n: nat)
    ensures n <= |s|
  {
    if |s| > 0 && (s[0] == '-' || s[0] == '+') then 1 else 0
  }

  /// `std::stoi(s, nullptr, base)` on a string without leading whitespace.
  function Stoi(s: string, base: nat): (r: Result<int>)
    requires base == 10 || base == 16
    ensures r.Ok? ==> IntMin <= r.value <= IntMax
    ensures r.Ok? ==> DigitRun(s[SignLength(s)..], base) > 0
  {
    var st := SignLength(s);
    var n := DigitRun(s[st..], base);
    if n == 0 then Err(InvalidNumber)
    else
      var magnitude := ValueOf(s[st..][..n], base);
      var v: int := if s[0] == '-' then -(magnitude as int) else magnitude;
      if v < IntMin || v > IntMax then Err(NumberOutOfRange) else Ok(v)
  }

  /// `std::stoull(s, nullptr, 0)`: base 16 after "0x"/"0X", base 8 after a
  /// leading '0', base 10 otherwise; a minus sign negates modulo 2^64.
  function Stoull(s: string): (r: Result<nat>)
    ensures r.Ok? ==> r.value < ULongLimit
  {
    var st := SignLength(s);
    var body := s[st..];
    var hex := |body| > 2 && body[0] == '0' && (body[1] == 'x' || body[1] == 'X') && IsDigitIn(body[2], 16);
    var base := if hex then 16 else if |body| > 0 && body[0] == '0' then 8 else 10;
    var digits := if hex then body[2..] else body;
    var n := DigitRun(digits, base);
    if n == 0 then Err(InvalidNumber)
    else
      var magnitude := ValueOf(digits[..n], base);
      if magnitude >= ULongLimit then Err(NumberOutOfRange)
      else if s[0] == '-' then Ok((ULongLimit - magnitude) % ULongLimit)
      else Ok(magnitude)
  }

  /// Decimal rendering of a natural number, most significant digit first.
  function Decimal(n: nat): (s: string)
    ensures |s| > 0 && AllDigitsIn(s, 10)
    ensures s[0] == '0' ==> n == 0
  {
    var d := ['0' + (n % 10) as char];
    if n < 10 then d else Decimal(n / 10) + d
  }

  /// Lower-case hexadecimal rendering of a natural number.
  function Hex(n: nat): (s: string)
    ensures |s| > 0 && AllDigitsIn(s, 16)
  {
    var k := n % 16;
    var d := [if k < 10 then '0' + k as char else 'a' + (k - 10) as char];
    if n < 16 then d else Hex(n / 16) + d
  }

  lemma {:induction false} DigitRunAll(s: string, base: nat)
    requires AllDigitsIn(s, base)
    ensures DigitRun(s, base) == |s|
    decreases |s|
  {
    if s != [] {
      DigitRunAll(s[1..], base);
    }
  }

  lemma {:induction false} DecimalValue(n: nat)
    ensures ValueOf(Decimal(n), 10) == n
    decreases n
  {
    var s := Decimal(n);
    if n >= 10 {
      assert s[..|s| - 1] == Decimal(n / 10);
      DecimalValue(n / 10);
    }
  }

  lemma {:induction false} HexValue(n: nat)
    ensures ValueOf(Hex(n), 16) == n
    decreases n
  {
    var s := Hex(n);
    if n >= 16 {
      assert s[..|s| - 1] == Hex(n / 16);
      HexValue(n / 16);
    }
  }

  /// `stoi` reads back what `Decimal` writes, with either sign.
  lemma StoiDecimal(n: nat)
    ensures n <= IntMax ==> Stoi(Decimal(n), 10) == Ok(n)
    ensures n <= -IntMin ==> Stoi("-" + Decimal(n), 10) == Ok(-(n as int))
  {
    var s := Decimal(n);
    DigitRunAll(s, 10);
    DecimalValue(n);
    assert s[..|s|] == s;
    var m := "-" + s;
    assert m[1..] == s;
  }

  /// `stoi(…, 16)` reads back what `Hex` writes.
  lemma StoiHex(n: nat)
    requires n <= IntMax
    ensures Stoi(Hex(n), 16) == Ok(n)
  {
    var s := Hex(n);
    DigitRunAll(s, 16);
    HexValue(n);
    assert s[..|s|] == s;
  }

  /// `stoi` is lenient: whatever follows the digit run is ignored.
  lemma StoiIgnoresSuffix(digits: string, rest: string)
    requires |digits| > 0 && AllDigitsIn(digits, 10) && digits[0] != '-' && digits[0] != '+'
    requires rest == [] || !IsDigitIn(rest[0], 10)
    ensures Stoi(digits + rest, 10) == Stoi(digits, 10)
  {
    DigitRunAll(digits, 10);
    DigitRunAppend(digits, rest, 10);
    assert (digits + rest)[..|digits|] == digits;
    assert digits[..|digits|] == digits;
  }

  lemma {:induction false} DigitRunAppend(a: string, b: string, base: nat)
    requires AllDigitsIn(a, base)
    requires b == [] || !IsDigitIn(b[0], base)
    ensures DigitRun(a + b, base) == |a|
    decreases |a|
  {
    if a == [] {
      assert a + b == b;
    } else {
      assert (a + b)[1..] == a[1..] + b;
      DigitRunAppend(a[1..], b, base);
    }
  }

  /// On an optional sign followed by digits only, `stoi` reads the whole string.
  lemma StoiInteger(s: string)
    requires IsInteger(s)
    ensures DigitRun(s[SignLength(s)..], 10) == |s| - SignLength(s)
  {
    var t := s[SignLength(s)..];
    assert forall i :: 0 <= i < |t| ==> t[i] == s[SignLength(s) + i];
    DigitRunAll(t, 10);
  }

  /// `stoull` reads back what `Decimal` writes, for every 64-bit value.
  lemma StoullDecimal(n: nat)
    requires n < ULongLimit
    ensures Stoull(Decimal(n)) == Ok(n)
  {
    var s := Decimal(n);
    DigitRunAll(s, 10);
    DecimalValue(n);
    assert s[..|s|] == s;
    if s[0] == '0' {
      assert |s| == 1;
      assert DigitRun(s, 8) == 1;
      assert ValueOf(s[..1], 8) == 0;
    }
  }

  /// A negative `.8byte` literal wraps around modulo 2^64.
  lemma StoullNegative(n: nat)
    requires 0 < n < ULongLimit
    ensures Stoull("-" + Decimal(n)) == Ok(ULongLimit - n)
  {
    var s := Decimal(n);
    var m := "-" + s;
    assert m[1..] == s;
    DigitRunAll(s, 10);
    DecimalValue(n);
    assert s[..|s|] == s;
  }

  /// Conversion of a wider integer to a 32-bit `int`: two's-complement
  /// wrap-around.
  function WrapInt32(x: int): (v: int)
    ensures IntMin <= v <= IntMax
    ensures (v - x) % 0x1_0000_0000 == 0
  {
    (x - IntMin) % 0x1_0000_0000 + IntMin
  }

  /// Values that fit are unchanged.
  lemma WrapInt32Fits(x: int)
    requires IntMin <= x <= IntMax
    ensures WrapInt32(x) == x
  {
  }
}
