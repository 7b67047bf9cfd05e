/** Fixed-width big-endian digits, shared by the hex and the packed binary formats. */
module Positional {
  import opened Wrappers
  import opened Strings

  function Pow(base: nat, n: nat): nat {
    if n == 0 then 1 else base * Pow(base, n - 1)
  }

  predicate AreDigits(base: nat, s: seq<nat>) {
    forall i | 0 <= i < |s| :: s[i] < base
  }

  /** The `width` big-endian digits of `x`; the quotient that does not fit is dropped. */
  function Digits(base: nat, width: nat, x: nat): (s: seq<nat>)
    requires base >= 2
    ensures |s| == width && AreDigits(base, s)
  {
    if width == 0 then [] else Digits(base, width - 1, x / base) + [x % base]
  }

  function Value(base: nat, s: seq<nat>): nat {
    if s == [] then 0 else base * Value(base, s[..|s| - 1]) + s[|s| - 1]
  }

  lemma {:induction false} ValueOfDigits(base: nat, width: nat, x: nat)
    requires base >= 2 && x < Pow(base, width)
    ensures Value(base, Digits(base, width, x)) == x
  {
    if width > 0 {
      var s := Digits(base, width, x);
      assert s[..width - 1] == Digits(base, width - 1, x / base);
      QuotientFits(base, Pow(base, width - 1), x);
      assert x == base * (x / base) + x % base;
      ValueOfDigits(base, width - 1, x / base);
    }
  }

  lemma MulMonotone(a: nat, x: int, y: int)
    requires x <= y
    ensures a * x <= a * y
  {
  }

  lemma QuotientFits(base: nat, bound: nat, x: nat)
    requires base >= 2 && x < base * bound
    ensures x / base < bound
  {
    if x / base >= bound {
      MulMonotone(base, bound, x / base);
    }
  }

  lemma DivisionIs(base: nat, q: nat, r: nat)
    requires r < base
    ensures (base * q + r) / base == q && (base * q + r) % base == r
  {
    var k := (base * q + r) / base;
    if k < q {
      MulMonotone(base, k + 1, q);
    } else if k > q {
      MulMonotone(base, q + 1, k);
    }
  }

  lemma {:induction false} ValueIsBounded(base: nat, s: seq<nat>)
    requires base >= 2 && AreDigits(base, s)
    ensures Value(base, s) < Pow(base, |s|)
  {
    if s != [] {
      var front := s[..|s| - 1];
      ValueIsBounded(base, front);
      var v := Value(base, front);
      assert base * (v + 1) == base * v + base;
      MulMonotone(base, v + 1, Pow(base, |front|));
    }
  }

  lemma {:induction false} DigitsOfValue(base: nat, s: seq<nat>)
    requires base >= 2 && AreDigits(base, s)
    ensures Digits(base, |s|, Value(base, s)) == s
  {
    if s != [] {
      var front, last := s[..|s| - 1], s[|s| - 1];
      DigitsOfValue(base, front);
      DivisionIs(base, Value(base, front), last);
      assert s == front + [last];
    }
  }

  function HexDigit(d: nat): char
    requires d < 16
  {
    if d < 10 then '0' + (d as char) else 'a' + ((d - 10) as char)
  }

  function HexDigitValue(c: char): (d: Option<nat>)
    ensures d.Some? ==> d.value < 16
  {
    if '0' <= c <= '9' then Some((c - '0') as nat)
    else if 'a' <= c <= 'f' then Some((c - 'a') as nat + 10)
    else if 'A' <= c <= 'F' then Some((c - 'A') as nat + 10)
    else None
  }

  lemma HexDigitRoundTrip(d: nat)
    requires d < 16
    ensures HexDigitValue(HexDigit(d)) == Some(d)
  {
  }

  /** `x` zero padded to `width` hex digits, with the 0x prefix. */
  function HexString(width: nat, x: nat): (s: string)
    ensures |s| == width + 2
  {
    var d := Digits(16, width, x);
    "0x" + seq(width, i requires 0 <= i < width => HexDigit(d[i]))
  }

  /** The digit values of a text in a base up to 16. */
  function DigitValues(base: nat, s: string): (r: Option<seq<nat>>)
    ensures r.Some? ==> |r.value| == |s| && forall i | 0 <= i < |s| :: HexDigitValue(s[i]) == Some(r.value[i]) && r.value[i] < base
    ensures r.None? ==> exists i | 0 <= i < |s| :: HexDigitValue(s[i]).None? || HexDigitValue(s[i]).value >= base
  {
    if s == [] then Some([])
    else
      var first, rest := HexDigitValue(s[0]), DigitValues(base, s[1..]);
      if first.Some? && first.value < base && rest.Some? then Some([first.value] + rest.value) else None
  }

  function ParseDigits(base: nat, s: string): Option<int> {
    var d := DigitValues(base, s);
    if s == [] || d.None? then None else Some(Value(base, d.value))
  }

  /** The integer a text stands for, as BigInt reads it: trimmed, nothing is 0, then binary, octal or
      hexadecimal digits after their prefix, or decimal digits after an optional sign. */
  function ParseBigInt(text: string): Option<int> {
    var s := Trim(text);
    if s == [] then Some(0)
    else if |s| >= 2 && s[0] == '0' && s[1] in "xX" then ParseDigits(16, s[2..])
    else if |s| >= 2 && s[0] == '0' && s[1] in "oO" then ParseDigits(8, s[2..])
    else if |s| >= 2 && s[0] == '0' && s[1] in "bB" then ParseDigits(2, s[2..])
    else if s[0] == '+' then ParseDigits(10, s[1..])
    else if s[0] == '-' then
      var n := ParseDigits(10, s[1..]);
      if n.None? then None else Some(-n.value)
    else ParseDigits(10, s)
  }

  lemma HexIsTrimmed(width: nat, x: nat)
    requires width > 0
    ensures Trim(HexString(width, x)) == HexString(width, x)
  {
    var s := HexString(width, x);
    assert s[|s| - 1] == HexDigit(Digits(16, width, x)[width - 1]);
    assert s[0] == '0';
  }

  lemma HexDigitsParse(width: nat, x: nat)
    requires width > 0 && x < Pow(16, width)
    ensures ParseDigits(16, HexString(width, x)[2..]) == Some(x)
  {
    var s, d := HexString(width, x)[2..], Digits(16, width, x);
    forall i | 0 <= i < width ensures HexDigitValue(s[i]) == Some(d[i]) {
      HexDigitRoundTrip(d[i]);
    }
    assert DigitValues(16, s).value == d;
    ValueOfDigits(16, width, x);
  }

  lemma HexRoundTrip(width: nat, x: nat)
    requires width > 0 && x < Pow(16, width)
    ensures ParseBigInt(HexString(width, x)) == Some(x)
  {
    HexIsTrimmed(width, x);
    HexDigitsParse(width, x);
  }
}
