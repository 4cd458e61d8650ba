/** Decimal text of integers: `%d` in the config diff, `itoa` in the cache keys, and the array index of
section 4 of RFC 6901. */
module Decimal {

  predicate IsDigit(c: char) {
    '0' <= c <= '9'
  }

  function Digit(d: nat): (c: char)
    requires d < 10
    ensures IsDigit(c) && c as int == '0' as int + d
  {
    ('0' as int + d) as char
  }

  /** The digits of a positive number, none for zero. */
  function Positional(n: nat): string {
    if n == 0 then "" else Positional(n / 10) + [Digit(n % 10)]
  }

  function Digits(n: nat): string {
    if n == 0 then "0" else Positional(n)
  }

  /** The number a digit string stands for. */
  function Value(s: string): nat
    requires forall i :: 0 <= i < |s| ==> IsDigit(s[i])
  {
    if s == "" then 0
    else assert IsDigit(s[|s| - 1]); Value(s[..|s| - 1]) * 10 + (s[|s| - 1] as int - '0' as int)
  }

  /** Digits without a leading zero. */
  predicate IsIndex(s: string) {
    s != "" && (forall i | 0 <= i < |s| :: IsDigit(s[i])) && (|s| > 1 ==> s[0] != '0')
  }

  lemma {:induction false} PositionalIsNumber(n: nat)
    requires n > 0
    ensures var s := Positional(n); s != "" && (forall i :: 0 <= i < |s| ==> IsDigit(s[i])) && s[0] != '0' && Value(s) == n
  {
    var s := Positional(n);
    assert s[..|s| - 1] == Positional(n / 10);
    if n >= 10 {
      PositionalIsNumber(n / 10);
    }
  }

  /** The text of a number is an index and stands for that number. */
  lemma DigitsRoundTrip(n: nat)
    ensures IsIndex(Digits(n)) && Value(Digits(n)) == n
  {
    if n == 0 {
      assert "0"[..0] == "";
    } else {
      PositionalIsNumber(n);
    }
  }

  lemma {:induction false} PositionalOfValue(s: string)
    requires s != "" && (forall i :: 0 <= i < |s| ==> IsDigit(s[i])) && s[0] != '0'
    ensures Value(s) > 0 && Positional(Value(s)) == s
  {
    var init, last := s[..|s| - 1], s[|s| - 1];
    assert s == init + [last];
    if init != "" {
      PositionalOfValue(init);
    }
    assert Value(s) / 10 == Value(init) && Value(s) % 10 == last as int - '0' as int;
  }

  /** Every index is the text of the number it stands for. */
  lemma IndexRoundTrip(s: string)
    requires IsIndex(s)
    ensures Digits(Value(s)) == s
  {
    if s[0] == '0' {
      assert s == "0" && s[..0] == "";
    } else {
      PositionalOfValue(s);
    }
  }

  lemma DigitsInjective(m: nat, n: nat)
    ensures Digits(m) == Digits(n) ==> m == n
  {
    DigitsRoundTrip(m);
    DigitsRoundTrip(n);
  }

  // ----- itoa on 64-bit integers

  const MIN_INT64: int := -0x8000_0000_0000_0000
  const MAX_INT64: int := 0x7fff_ffff_ffff_ffff

  type Int64 = v: int | MIN_INT64 <= v <= MAX_INT64

  /** Two's complement negation: the least value is its own negative. */
  function Negate(v: Int64): Int64 {
    if v == MIN_INT64 then v else -v
  }

  function Itoa(v: Int64): string {
    if v == MIN_INT64 then "-" else if v < 0 then "-" + Digits(-v) else Digits(v)
  }

  function Abs(v: int): nat {
    if v < 0 then -v else v
  }

  /** The loop puts the digits in front, the last one first. */
  method ItoaLoop(v: Int64) returns (text: string)
    ensures text == Itoa(v)
  {
    if v == 0 {
      return "0";
    }
    var negative := v < 0;
    var rest: int := if negative then Negate(v) else v;
    var digits := "";
    ghost var start := rest;
    hide Positional;
    while rest > 0
      invariant 0 <= rest <= start || (rest == start < 0 && digits == "")
      invariant rest >= 0 ==> Positional(rest) + digits == Positional(start)
    {
      PositionalStep(rest, digits);
      digits := [Digit(rest % 10)] + digits;
      rest := rest / 10;
    }
    assert start >= 0 ==> digits == Positional(start) by {
      PositionalZero(digits);
    }
    if negative {
      digits := "-" + digits;
    }
    return digits;
  }

  lemma PositionalStep(n: nat, s: string)
    requires n > 0
    ensures Positional(n / 10) + ([Digit(n % 10)] + s) == Positional(n) + s
  {
  }

  lemma PositionalZero(s: string)
    ensures Positional(0) + s == s
  {
  }

  /** The text has a sign exactly when the number is negative, and the rest is its size. */
  lemma ItoaShape(v: Int64)
    ensures Itoa(v) != "" && (Itoa(v)[0] == '-' <==> v < 0)
    ensures v == MIN_INT64 <==> Itoa(v) == "-"
    ensures v < 0 && v != MIN_INT64 ==> Itoa(v)[1..] == Digits(Abs(v))
    ensures v >= 0 ==> Itoa(v) == Digits(Abs(v))
    ensures forall c :: c in Itoa(v) ==> c == '-' || IsDigit(c)
  {
    DigitsRoundTrip(Abs(v));
    hide Digits, Value;
  }

  lemma ItoaInjective(a: Int64, b: Int64)
    ensures Itoa(a) == Itoa(b) ==> a == b
  {
    ItoaShape(a);
    ItoaShape(b);
    DigitsInjective(Abs(a), Abs(b));
    hide Itoa, Digits;
  }
}
