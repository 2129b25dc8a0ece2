/** The decimal text of 64-bit integers: strconv.FormatInt and strconv.ParseInt in base 10. */
module Decimal {
  import opened ByteOrder

  const MAX_INT64 := 0x7FFF_FFFF_FFFF_FFFF
  const MIN_INT64 := -0x8000_0000_0000_0000
  const ZERO: byte := 48
  const PLUS: byte := 43
  const MINUS: byte := 45

  predicate IsInt64(n: int) {
    MIN_INT64 <= n <= MAX_INT64
  }

  /** Two's complement wrap-around of int64 arithmetic. */
  function Wrap64(n: int): (w: int)
    ensures IsInt64(w) && (w - n) % 0x1_0000_0000_0000_0000 == 0
    ensures IsInt64(n) ==> w == n
  {
    (n - MIN_INT64) % 0x1_0000_0000_0000_0000 + MIN_INT64
  }

  function Pow10(e: nat): (p: nat)
    ensures p >= 1
  {
    if e == 0 then 1 else 10 * Pow10(e - 1)
  }

  /** Number of decimal digits. */
  function Digits(n: nat): (d: nat)
    ensures d >= 1
  {
    if n < 10 then 1 else 1 + Digits(n / 10)
  }

  function FormatNat(n: nat): (s: Bytes)
    ensures |s| == Digits(n)
    ensures forall c :: c in s ==> ZERO <= c <= ZERO + 9
  {
    if n < 10 then [ZERO + n] else FormatNat(n / 10) + [ZERO + n % 10]
  }

  function FormatInt(n: int): Bytes {
    if n < 0 then [MINUS] + FormatNat(-n) else FormatNat(n)
  }

  function ParseDigits(s: Bytes): Option<nat> {
    if s == [] then None
    else
      var c := s[|s| - 1];
      if !(ZERO <= c <= ZERO + 9) then None
      else if |s| == 1 then Some(c - ZERO)
      else match ParseDigits(s[..|s| - 1])
        case None => None
        case Some(v) => Some(10 * v + (c - ZERO))
  }

  /** An optional sign, at least one digit and nothing else, and a value that fits 64 bits. */
  function ParseInt(s: Bytes): Option<int> {
    if s == [] then None
    else
      var signed := s[0] == PLUS || s[0] == MINUS;
      match ParseDigits(if signed then s[1..] else s)
      case None => None
      case Some(v) =>
        var n := (if s[0] == MINUS then -1 else 1) * v;
        if IsInt64(n) then Some(n) else None
  }

  // ---- round trip --------------------------------------------------------------

  lemma {:induction false} ParseDigitsOfFormat(n: nat)
    ensures ParseDigits(FormatNat(n)) == Some(n)
  {
    if n >= 10 {
      ParseDigitsOfFormat(n / 10);
      var s := FormatNat(n);
      assert s[..|s| - 1] == FormatNat(n / 10);
    }
  }

  /** Every int64 value, printed and read back, is unchanged. */
  lemma ParseFormat(n: int)
    requires IsInt64(n)
    ensures ParseInt(FormatInt(n)) == Some(n)
  {
    var digits := FormatNat(if n < 0 then -n else n);
    ParseDigitsOfFormat(if n < 0 then -n else n);
    assert digits[0] in digits;
    if n < 0 {
      assert FormatInt(n)[1..] == digits;
    }
  }

  lemma FormatInjective(a: int, b: int)
    requires FormatInt(a) == FormatInt(b)
    ensures a == b
  {
    var da := FormatNat(if a < 0 then -a else a);
    var db := FormatNat(if b < 0 then -b else b);
    ParseDigitsOfFormat(if a < 0 then -a else a);
    ParseDigitsOfFormat(if b < 0 then -b else b);
    assert da[0] in da && db[0] in db;
    if a < 0 { assert FormatInt(a)[1..] == da; }
    if b < 0 { assert FormatInt(b)[1..] == db; }
  }

  // ---- text order against numeric order ------------------------------------------

  lemma {:induction false} DigitsMonotone(a: nat, b: nat)
    requires a <= b
    ensures Digits(a) <= Digits(b)
  {
    if a >= 10 {
      DigitsMonotone(a / 10, b / 10);
    }
  }

  /** Digits(n) is the d with Pow10(d - 1) <= n < Pow10(d), counting zero as one digit. */
  lemma {:induction false} DigitsRange(n: nat)
    ensures n < Pow10(Digits(n))
    ensures n > 0 ==> Pow10(Digits(n) - 1) <= n
  {
    if n >= 10 {
      DigitsRange(n / 10);
      assert Pow10(Digits(n)) == 10 * Pow10(Digits(n / 10));
      assert Pow10(Digits(n) - 1) == 10 * Pow10(Digits(n / 10) - 1);
    } else {
      assert Pow10(1) == 10 * Pow10(0);
    }
  }

  lemma {:induction false} DigitsOfPow10(e: nat)
    ensures Digits(Pow10(e)) == e + 1
  {
    if e > 0 {
      DigitsOfPow10(e - 1);
      assert Pow10(e) / 10 == Pow10(e - 1);
    }
  }

  /** The leading digits of n when its last e digits are cut off. */
  function Leading(n: nat, e: nat): nat {
    if e == 0 then n else Leading(n / 10, e - 1)
  }

  lemma {:induction false} LeadingAtLeast(n: nat, e: nat, m: nat)
    ensures m <= Leading(n, e) <==> m * Pow10(e) <= n
  {
    if e > 0 {
      LeadingAtLeast(n / 10, e - 1, m);
      var p := Pow10(e - 1);
      assert m * Pow10(e) == 10 * (m * p) by {
        assert Pow10(e) == 10 * p;
        assert m * (10 * p) == 10 * (m * p);
      }
    } else {
      assert Pow10(0) == 1;
    }
  }

  /** Numbers of the same width sort as text exactly as they do as numbers. */
  lemma {:induction false} SameWidthOrder(a: nat, b: nat)
    requires Digits(a) == Digits(b)
    ensures Leq(FormatNat(a), FormatNat(b)) <==> a <= b
  {
    if a >= 10 {
      SameWidthOrder(a / 10, b / 10);
      LeqLastByte(FormatNat(a / 10), FormatNat(b / 10), ZERO + a % 10, ZERO + b % 10);
      ParseDigitsOfFormat(a / 10);
      ParseDigitsOfFormat(b / 10);
    }
  }

  /**
   The order of decimal texts of any widths: a comes before a longer b exactly when a is at most
   the number formed by the leading digits of b.
   */
  lemma {:induction false} DecimalOrder(a: nat, b: nat)
    requires Digits(a) <= Digits(b)
    ensures Leq(FormatNat(a), FormatNat(b)) <==> a <= Leading(b, Digits(b) - Digits(a))
    decreases b
  {
    if Digits(a) == Digits(b) {
      SameWidthOrder(a, b);
    } else {
      DecimalOrder(a, b / 10);
      LeqExtend(FormatNat(a), FormatNat(b / 10), ZERO + b % 10);
    }
  }
}
