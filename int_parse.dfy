/** Rust's `str::parse::<i32>()` and `str::parse::<i64>()`, which the controller
    uses for user, instrument and renting ids and for the `rent_max_count` rule.
    The grammar is an optional `+` or `-` followed by one or more ASCII digits;
    digits are read left to right and the first character that is not a digit,
    or the first digit that takes the value out of range, decides the error. */
module IntParse {
  import opened Wrappers

  /** The kinds of `std::num::ParseIntError`. */
  datatype IntErrorKind = Empty | InvalidDigit | PosOverflow | NegOverflow

  const I32_MIN: int := -0x8000_0000
  const I32_MAX: int := 0x7FFF_FFFF
  const I64_MIN: int := -0x8000_0000_0000_0000
  const I64_MAX: int := 0x7FFF_FFFF_FFFF_FFFF

  predicate IsDigit(c: char) {
    '0' <= c <= '9'
  }

  function DigitValue(c: char): (d: nat)
    requires IsDigit(c)
    ensures d < 10
  {
    (c as int) - ('0' as int)
  }

  function DigitChar(d: nat): (c: char)
    requires d < 10
    ensures IsDigit(c) && DigitValue(c) == d
  {
    (('0' as int) + d) as char
  }

  /** Reads the digits `ds` after the sign, starting from the value `acc`;
      `sign` is 1 for a positive and -1 for a negative number, which
      Rust accumulates by checked addition and checked subtraction. */
  function Accumulate(ds: string, acc: int, sign: int, lo: int, hi: int): (r: Result<int, IntErrorKind>)
    requires sign == 1 || sign == -1
    requires lo <= acc <= hi
    ensures r.Ok? ==> lo <= r.value <= hi
    ensures r.Err? ==> r.error != Empty
    decreases |ds|
  {
    if ds == [] then Ok(acc)
    else if !IsDigit(ds[0]) then Err(InvalidDigit)
    else
      var next := acc * 10 + sign * DigitValue(ds[0]);
      if next > hi then Err(PosOverflow)
      else if next < lo then Err(NegOverflow)
      else Accumulate(ds[1..], next, sign, lo, hi)
  }

  /** `s.parse()` into the integer type whose range is `lo..=hi`. */
  function ParseInt(s: string, lo: int, hi: int): (r: Result<int, IntErrorKind>)
    requires lo < 0 < hi
    ensures r.Ok? ==> lo <= r.value <= hi
    ensures r.Err? && r.error == Empty <==> s == []
  {
    if s == [] then Err(Empty)
    else if |s| == 1 && (s[0] == '+' || s[0] == '-') then Err(InvalidDigit)
    else if s[0] == '+' then Accumulate(s[1..], 0, 1, lo, hi)
    else if s[0] == '-' then Accumulate(s[1..], 0, -1, lo, hi)
    else Accumulate(s, 0, 1, lo, hi)
  }

  function ParseI32(s: string): Result<int, IntErrorKind> {
    ParseInt(s, I32_MIN, I32_MAX)
  }

  function ParseI64(s: string): Result<int, IntErrorKind> {
    ParseInt(s, I64_MIN, I64_MAX)
  }

  /** The shortest decimal digits of a natural number. */
  function NatDigits(n: nat): (ds: string)
    ensures |ds| > 0
    ensures forall k :: 0 <= k < |ds| ==> IsDigit(ds[k])
  {
    if n < 10 then [DigitChar(n)] else NatDigits(n / 10) + [DigitChar(n % 10)]
  }

  /** How Rust prints an integer: a `-` for negative numbers, then the digits. */
  function Decimal(n: int): string {
    if n < 0 then "-" + NatDigits(-n) else NatDigits(n)
  }

  /** The value of digits `ds` read after `acc`, without range checks. */
  function Fold(ds: string, acc: int, sign: int): int
    requires forall k :: 0 <= k < |ds| ==> IsDigit(ds[k])
    decreases |ds|
  {
    if ds == [] then acc else Fold(ds[1..], acc * 10 + sign * DigitValue(ds[0]), sign)
  }

  lemma {:induction false} FoldSnoc(ds: string, c: char, acc: int, sign: int)
    requires forall k :: 0 <= k < |ds| ==> IsDigit(ds[k])
    requires IsDigit(c)
    ensures forall k :: 0 <= k < |ds + [c]| ==> IsDigit((ds + [c])[k])
    ensures Fold(ds + [c], acc, sign) == Fold(ds, acc, sign) * 10 + sign * DigitValue(c)
    decreases |ds|
  {
    if ds != [] {
      assert (ds + [c])[1..] == ds[1..] + [c];
      FoldSnoc(ds[1..], c, acc * 10 + sign * DigitValue(ds[0]), sign);
    }
  }

  lemma {:induction false} FoldNatDigits(n: nat, sign: int)
    ensures Fold(NatDigits(n), 0, sign) == sign * n
  {
    if n >= 10 {
      FoldNatDigits(n / 10, sign);
      FoldSnoc(NatDigits(n / 10), DigitChar(n % 10), 0, sign);
      assert sign * (n / 10) * 10 + sign * (n % 10) == sign * n;
    }
  }

  /** Without overflow on the way, reading digits is folding them: the running
      value only moves away from zero, so it stays in range when the final one does. */
  lemma {:induction false} AccumulateInRange(ds: string, acc: int, sign: int, lo: int, hi: int)
    requires forall k :: 0 <= k < |ds| ==> IsDigit(ds[k])
    requires sign == 1 || sign == -1
    requires lo <= acc <= hi && lo <= 0 <= hi
    requires sign * acc >= 0
    requires lo <= Fold(ds, acc, sign) <= hi
    ensures Accumulate(ds, acc, sign, lo, hi) == Ok(Fold(ds, acc, sign))
    decreases |ds|
  {
    if ds != [] {
      var next := acc * 10 + sign * DigitValue(ds[0]);
      FoldMonotone(ds[1..], next, sign);
      AccumulateInRange(ds[1..], next, sign, lo, hi);
    }
  }

  lemma {:induction false} FoldMonotone(ds: string, acc: int, sign: int)
    requires forall k :: 0 <= k < |ds| ==> IsDigit(ds[k])
    requires sign == 1 || sign == -1
    requires sign * acc >= 0
    ensures sign * Fold(ds, acc, sign) >= sign * acc
    decreases |ds|
  {
    if ds != [] {
      var next := acc * 10 + sign * DigitValue(ds[0]);
      assert sign * next >= sign * acc by {
        assert sign * next == sign * acc * 10 + DigitValue(ds[0]);
      }
      FoldMonotone(ds[1..], next, sign);
    }
  }

  /** Parsing what Rust prints gives the number back, for every number of the type. */
  lemma ParseDecimal(n: int, lo: int, hi: int)
    requires lo < 0 < hi
    requires lo <= n <= hi
    ensures ParseInt(Decimal(n), lo, hi) == Ok(n)
  {
    if n < 0 {
      var ds := NatDigits(-n);
      assert Decimal(n)[1..] == ds;
      FoldNatDigits(-n, -1);
      AccumulateInRange(ds, 0, -1, lo, hi);
    } else {
      var ds := NatDigits(n);
      FoldNatDigits(n, 1);
      AccumulateInRange(ds, 0, 1, lo, hi);
    }
  }
}
