/** Fixed-width integer behaviour and decimal text, as Rust's `as i32`, `as_i64`, `as_u64`,
    `to_string` and `str::parse` have it. */
module Numbers {
  import opened Wrappers

  const TwoTo31: int := 0x8000_0000
  const TwoTo32: int := 0x1_0000_0000
  const TwoTo63: int := 0x8000_0000_0000_0000
  const TwoTo64: int := 0x1_0000_0000_0000_0000

  predicate IsI32(x: int) { -TwoTo31 <= x < TwoTo31 }
  predicate IsI64(x: int) { -TwoTo63 <= x < TwoTo63 }
  predicate IsU64(x: int) { 0 <= x < TwoTo64 }

  /** Rust's `x as i32`: keeps the low 32 bits and reads them in two's complement. */
  function AsI32(x: int): (r: int)
    ensures IsI32(r)
    ensures (x - r) % TwoTo32 == 0
    ensures IsI32(x) ==> r == x
  {
    (x + TwoTo31) % TwoTo32 - TwoTo31
  }

  /** A JSON number read with `as_i64()`: present only when it fits in an i64. */
  function AsI64(n: Option<int>): (r: Option<int>)
    ensures r.Some? <==> n.Some? && IsI64(n.value)
    ensures r.Some? ==> r.value == n.value
  {
    if n.Some? && IsI64(n.value) then n else None
  }

  /** A JSON number read with `as_u64()`: present only when it fits in a u64. */
  function AsU64(n: Option<int>): (r: Option<int>)
    ensures r.Some? <==> n.Some? && IsU64(n.value)
    ensures r.Some? ==> r.value == n.value
  {
    if n.Some? && IsU64(n.value) then n else None
  }

  predicate IsDigit(c: char) { '0' <= c <= '9' }

  predicate AllDigits(s: string) { forall k :: 0 <= k < |s| ==> IsDigit(s[k]) }

  function DigitChar(d: nat): (c: char)
    requires d < 10
    ensures IsDigit(c) && c as int - '0' as int == d
  {
    ('0' as int + d) as char
  }

  /** The decimal digits of a natural number, most significant first, without leading zeros. */
  function NatToDecimal(n: nat): (s: string)
    ensures |s| > 0 && AllDigits(s)
    decreases n
  {
    if n < 10 then [DigitChar(n)] else NatToDecimal(n / 10) + [DigitChar(n % 10)]
  }

  /** Rust's `to_string()` on an integer: a '-' before the digits of a negative number. */
  function ToDecimal(n: int): (s: string)
    ensures |s| > 0
    ensures n >= 0 ==> AllDigits(s)
    ensures n < 0 ==> s[0] == '-' && AllDigits(s[1..])
  {
    if n < 0 then "-" + NatToDecimal(-n) else NatToDecimal(n)
  }

  /** The value of a string of decimal digits. */
  function DigitsValue(s: string): nat
    requires AllDigits(s)
  {
    if s == [] then 0 else DigitsValue(s[..|s| - 1]) * 10 + (s[|s| - 1] as int - '0' as int)
  }

  /** Rust's `str::parse` for a signed integer type whose values are lo <= v < hi:
      an optional sign, then one or more decimal digits, and a value in range. */
  function ParseInt(s: string, lo: int, hi: int): (r: Option<int>)
    ensures r.Some? ==> lo <= r.value < hi
    ensures s == [] ==> r == None
  {
    var signed := |s| > 0 && (s[0] == '+' || s[0] == '-');
    var body := if signed then s[1..] else s;
    if body == [] || !AllDigits(body) then None
    else
      var v: int := if signed && s[0] == '-' then 0 - DigitsValue(body) as int else DigitsValue(body);
      if lo <= v < hi then Some(v) else None
  }

  function ParseI32(s: string): Option<int> { ParseInt(s, -TwoTo31, TwoTo31) }

  function ParseI64(s: string): Option<int> { ParseInt(s, -TwoTo63, TwoTo63) }

  lemma {:induction false} DigitsValueOfNat(n: nat)
    ensures DigitsValue(NatToDecimal(n)) == n
    decreases n
  {
    if n >= 10 {
      DigitsValueOfNat(n / 10);
      var s := NatToDecimal(n);
      assert s[..|s| - 1] == NatToDecimal(n / 10);
    }
  }

  /** Parsing what `to_string` printed gives the number back, for every number in range. */
  lemma ParseToDecimal(n: int, lo: int, hi: int)
    requires lo <= n < hi
    ensures ParseInt(ToDecimal(n), lo, hi) == Some(n)
  {
    var s := ToDecimal(n);
    if n < 0 {
      DigitsValueOfNat(-n);
      assert s[1..] == NatToDecimal(-n);
    } else {
      DigitsValueOfNat(n);
      assert !IsDigit('+') && !IsDigit('-');
    }
  }

  /** `to_string` is injective: different numbers print differently. */
  lemma ToDecimalInjective(m: int, n: int)
    requires ToDecimal(m) == ToDecimal(n)
    ensures m == n
  {
    var lo, hi := if m < n then m else n, (if m < n then n else m) + 1;
    ParseToDecimal(m, lo, hi);
    ParseToDecimal(n, lo, hi);
  }
}
