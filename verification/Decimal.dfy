/** Decimal text for integers, as Rust's formatting and `str::parse` treat it. */
module Decimal {
  import opened Prelude
  import opened TextTools

  function Digit(d: nat): (c: char)
    requires d < 10
    ensures IsAsciiDigit(c) && DigitValue(c) == d
  {
    (d + '0' as nat) as char
  }

  function DigitValue(c: char): nat
    requires IsAsciiDigit(c)
  {
    c as nat - '0' as nat
  }

  /** `n.to_string()` for an unsigned integer. */
  function Show(n: nat): (s: string)
    ensures s != ""
    ensures forall c | c in s :: IsAsciiDigit(c)
    ensures n > 0 ==> s[0] != '0'
    ensures n == 0 ==> s == "0"
  {
    if n < 10 then [Digit(n)] else Show(n / 10) + [Digit(n % 10)]
  }

  /** `n.to_string()` for a signed integer. */
  function ShowInt(n: int): string {
    if n < 0 then "-" + Show(-n) else Show(n)
  }

  predicate AllDigits(s: string) {
    forall c | c in s :: IsAsciiDigit(c)
  }

  function Value(s: string): nat
    requires AllDigits(s)
  {
    if s == "" then 0 else Value(s[..|s| - 1]) * 10 + DigitValue(s[|s| - 1])
  }

  /** The digits of an unsigned number: at least one, nothing else. */
  function ParseDigits(s: string): Option<nat> {
    if s != "" && AllDigits(s) then Some(Value(s)) else None
  }

  function WithoutPlus(s: string): string {
    if s != "" && s[0] == '+' then s[1..] else s
  }

  /** `s.parse::<u64>().ok()`: an optional plus sign, digits, no overflow. */
  function ParseU64(s: string): (r: Option<nat>)
    ensures r.Some? ==> r.value <= U64_MAX
  {
    var n := ParseDigits(WithoutPlus(s));
    if n.Some? && n.value <= U64_MAX then n else None
  }

  /** `s.parse::<i64>().ok()`: an optional sign, digits, no overflow in the direction of the sign. */
  function ParseI64(s: string): (r: Option<int>)
    ensures r.Some? ==> I64_MIN <= r.value <= I64_MAX
  {
    if s != "" && s[0] == '-' then
      var n := ParseDigits(s[1..]);
      if n.Some? && n.value <= I64_MAX + 1 then Some(-(n.value as int)) else None
    else
      var n := ParseDigits(WithoutPlus(s));
      if n.Some? && n.value <= I64_MAX then Some(n.value) else None
  }

  lemma {:induction false} ValueOfShow(n: nat)
    ensures Value(Show(n)) == n
  {
    if n >= 10 {
      ValueOfShow(n / 10);
      assert Show(n)[..|Show(n)| - 1] == Show(n / 10);
    } else {
      assert Show(n)[..0] == "";
    }
  }

  lemma DigitsOfShow(n: nat)
    ensures ParseDigits(Show(n)) == Some(n) && WithoutPlus(Show(n)) == Show(n) && Show(n)[0] != '-'
  {
    ValueOfShow(n);
    assert Show(n)[0] in Show(n);
  }

  lemma ParseU64OfShow(n: nat)
    ensures ParseU64(Show(n)) == if n <= U64_MAX then Some(n) else None
  {
    DigitsOfShow(n);
  }

  lemma ParseI64OfShow(n: nat)
    ensures ParseI64(Show(n)) == if n <= I64_MAX then Some(n) else None
  {
    DigitsOfShow(n);
  }

  lemma ParseI64OfShowInt(n: int)
    ensures ParseI64(ShowInt(n)) == if I64_MIN <= n <= I64_MAX then Some(n) else None
  {
    if n < 0 {
      DigitsOfShow(-n);
      assert ShowInt(n)[1..] == Show(-n);
    } else {
      ParseI64OfShow(n);
    }
  }

  /** A leading plus sign is read over, a minus sign only where the number may be negative. */
  lemma SignsAreRead(n: nat)
    ensures ParseU64("+" + Show(n)) == ParseU64(Show(n))
    ensures ParseI64("+" + Show(n)) == ParseI64(Show(n))
    ensures ParseU64("-" + Show(n)).None?
    ensures n <= I64_MAX + 1 ==> ParseI64("-" + Show(n)).Some? && ParseI64("-" + Show(n)).value + n == 0
  {
    DigitsOfShow(n);
    assert ("+" + Show(n))[1..] == Show(n) && ("-" + Show(n))[1..] == Show(n);
    assert ("-" + Show(n))[0] == '-' && '-' in "-" + Show(n);
    assert WithoutPlus("-" + Show(n)) == "-" + Show(n);
  }
}
