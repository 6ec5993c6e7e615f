/**
 * The joke-balance field of the moderator's user form: accepted only when it is
 * present, non-empty and made of decimal digits, and then read as a decimal number
 * by Python's `int()`, which refuses strings of more than 4300 digits.
 */
module Digits {
  import opened Wrappers

  predicate IsDigit(c: char) {
    '0' <= c <= '9'
  }

  predicate AllDigits(s: string) {
    forall p :: 0 <= p < |s| ==> IsDigit(s[p])
  }

  function DigitValue(c: char): (d: nat)
    requires IsDigit(c)
    ensures d < 10
  {
    (c as int) - ('0' as int)
  }

  function DigitChar(d: nat): (c: char)
    requires d < 10
    ensures IsDigit(c) && DigitValue(c) == d
  {
    (('0' as int) + d) as char
  }

  /** The decimal value of a digit string, most significant digit first. */
  function ParseDigits(s: string): nat
    requires AllDigits(s)
  {
    if |s| == 0 then 0 else 10 * ParseDigits(s[..|s| - 1]) + DigitValue(s[|s| - 1])
  }

  /** The decimal notation of a natural number, without leading zeros. */
  function ShowNat(n: nat): (s: string)
    ensures |s| > 0 && AllDigits(s)
    ensures |s| > 1 ==> s[0] != '0'
  {
    if n < 10 then [DigitChar(n)] else ShowNat(n / 10) + [DigitChar(n % 10)]
  }

  lemma {:induction false} ParseShowNat(n: nat)
    ensures ParseDigits(ShowNat(n)) == n
  {
    if n >= 10 {
      var s := ShowNat(n);
      ParseShowNat(n / 10);
      assert s[..|s| - 1] == ShowNat(n / 10);
    }
  }

  /** `10` to the power `k`. */
  function Pow10(k: nat): (p: nat)
    ensures p >= 1
  {
    if k == 0 then 1 else 10 * Pow10(k - 1)
  }

  /** A number below `10^k` is written with at most `k` digits. */
  lemma {:induction false} ShowNatLength(n: nat, k: nat)
    requires 1 <= k && n < Pow10(k)
    ensures |ShowNat(n)| <= k
  {
    if n >= 10 {
      assert Pow10(1) == 10;
      assert k >= 2;
      assert n / 10 < Pow10(k - 1);
      ShowNatLength(n / 10, k - 1);
    }
  }

  /** Every 64-bit signed value is below `10^19`, so it has at most 19 digits. */
  lemma ShowNatInt64(n: nat)
    requires n <= 0x7fff_ffff_ffff_ffff
    ensures |ShowNat(n)| <= 19
  {
    assert Pow10(10) == 10_000_000_000;
    assert Pow10(19) == 10_000_000_000_000_000_000;
    ShowNatLength(n, 19);
  }

  /**
   * The most digits `int()` converts from a string: CPython's default
   * `sys.int_info.default_max_str_digits`. Leading zeros count.
   */
  const MAX_STR_DIGITS: nat := 4300

  /** What the balance check and `int()` make of the field. */
  datatype Balance = NotANumber | TooManyDigits | Number(value: nat)

  /**
   * `new_balance and new_balance.isdigit()` followed by `int(new_balance)`:
   * a missing field, an empty string or any non-digit character is not a number;
   * a digit string longer than the limit makes `int()` raise.
   */
  function ParseBalance(field: Option<string>): (r: Balance)
    ensures r.NotANumber? <==> !(field.Some? && |field.value| > 0 && AllDigits(field.value))
    ensures r.TooManyDigits? <==> field.Some? && AllDigits(field.value) && |field.value| > MAX_STR_DIGITS
    ensures r.Number? ==> field.Some? && 0 < |field.value| <= MAX_STR_DIGITS
  {
    match field
    case Some(s) =>
      if |s| == 0 || !AllDigits(s) then NotANumber
      else if |s| > MAX_STR_DIGITS then TooManyDigits
      else Number(ParseDigits(s))
    case None => NotANumber
  }

  /**
   * A balance written as its decimal notation is read back unchanged when it has at
   * most `MAX_STR_DIGITS` digits; a longer one makes `int()` raise.
   */
  lemma ParseBalanceShowNat(n: nat)
    ensures |ShowNat(n)| <= MAX_STR_DIGITS ==> ParseBalance(Some(ShowNat(n))) == Number(n)
    ensures |ShowNat(n)| > MAX_STR_DIGITS ==> ParseBalance(Some(ShowNat(n))) == TooManyDigits
  {
    ParseShowNat(n);
  }
}
