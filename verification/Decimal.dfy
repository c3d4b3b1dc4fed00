/** Decimal rendering and parsing of unsigned integers, as Rust's `to_string` and `str::parse` do it. */
module Decimal {
  import opened Base

  predicate IsDigit(c: char) {
    '0' <= c <= '9'
  }

  ghost predicate AllDigits(s: string) {
    forall i :: 0 <= i < |s| ==> IsDigit(s[i])
  }

  function DigitChar(d: nat): (c: char)
    requires d < 10
  {
    '0' + d as char
  }

  function DigitValue(c: char): nat
    requires IsDigit(c)
  {
    c as int - '0' as int
  }

  /** Decimal digits of `n`, without leading zeros. */
  function Print(n: nat): (s: string)
    ensures s != []
    ensures AllDigits(s)
  {
    if n < 10 then [DigitChar(n)] else Print(n / 10) + [DigitChar(n % 10)]
  }

  /** Value of a digit string; `None` as soon as a character is not a digit. */
  function Digits(s: string): Option<nat> {
    if s == [] then Some(0)
    else if !IsDigit(s[|s| - 1]) then None
    else match Digits(s[..|s| - 1])
      case None => None
      case Some(v) => Some(10 * v + DigitValue(s[|s| - 1]))
  }

  /** `str::parse` for an unsigned type with the given maximum: an optional `+`, then at least one digit. */
  function Parse(s: string, max: nat): Option<nat> {
    var body := if s != [] && s[0] == '+' then s[1..] else s;
    if body == [] then None
    else match Digits(body)
      case None => None
      case Some(v) => if v <= max then Some(v) else None
  }

  /** The decimal notation, digit by digit; only zero begins with a zero. */
  lemma {:induction false} PrintIsDecimal(n: nat, d: nat)
    requires d < 10
    ensures Print(d) == ["0123456789"[d]]
    ensures n > 0 ==> Print(10 * n + d) == Print(n) + ["0123456789"[d]] && Print(n)[0] != '0'
  {
    assert (10 * n + d) / 10 == n && (10 * n + d) % 10 == d;
    assert '0' + d as char == "0123456789"[d];
    if n >= 10 {
      PrintIsDecimal(n / 10, n % 10);
    }
  }

  lemma {:induction false} DigitsOfPrint(n: nat)
    ensures Digits(Print(n)) == Some(n)
  {
    if n < 10 {
      assert Digits([DigitChar(n)][..0]) == Some(0);
    } else {
      DigitsOfPrint(n / 10);
      var s := Print(n);
      assert s[..|s| - 1] == Print(n / 10);
    }
  }

  /** Parsing undoes printing exactly on the range of the target type. */
  lemma ParseOfPrint(n: nat, max: nat)
    ensures Parse(Print(n), max) == if n <= max then Some(n) else None
  {
    DigitsOfPrint(n);
    assert IsDigit(Print(n)[0]);
  }

  lemma PrintInjective(m: nat, n: nat)
    requires Print(m) == Print(n)
    ensures m == n
  {
    DigitsOfPrint(m);
    DigitsOfPrint(n);
  }

  /** The number that is left of `n` when all but the first `k` of its digits are cut off. */
  function Truncated(n: nat, k: nat): nat
    requires 1 <= k <= |Print(n)|
  {
    if k == |Print(n)| then n else Truncated(n / 10, k)
  }

  /** Cutting digits off a number leaves the digits of a smaller one, and never of zero. */
  lemma {:induction false} PrefixIsTruncated(n: nat, k: nat)
    requires 1 <= k <= |Print(n)|
    ensures Print(n)[..k] == Print(Truncated(n, k))
    ensures n > 0 ==> Truncated(n, k) > 0
    ensures k < |Print(n)| ==> Truncated(n, k) < n
  {
    if k == |Print(n)| {
      assert Print(n)[..k] == Print(n);
    } else {
      assert Print(n)[..k] == Print(n / 10)[..k];
      PrefixIsTruncated(n / 10, k);
    }
  }

  /** `str::parse` for a signed type: an optional sign, then at least one digit. */
  function ParseSigned(s: string, min: int, max: int): Option<int> {
    if s != [] && s[0] == '-' then
      if s[1..] == [] then None
      else match Digits(s[1..])
        case None => None
        case Some(v) => var n: int := v; if -n >= min then Some(-n) else None
    else
      var body := if s != [] && s[0] == '+' then s[1..] else s;
      if body == [] then None
      else match Digits(body)
        case None => None
        case Some(v) => if v <= max then Some(v) else None
  }
}
