/**
 * Decimal text of identifiers: Python's `str(n)` for the dataset and
 * incident keys and the incident file name, and `int(x)` for the keys of a
 * loaded dataset.
 */
module Decimal {
  import opened Wrappers

  predicate IsDigit(c: char)
  {
    '0' <= c <= '9'
  }

  function DigitChar(d: nat): (c: char)
    requires d < 10
    ensures IsDigit(c)
  {
    ('0' as int + d) as char
  }

  function DigitValue(c: char): (d: nat)
    requires IsDigit(c)
    ensures d < 10
  {
    (c as int - '0' as int) as nat
  }

  /** `str(n)` for `n >= 0`: the most significant digit first, no leading zero. */
  function ShowNat(n: nat): (s: string)
    decreases n
    ensures s != [] && AllDigits(s)
  {
    if n < 10 then [DigitChar(n)] else ShowNat(n / 10) + [DigitChar(n % 10)]
  }

  /**
   * Python's `str(n)` for an integer: a minus sign before a negative value,
   * digits everywhere else.
   */
  function Show(n: int): (s: string)
    ensures s != []
    ensures IsDigit(s[0]) <==> n >= 0
    ensures !IsDigit(s[0]) ==> s[0] == '-' && |s| >= 2
    ensures forall k :: 1 <= k < |s| ==> IsDigit(s[k])
  {
    if n < 0 then "-" + ShowNat(-n) else ShowNat(n)
  }

  predicate AllDigits(s: string)
  {
    forall k :: 0 <= k < |s| ==> IsDigit(s[k])
  }

  /** The value of a string of ASCII digits, read most significant first. */
  function DigitsValue(s: string): nat
    requires AllDigits(s)
  {
    if s == [] then 0 else DigitsValue(s[..|s| - 1]) * 10 + DigitValue(s[|s| - 1])
  }

  /**
   * Python's `int(x)` on a key: an optional sign and at least one ASCII
   * digit; anything else raises, modelled as `None`.
   */
  function ParseInt(s: string): (r: Option<int>)
    ensures s == [] ==> r.None?
    ensures r.Some? ==> IsDigit(s[0]) || ((s[0] == '-' || s[0] == '+') && |s| >= 2)
    ensures r.Some? ==> forall k :: 1 <= k < |s| ==> IsDigit(s[k])
    ensures r.Some? && r.value < 0 ==> s[0] == '-'
    ensures AllDigits(s) && s != [] ==> r == Some(DigitsValue(s) as int)
  {
    if |s| > 0 && (s[0] == '-' || s[0] == '+') then
      var body := s[1..];
      if body != [] && AllDigits(body) then
        Some(if s[0] == '-' then -(DigitsValue(body) as int) else DigitsValue(body) as int)
      else None
    else if s != [] && AllDigits(s) then Some(DigitsValue(s))
    else None
  }

  lemma {:induction false} ShowNatDigits(n: nat)
    ensures ShowNat(n) != [] && AllDigits(ShowNat(n))
    ensures DigitsValue(ShowNat(n)) == n
    decreases n
  {
    var s := ShowNat(n);
    assert DigitValue(DigitChar(n % 10)) == n % 10;
    if n >= 10 {
      ShowNatDigits(n / 10);
      assert s[..|s| - 1] == ShowNat(n / 10);
    }
  }

  /** Reading back what `Show` writes gives the original integer. */
  lemma ParseShow(n: int)
    ensures ParseInt(Show(n)) == Some(n)
  {
    ShowNatDigits(if n < 0 then -n else n);
    if n < 0 {
      assert Show(n)[1..] == ShowNat(-n);
    }
  }

  /** Distinct integers are written differently. */
  lemma ShowDistinct(a: int, b: int)
    requires a != b
    ensures Show(a) != Show(b)
  {
    ParseShow(a);
    ParseShow(b);
  }

  /** `Show` writes only digits and a leading minus sign. */
  lemma ShowAlphabet(n: int)
    ensures forall k :: 0 <= k < |Show(n)| ==> IsDigit(Show(n)[k]) || Show(n)[k] == '-'
  {
    ShowNatDigits(if n < 0 then -n else n);
  }
}
