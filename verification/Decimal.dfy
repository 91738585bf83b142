/** Printing and parsing decimal numbers: fmt's %d for naturals and strconv.Atoi. */
module Decimal {
  import opened Common

  const MAX_INT: int := 0x7fff_ffff_ffff_ffff

  function Digit(d: nat): (ch: char)
    requires d < 10
    ensures '0' <= ch <= '9'
  {
    ('0' as int + d) as char
  }

  predicate IsDigit(ch: char) {
    '0' <= ch <= '9'
  }

  predicate AllDigits(s: string) {
    forall i :: 0 <= i < |s| ==> IsDigit(s[i])
  }

  function Dec(n: nat): (s: string)
    ensures s != "" && AllDigits(s)
  {
    if n < 10 then [Digit(n)] else Dec(n / 10) + [Digit(n % 10)]
  }

  function Value(s: string): nat
    requires AllDigits(s)
  {
    if s == "" then 0 else 10 * Value(s[..|s| - 1]) + (s[|s| - 1] as int - '0' as int)
  }

  /** strconv.Atoi: an optional sign, then at least one digit, then the int64 range. */
  function Atoi(s: string): Option<int> {
    var signed := s != "" && (s[0] == '-' || s[0] == '+');
    var digits := if signed then s[1..] else s;
    if digits == "" || !AllDigits(digits) then None else
      var v: int := Value(digits) as int * (if signed && s[0] == '-' then -1 else 1);
      if -MAX_INT - 1 <= v <= MAX_INT then Some(v) else None
  }

  lemma {:induction false} ValueOfDec(n: nat)
    ensures Value(Dec(n)) == n
  {
    if n >= 10 {
      ValueOfDec(n / 10);
      assert Dec(n)[..|Dec(n)| - 1] == Dec(n / 10);
    }
  }

  lemma DecInjective(m: nat, n: nat)
    requires Dec(m) == Dec(n)
    ensures m == n
  {
    ValueOfDec(m);
    ValueOfDec(n);
  }

  /** Parsing what was printed gives it back, as far as int64 goes; beyond, parsing fails. */
  lemma AtoiOfDec(n: nat)
    ensures Atoi(Dec(n)) == if n <= MAX_INT then Some(n) else None
  {
    ValueOfDec(n);
    assert IsDigit(Dec(n)[0]);
  }

  function Zeros(k: nat): (s: string)
    ensures |s| == k && forall i :: 0 <= i < k ==> s[i] == '0'
  {
    seq(k, i => '0')
  }

  /** An optional sign, any number of leading zeros, and the printed number: what stands for v. */
  ghost predicate Numeral(s: string, v: int) {
    exists sign: string, k: nat :: IsNumeral(s, v, sign, k)
  }

  predicate IsNumeral(s: string, v: int, sign: string, k: nat) {
    && s == sign + (Zeros(k) + Dec(if v < 0 then -v else v))
    && ((sign == "-" && v <= 0) || ((sign == "" || sign == "+") && v >= 0))
  }

  lemma {:induction false} LeadingZeros(k: nat, s: string)
    requires AllDigits(s)
    ensures AllDigits(Zeros(k) + s) && Value(Zeros(k) + s) == Value(s)
    decreases k + |s|
  {
    var all := Zeros(k) + s;
    if s != "" {
      assert all[..|all| - 1] == Zeros(k) + s[..|s| - 1];
      LeadingZeros(k, s[..|s| - 1]);
    } else if k > 0 {
      assert all[..k - 1] == Zeros(k - 1) + "";
      LeadingZeros(k - 1, "");
    }
  }

  /** One more digit after leading zeros and a printed number makes another such. */
  lemma OneMoreDigit(k: nat, v: nat, x: nat) returns (j: nat)
    requires x < 10
    ensures Zeros(k) + Dec(v) + [Digit(x)] == Zeros(j) + Dec(10 * v + x)
  {
    if v == 0 {
      j := k + 1;
      assert Dec(0) == "0" && Dec(x) == [Digit(x)] && Zeros(k) + "0" == Zeros(k + 1);
    } else {
      j := k;
      assert Dec(10 * v + x) == Dec(v) + [Digit(x)];
    }
  }

  /** Digits are leading zeros and a printed number. */
  lemma {:induction false} DigitsAreNumeral(s: string) returns (k: nat)
    requires s != "" && AllDigits(s)
    ensures s == Zeros(k) + Dec(Value(s))
    decreases |s|
  {
    var n := |s| - 1;
    var x := s[n] as int - '0' as int;
    assert s == s[..n] + [Digit(x)];
    if n == 0 {
      assert Value(s[..n]) == 0;
      return 0;
    }
    k := DigitsAreNumeral(s[..n]);
    k := OneMoreDigit(k, Value(s[..n]), x);
  }

  /** Atoi takes exactly the numerals of int64 numbers. */
  lemma AtoiIff(s: string, v: int)
    ensures Atoi(s) == Some(v) <==> Numeral(s, v) && -MAX_INT - 1 <= v <= MAX_INT
  {
    if Atoi(s) == Some(v) {
      TakesNumerals(s, v);
    }
    forall sign: string, k: nat | IsNumeral(s, v, sign, k) && -MAX_INT - 1 <= v <= MAX_INT
      ensures Atoi(s) == Some(v)
    {
      NumeralsAreTaken(s, v, sign, k);
    }
  }

  lemma TakesNumerals(s: string, v: int)
    requires Atoi(s) == Some(v)
    ensures Numeral(s, v)
  {
    var signed := s[0] == '-' || s[0] == '+';
    var sign, digits := if signed then s[..1] else "", if signed then s[1..] else s;
    var k := DigitsAreNumeral(digits);
    assert s == sign + digits;
    assert Value(digits) == if v < 0 then -v else v;
    assert IsNumeral(s, v, sign, k);
  }

  lemma NumeralsAreTaken(s: string, v: int, sign: string, k: nat)
    requires IsNumeral(s, v, sign, k) && -MAX_INT - 1 <= v <= MAX_INT
    ensures Atoi(s) == Some(v)
  {
    var n: nat := if v < 0 then -v else v;
    var digits := Zeros(k) + Dec(n);
    LeadingZeros(k, Dec(n));
    ValueOfDec(n);
    assert IsDigit(digits[0]) && !IsDigit('-') && !IsDigit('+');
    if sign == "" {
      assert s == digits;
    } else {
      assert s[0] == sign[0] && s[1..] == digits;
    }
  }
}
