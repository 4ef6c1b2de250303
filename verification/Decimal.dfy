// strconv.Itoa and strconv.Atoi.
module Decimal {
  const MAX_INT := 0x7FFF_FFFF_FFFF_FFFF
  const MIN_INT := -0x8000_0000_0000_0000

  function DigitChar(d: nat): (c: char)
    requires d < 10
    ensures '0' <= c <= '9' && DigitValue(c) == d
  {
    '0' + d as char
  }

  function DigitValue(c: char): nat
    requires '0' <= c <= '9'
  {
    c as int - '0' as int
  }

  predicate AllDigits(s: string) {
    forall i | 0 <= i < |s| :: '0' <= s[i] <= '9'
  }

  function Digits(n: nat): (s: string)
    ensures AllDigits(s) && s != []
  {
    if n < 10 then [DigitChar(n)] else Digits(n / 10) + [DigitChar(n % 10)]
  }

  function Itoa(n: int): string {
    if n < 0 then "-" + Digits(-n) else Digits(n)
  }

  function DigitsValue(s: string): nat
    requires AllDigits(s)
  {
    if s == [] then 0 else 10 * DigitsValue(s[..|s| - 1]) + DigitValue(s[|s| - 1])
  }

  /** The outcome of strconv.Atoi: a syntax error gives 0, a range error the nearest int64. */
  datatype Parsed = Parsed(value: int, ok: bool)

  function Atoi(s: string): Parsed {
    var negative := s != [] && s[0] == '-';
    var digits := if s != [] && (s[0] == '-' || s[0] == '+') then s[1..] else s;
    if digits == [] || !AllDigits(digits) then Parsed(0, false)
    else
      var magnitude: int := DigitsValue(digits);
      var n := if negative then -magnitude else magnitude;
      if n > MAX_INT then Parsed(MAX_INT, false)
      else if n < MIN_INT then Parsed(MIN_INT, false)
      else Parsed(n, true)
  }

  lemma {:induction false} DigitsRoundTrip(n: nat)
    ensures DigitsValue(Digits(n)) == n
  {
    var s := Digits(n);
    if n < 10 {
      assert s[..0] == [];
    } else {
      assert s[..|s| - 1] == Digits(n / 10);
      DigitsRoundTrip(n / 10);
    }
  }

  lemma DigitsInjective(m: nat, n: nat)
    requires Digits(m) == Digits(n)
    ensures m == n
  {
    DigitsRoundTrip(m);
    DigitsRoundTrip(n);
  }

  lemma ItoaInjective(m: int, n: int)
    ensures Itoa(m) == Itoa(n) <==> m == n
  {
    if Itoa(m) == Itoa(n) {
      var d, d' := Digits(if m < 0 then -m else m), Digits(if n < 0 then -n else n);
      assert m < 0 <==> Itoa(m)[0] == '-';
      assert n < 0 <==> Itoa(n)[0] == '-';
      if m < 0 {
        assert Itoa(m)[1..] == d && Itoa(n)[1..] == d';
      }
      DigitsInjective(if m < 0 then -m else m, if n < 0 then -n else n);
    }
  }

  /** Atoi reads back every int64 that Itoa prints. */
  lemma AtoiItoa(n: int)
    requires MIN_INT <= n <= MAX_INT
    ensures Atoi(Itoa(n)) == Parsed(n, true)
  {
    if n < 0 {
      DigitsRoundTrip(-n);
      assert Itoa(n)[1..] == Digits(-n);
    } else {
      DigitsRoundTrip(n);
      assert '0' <= Itoa(n)[0] <= '9';
    }
  }

  // Which texts are numbers

  function Zeros(k: nat): string {
    if k == 0 then [] else Zeros(k - 1) + "0"
  }

  /** The digits of n, perhaps with zeros in front. */
  ghost predicate Digital(s: string, n: nat) {
    exists k: nat :: s == Zeros(k) + Digits(n)
  }

  /** A decimal text for n, perhaps with a sign. */
  ghost predicate Numeral(s: string, n: int) {
    || (n >= 0 && Digital(s, n))
    || (s != [] && s[0] == '+' && n >= 0 && Digital(s[1..], n))
    || (s != [] && s[0] == '-' && n <= 0 && Digital(s[1..], -n))
  }

  function Nearest(n: int): int {
    if n > MAX_INT then MAX_INT else if n < MIN_INT then MIN_INT else n
  }

  lemma {:induction false} ZerosValue(k: nat)
    ensures AllDigits(Zeros(k)) && DigitsValue(Zeros(k)) == 0
  {
    if k > 0 {
      ZerosValue(k - 1);
      assert Zeros(k)[..|Zeros(k)| - 1] == Zeros(k - 1);
    }
  }

  lemma {:induction false} PaddedValue(k: nat, n: nat)
    ensures var s := Zeros(k) + Digits(n); AllDigits(s) && DigitsValue(s) == n
  {
    var s := Zeros(k) + Digits(n);
    ZerosValue(k);
    if n < 10 {
      assert s[..|s| - 1] == Zeros(k);
    } else {
      PaddedValue(k, n / 10);
      assert s[..|s| - 1] == Zeros(k) + Digits(n / 10);
    }
  }

  lemma AppendDigit(k: nat, v: nat, d: nat)
    requires d < 10
    ensures Digital(Zeros(k) + Digits(v) + [DigitChar(d)], 10 * v + d)
  {
    if v == 0 {
      assert Zeros(k) + Digits(0) == Zeros(k + 1);
      assert Digits(d) == [DigitChar(d)];
      assert Digital(Zeros(k + 1) + Digits(d), d);
    } else {
      assert (10 * v + d) / 10 == v && (10 * v + d) % 10 == d;
      assert Zeros(k) + Digits(v) + [DigitChar(d)] == Zeros(k) + Digits(10 * v + d);
    }
  }

  lemma OneDigit(d: nat)
    requires d < 10
    ensures Digital([DigitChar(d)], d)
  {
    assert [DigitChar(d)] == Zeros(0) + Digits(d);
  }

  lemma {:induction false} ValueIsDigital(s: string)
    requires s != [] && AllDigits(s)
    ensures Digital(s, DigitsValue(s))
  {
    hide Digits, Zeros;
    var t, d := s[..|s| - 1], DigitValue(s[|s| - 1]);
    assert s == t + [DigitChar(d)];
    if t == [] {
      OneDigit(d);
    } else {
      ValueIsDigital(t);
      var k: nat :| t == Zeros(k) + Digits(DigitsValue(t));
      AppendDigit(k, DigitsValue(t), d);
    }
  }

  lemma DigitalIff(s: string, n: nat)
    ensures Digital(s, n) <==> s != [] && AllDigits(s) && DigitsValue(s) == n
  {
    if Digital(s, n) {
      var k: nat :| s == Zeros(k) + Digits(n);
      PaddedValue(k, n);
    } else if s != [] && AllDigits(s) {
      ValueIsDigital(s);
    }
  }

  /** Atoi reads numerals, out-of-range ones as the nearest int64, and nothing else. */
  lemma AtoiReads(s: string)
    ensures forall n | Numeral(s, n) :: Atoi(s) == Parsed(Nearest(n), n == Nearest(n))
    ensures (forall n: int :: !Numeral(s, n)) ==> Atoi(s) == Parsed(0, false)
  {
    hide DigitsValue, Digital;
    forall n | Numeral(s, n)
      ensures Atoi(s) == Parsed(Nearest(n), n == Nearest(n))
    {
      DigitalIff(s, if n < 0 then -n else n);
      if s != [] { DigitalIff(s[1..], if n < 0 then -n else n); }
    }
    var digits := if s != [] && (s[0] == '-' || s[0] == '+') then s[1..] else s;
    if digits != [] && AllDigits(digits) {
      var m: int := DigitsValue(digits);
      DigitalIff(digits, m);
      assert Numeral(s, if s[0] == '-' then -m else m);
    }
  }
}
