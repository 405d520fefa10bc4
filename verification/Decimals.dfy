/** Amounts of minor units on the wire and as decimals: the strings they are written as and read back from. */
module Decimals {

  predicate IsDigit(c: char) {
    '0' <= c <= '9'
  }

  predicate AllDigits(s: string) {
    s == [] || (IsDigit(s[|s| - 1]) && AllDigits(s[..|s| - 1]))
  }

  function DigitOf(c: char): nat
    requires IsDigit(c)
  {
    c as int - '0' as int
  }

  function DigitChar(d: nat): (c: char)
    requires d < 10
    ensures IsDigit(c) && DigitOf(c) == d
  {
    '0' + d as char
  }

  function Pow10(n: nat): (p: nat)
    ensures p > 0
  {
    if n == 0 then 1 else 10 * Pow10(n - 1)
  }

  /** What a run of digits is worth; none at all is worth nothing. */
  function Value(s: string): nat
    requires AllDigits(s)
  {
    if s == [] then 0 else 10 * Value(s[..|s| - 1]) + DigitOf(s[|s| - 1])
  }

  /** The digits of a number, without leading zeros. */
  function Digits(n: nat): string {
    if n < 10 then [DigitChar(n)] else Digits(n / 10) + [DigitChar(n % 10)]
  }

  function Zeros(n: nat): string {
    seq(n, i => '0')
  }

  lemma {:induction false} DigitsJoin(a: string, b: string)
    ensures AllDigits(a + b) <==> AllDigits(a) && AllDigits(b)
  {
    if b == [] {
      assert a + b == a;
    } else {
      DigitsJoin(a, b[..|b| - 1]);
      assert (a + b)[..|a + b| - 1] == a + b[..|b| - 1];
    }
  }

  lemma {:induction false} EachIsDigit(s: string)
    ensures AllDigits(s) <==> forall i | 0 <= i < |s| :: IsDigit(s[i])
  {
    if s != [] {
      var front := s[..|s| - 1];
      EachIsDigit(front);
      assert forall i | 0 <= i < |s| - 1 :: front[i] == s[i];
    }
  }

  lemma TenTimes(x: nat, y: nat)
    ensures x * (10 * y) == 10 * (x * y)
  {
  }

  lemma {:induction false} ValueOfBoth(a: string, b: string)
    requires AllDigits(a) && AllDigits(b)
    ensures AllDigits(a + b) && Value(a + b) == Value(a) * Pow10(|b|) + Value(b)
  {
    if b == [] {
      assert a + b == a;
    } else {
      var front := b[..|b| - 1];
      ValueOfBoth(a, front);
      assert (a + b)[..|a + b| - 1] == a + front;
      TenTimes(Value(a), Pow10(|front|));
    }
  }

  lemma {:induction false} ValueOfZeros(n: nat)
    ensures AllDigits(Zeros(n)) && Value(Zeros(n)) == 0
  {
    if n > 0 {
      ValueOfZeros(n - 1);
      assert Zeros(n)[..n - 1] == Zeros(n - 1);
    }
  }

  lemma {:induction false} DigitsAreDigits(n: nat)
    ensures Digits(n) != [] && AllDigits(Digits(n)) && Value(Digits(n)) == n
    ensures Digits(n)[0] == '0' <==> n == 0
  {
    if n >= 10 {
      DigitsAreDigits(n / 10);
      assert Digits(n)[..|Digits(n)| - 1] == Digits(n / 10);
    }
  }

  lemma {:induction false} DigitsOfValue(s: string)
    requires AllDigits(s) && s != [] && (s[0] == '0' ==> |s| == 1)
    ensures Digits(Value(s)) == s
  {
    if |s| == 1 {
      assert Value(s[..0]) == 0;
      assert s == [s[0]];
    } else {
      var front := s[..|s| - 1];
      DigitsOfValue(front);
      ValueIsPositive(front);
      assert s == front + [s[|s| - 1]];
    }
  }

  lemma {:induction false} ValueIsPositive(s: string)
    requires AllDigits(s) && s != [] && s[0] != '0'
    ensures Value(s) > 0
  {
    if |s| == 1 {
      assert Value(s[..0]) == 0;
    } else {
      ValueIsPositive(s[..|s| - 1]);
    }
  }

  /** A number has as many digits as it takes. */
  lemma {:induction false} DigitsFit(n: nat, k: nat)
    requires k > 0
    ensures |Digits(n)| <= k <==> n < Pow10(k)
  {
    if n < 10 {
      TenOrMore(k);
    } else if k == 1 {
      assert Pow10(1) == 10 * Pow10(0);
    } else {
      DigitsFit(n / 10, k - 1);
    }
  }

  lemma {:induction false} TenOrMore(k: nat)
    requires k > 0
    ensures Pow10(k) >= 10
  {
    if k > 1 {
      TenOrMore(k - 1);
    }
  }

  // ---- the wire ----

  datatype Parsed = Parsed(value: int) | Malformed

  function SerializeMoney(value: int): string {
    if value < 0 then "-" + Digits(-value) else Digits(value)
  }

  /** 0, or an optional minus before digits that do not start with a zero. */
  predicate IsMoney(s: string) {
    || s == "0"
    || (s != [] && '1' <= s[0] <= '9' && AllDigits(s))
    || (|s| > 1 && s[0] == '-' && '1' <= s[1] <= '9' && AllDigits(s[1..]))
  }

  function ParseMoney(s: string): Parsed {
    if !IsMoney(s) then Malformed
    else if s[0] == '-' then Parsed(0 - Value(s[1..])) else Parsed(Value(s))
  }

  /** Every amount is read back from what it was written as. */
  lemma MoneyIsReadBack(value: int)
    ensures ParseMoney(SerializeMoney(value)) == Parsed(value)
  {
    var n: nat := if value < 0 then -value else value;
    DigitsAreDigits(n);
    EachIsDigit(Digits(n));
    DigitsFit(n, 1);
    assert SerializeMoney(value) == if value < 0 then "-" + Digits(n) else Digits(n);
    assert value < 0 ==> SerializeMoney(value)[1..] == Digits(n);
  }

  /** Every string that is read is the one its amount is written as. */
  lemma MoneyIsCanonical(s: string)
    requires ParseMoney(s).Parsed?
    ensures SerializeMoney(ParseMoney(s).value) == s
  {
    if s[0] == '-' {
      ValueIsPositive(s[1..]);
      DigitsOfValue(s[1..]);
      assert s == "-" + s[1..];
    } else {
      DigitsOfValue(s);
    }
  }

  const MONEY_MAX := 9223372036854775807
  const MONEY_MIN := -9223372036854775808
  const MONEY_MAX_LENGTH := 20

  predicate IsStorable(value: int) {
    MONEY_MIN <= value <= MONEY_MAX
  }

  /** No amount that can be stored takes more characters than the wire allows, and the smallest takes them all. */
  lemma StorableFits(value: int)
    requires IsStorable(value)
    ensures |SerializeMoney(value)| <= MONEY_MAX_LENGTH
    ensures |SerializeMoney(MONEY_MIN)| == MONEY_MAX_LENGTH
  {
    Pow10Of19();
    DigitsFit(if value < 0 then -value else value, 19);
    DigitsFit(-MONEY_MIN, 19);
    DigitsFit(-MONEY_MIN, 18);
  }

  function Twofold(n: nat): nat {
    if n == 0 then 1 else 2 * Twofold(n - 1)
  }

  /** What can be stored is what a signed number of sixty-four bits holds. */
  lemma StorableIsOf64Bits(value: int)
    ensures IsStorable(value) <==> -(Twofold(63) as int) <= value < Twofold(63)
  {
    assert Twofold(8) == 256;
    assert Twofold(16) == 65536;
    assert Twofold(24) == 16777216;
    assert Twofold(32) == 4294967296;
    assert Twofold(40) == 1099511627776;
    assert Twofold(48) == 281474976710656;
    assert Twofold(56) == 72057594037927936;
  }

  lemma Pow10Of19()
    ensures Pow10(18) == 1000000000000000000 && Pow10(19) == 10000000000000000000
  {
    assert Pow10(3) == 1000;
    assert Pow10(6) == 1000000;
    assert Pow10(9) == 1000000000;
    assert Pow10(12) == 1000000000000;
    assert Pow10(15) == 1000000000000000;
  }

  // ---- decimals ----

  function Padded(s: string, length: nat): string {
    if |s| >= length then s else Zeros(length - |s|) + s
  }

  function Pointed(absolute: nat, digits: nat): string {
    if digits == 0 then Digits(absolute)
    else
      var padded := Padded(Digits(absolute), digits + 1);
      padded[..|padded| - digits] + "." + padded[|padded| - digits..]
  }

  function ToDecimalString(value: int, digits: nat): string {
    if value < 0 then "-" + Pointed(-value, digits) else Pointed(value, digits)
  }

  function IndexOf(s: string, c: char): (k: nat)
    ensures k <= |s|
  {
    if s == [] || s[0] == c then 0 else 1 + IndexOf(s[1..], c)
  }

  lemma {:induction false} FilledIsDigits(whole: string, fraction: string, n: nat)
    requires AllDigits(whole) && AllDigits(fraction)
    ensures AllDigits(whole + fraction) && AllDigits(whole + fraction + Zeros(n))
  {
    ValueOfZeros(n);
    DigitsJoin(whole, fraction);
    DigitsJoin(whole + fraction, Zeros(n));
  }

  /** Digits, and behind a point at least one more; the whole may carry a minus. */
  function ParseDecimalString(input: string, digits: nat): Parsed {
    var negative := input != [] && input[0] == '-';
    var body := if negative then input[1..] else input;
    var point := IndexOf(body, '.');
    var whole, fraction := body[..point], if point < |body| then body[point + 1..] else [];
    if whole == [] || !AllDigits(whole) || !AllDigits(fraction) || (point < |body| && fraction == []) || |fraction| > digits
    then Malformed
    else
      FilledIsDigits(whole, fraction, digits - |fraction|);
      var absolute := Value(whole + fraction + Zeros(digits - |fraction|));
      Parsed(if negative then 0 - absolute else absolute)
  }

  lemma {:induction false} IndexIs(a: string, c: char, b: string)
    requires c !in a
    ensures IndexOf(a + [c] + b, c) == |a| && IndexOf(a, c) == |a|
  {
    if a != [] {
      IndexIs(a[1..], c, b);
      assert (a + [c] + b)[1..] == a[1..] + [c] + b;
    }
  }

  /** A decimal is worth its digits without the point, times ten for every digit it does not use. */
  lemma DecimalIsWorth(whole: string, fraction: string, digits: nat)
    requires whole != [] && AllDigits(whole) && AllDigits(fraction) && |fraction| <= digits
    ensures AllDigits(whole + fraction)
    ensures ParseDecimalString(if fraction == [] then whole else whole + "." + fraction, digits)
         == Parsed(Value(whole + fraction) * Pow10(digits - |fraction|))
  {
    EachIsDigit(whole);
    DigitsJoin(whole, fraction);
    FilledIsWorth(whole, fraction, digits - |fraction|);
    IndexIs(whole, '.', fraction);
    var input := if fraction == [] then whole else whole + "." + fraction;
    assert input[..|whole|] == whole;
    if fraction != [] {
      assert input[|whole| + 1..] == fraction;
    }
  }

  lemma {:induction false} FilledIsWorth(whole: string, fraction: string, n: nat)
    requires AllDigits(whole) && AllDigits(fraction)
    ensures AllDigits(whole + fraction) && AllDigits(whole + fraction + Zeros(n))
    ensures Value(whole + fraction + Zeros(n)) == Value(whole + fraction) * Pow10(n)
  {
    DigitsJoin(whole, fraction);
    ValueOfZeros(n);
    ValueOfBoth(whole + fraction, Zeros(n));
  }

  lemma MinusIsNegative(input: string, digits: nat)
    requires input != [] && input[0] != '-' && ParseDecimalString(input, digits).Parsed?
    ensures ParseDecimalString("-" + input, digits) == Parsed(-ParseDecimalString(input, digits).value)
  {
    assert ("-" + input)[1..] == input;
  }

  lemma {:induction false} PaddedIsWorth(s: string, length: nat)
    requires AllDigits(s)
    ensures AllDigits(Padded(s, length)) && Value(Padded(s, length)) == Value(s) && |Padded(s, length)| >= length
  {
    if |s| < length {
      ValueOfZeros(length - |s|);
      ValueOfBoth(Zeros(length - |s|), s);
    }
  }

  /** The two parts of the decimal an amount is written as. */
  function Parts(n: nat, digits: nat): (string, string) {
    var padded := Padded(Digits(n), digits + 1);
    if digits == 0 || |padded| < digits then (Digits(n), "") else (padded[..|padded| - digits], padded[|padded| - digits..])
  }

  lemma PartsAreWorth(n: nat, digits: nat)
    ensures var (whole, fraction) := Parts(n, digits);
            && whole != [] && AllDigits(whole) && AllDigits(fraction) && |fraction| == digits
            && AllDigits(whole + fraction) && Value(whole + fraction) == n
            && Pointed(n, digits) == if fraction == [] then whole else whole + "." + fraction
  {
    DigitsAreDigits(n);
    PaddedIsWorth(Digits(n), digits + 1);
    var (whole, fraction) := Parts(n, digits);
    assert whole + fraction == if digits == 0 then Digits(n) else Padded(Digits(n), digits + 1);
    DigitsJoin(whole, fraction);
  }

  lemma PointedIsReadBack(n: nat, digits: nat)
    ensures ParseDecimalString(Pointed(n, digits), digits) == Parsed(n)
    ensures Pointed(n, digits) != [] && IsDigit(Pointed(n, digits)[0])
  {
    PartsAreWorth(n, digits);
    var (whole, fraction) := Parts(n, digits);
    DecimalIsWorth(whole, fraction, digits);
    EachIsDigit(whole);
    assert Pow10(0) == 1;
  }

  /** Every amount is read back from its decimal, whatever the number of minor digits. */
  lemma DecimalIsReadBack(value: int, digits: nat)
    ensures ParseDecimalString(ToDecimalString(value, digits), digits) == Parsed(value)
  {
    var n: nat := if value < 0 then -value else value;
    PointedIsReadBack(n, digits);
    if value < 0 {
      MinusIsNegative(Pointed(n, digits), digits);
    }
  }
}
