/** Numbers put together digit by digit: how they are spelled, what they are worth, and that just these are read. */
module Numerals {
  import opened Common
  import opened Decimals
  import opened Amounts
  import opened Expressions

  // ---- the characters, one by one ----

  const DIGITS_UP := "0123456789"

  const BLANKS :=
    "\U{0009}\U{000A}\U{000B}\U{000C}\U{000D}\U{0020}\U{00A0}\U{1680}\U{2000}\U{2001}\U{2002}\U{2003}\U{2004}\U{2005}\U{2006}"
    + "\U{2007}\U{2008}\U{2009}\U{200A}\U{2028}\U{2029}\U{202F}\U{205F}\U{3000}\U{FEFF}"

  lemma BlankIsListed(c: char)
    ensures IsSpace(c) <==> c in BLANKS
  {
    if IsSpace(c) {
      var n := c as int;
      var at := if n <= 13 then n - 9 else if n == 32 then 5 else if n == 0xA0 then 6 else if n == 0x1680 then 7
        else if n <= 0x200A then n - 0x2000 + 8 else if n <= 0x2029 then n - 0x2028 + 19
        else if n == 0x202F then 21 else if n == 0x205F then 22 else if n == 0x3000 then 23 else 24;
      assert |BLANKS| == 25;
      assert BLANKS[at] == c;
    }
  }

  lemma SignsAreListed(c: char)
    ensures IsDigit(c) <==> c in DIGITS_UP
    ensures IsSign(c) <==> c in "+-\U{2212}"
    ensures IsMinus(c) <==> c in "-\U{2212}"
    ensures IsOp(c) <==> c in "*/"
  {
    if IsDigit(c) {
      assert DIGITS_UP[c as int - '0' as int] == c;
    }
  }

  // ---- what digits are worth ----

  function Place(c: char): nat {
    match c
    case '1' => 1
    case '2' => 2
    case '3' => 3
    case '4' => 4
    case '5' => 5
    case '6' => 6
    case '7' => 7
    case '8' => 8
    case '9' => 9
    case _ => 0
  }

  /** The first digit counts ten times as often for every digit behind it. */
  function Numeral(s: string): nat {
    if s == "" then 0 else Place(s[0]) * Tens(|s| - 1) + Numeral(s[1..])
  }

  function Tens(n: nat): nat {
    if n == 0 then 1 else Tens(n - 1) * 10
  }

  predicate Digital(s: string) {
    forall i | 0 <= i < |s| :: s[i] in DIGITS_UP
  }

  lemma {:induction false} TensArePowers(n: nat)
    ensures Tens(n) == Pow10(n)
  {
    if n > 0 {
      TensArePowers(n - 1);
    }
  }

  lemma {:induction false} DigitalIsAll(s: string)
    ensures Digital(s) <==> AllDigits(s)
  {
    EachIsDigit(s);
    forall i | 0 <= i < |s|
      ensures IsDigit(s[i]) <==> s[i] in DIGITS_UP
    {
      SignsAreListed(s[i]);
    }
  }

  lemma OneDigit(c: char)
    requires c in DIGITS_UP
    ensures AllDigits([c]) && Value([c]) == Place(c)
  {
    SignsAreListed(c);
    assert Value([c][..0]) == 0;
    assert [c][..0] == [];
  }

  /** Read from the front or from the back, digits are worth the same. */
  lemma {:induction false} ValueIsNumeral(s: string)
    requires Digital(s)
    ensures AllDigits(s) && Value(s) == Numeral(s)
  {
    DigitalIsAll(s);
    if s != [] {
      assert s[0] in DIGITS_UP;
      OneDigit(s[0]);
      ValueIsNumeral(s[1..]);
      ValueOfBoth([s[0]], s[1..]);
      TensArePowers(|s| - 1);
      assert s == [s[0]] + s[1..];
    }
  }

  // ---- wholes in groups ----

  datatype Triple = Triple(mark: char, digits: string)

  /** Blanks group in every locale, and so does the locale's own mark. */
  predicate Separates(c: char, m: Marks) {
    c in BLANKS || m.group == Some(c)
  }

  predicate AreTriples(triples: seq<Triple>, m: Marks) {
    forall i | 0 <= i < |triples| :: Separates(triples[i].mark, m) && |triples[i].digits| == 3 && Digital(triples[i].digits)
  }

  function TriplesText(triples: seq<Triple>): string {
    if triples == [] then "" else [triples[0].mark] + triples[0].digits + TriplesText(triples[1..])
  }

  function TriplesDigits(triples: seq<Triple>): string {
    if triples == [] then "" else triples[0].digits + TriplesDigits(triples[1..])
  }

  /** Digits in a row, or one to three of them and behind each separator three more. */
  predicate IsSpelling(head: string, triples: seq<Triple>, m: Marks) {
    Digital(head) && head != "" && AreTriples(triples, m) && (triples != [] ==> |head| <= 3)
  }

  lemma SeparatesIs(c: char, m: Marks)
    ensures Separates(c, m) <==> IsSeparator(c, m)
  {
    BlankIsListed(c);
  }

  lemma {:induction false} TriplesAreGroups(triples: seq<Triple>, m: Marks)
    requires AreTriples(triples, m) && triples != []
    ensures Groups(TriplesText(triples), m)
  {
    var t, text, rest := triples[0], TriplesText(triples), TriplesText(triples[1..]);
    SeparatesIs(t.mark, m);
    DigitalIsAll(t.digits);
    assert text[1..4] == t.digits && text[4..] == rest;
    if |triples| > 1 {
      TriplesAreGroups(triples[1..], m);
    } else {
      assert rest == "";
    }
  }

  lemma {:induction false} OneMoreTriple(first: Triple, rest: seq<Triple>, m: Marks)
    requires Separates(first.mark, m) && |first.digits| == 3 && Digital(first.digits) && AreTriples(rest, m)
    ensures AreTriples([first] + rest, m) && TriplesText([first] + rest) == [first.mark] + first.digits + TriplesText(rest)
  {
    assert ([first] + rest)[1..] == rest;
  }

  lemma {:induction false} FirstOfGroups(s: string, m: Marks)
    requires Groups(s, m)
    ensures |s| >= 4 && Separates(s[0], m) && Digital(s[1..4]) && (|s| > 4 ==> Groups(s[4..], m))
  {
    SeparatesIs(s[0], m);
    DigitalIsAll(s[1..4]);
  }

  lemma TakenApart(s: string)
    requires |s| >= 4
    ensures [s[0]] + s[1..4] + s[4..] == s
  {
  }

  lemma {:induction false} GroupsAreTriples(s: string, m: Marks) returns (triples: seq<Triple>)
    requires Groups(s, m)
    ensures AreTriples(triples, m) && triples != [] && TriplesText(triples) == s
    decreases |s|
  {
    FirstOfGroups(s, m);
    TakenApart(s);
    var rest := [];
    if |s| > 4 {
      rest := GroupsAreTriples(s[4..], m);
    }
    OneMoreTriple(Triple(s[0], s[1..4]), rest, m);
    triples := [Triple(s[0], s[1..4])] + rest;
  }

  lemma {:induction false} SpellingIsWhole(head: string, triples: seq<Triple>, m: Marks)
    requires IsSpelling(head, triples, m)
    ensures IsWhole(head + TriplesText(triples), m)
  {
    DigitalIsAll(head);
    var w := head + TriplesText(triples);
    if triples == [] {
      assert w == head;
    } else {
      TriplesAreGroups(triples, m);
      assert w[..|head|] == head && w[|head|..] == TriplesText(triples);
    }
  }

  lemma {:induction false} PlainIsSpelled(w: string, m: Marks)
    requires w != [] && AllDigits(w)
    ensures IsSpelling(w, [], m) && w == w + TriplesText([])
  {
    DigitalIsAll(w);
  }

  lemma Halves(w: string, k: nat)
    requires k <= |w|
    ensures w[..k] + w[k..] == w
  {
  }

  lemma GroupedIsSpelled(w: string, k: nat, m: Marks) returns (triples: seq<Triple>)
    requires 1 <= k <= 3 && k < |w| && AllDigits(w[..k]) && Groups(w[k..], m)
    ensures IsSpelling(w[..k], triples, m) && w == w[..k] + TriplesText(triples)
  {
    DigitalIsAll(w[..k]);
    Halves(w, k);
    triples := GroupsAreTriples(w[k..], m);
  }

  /** What is taken for a whole number is just what can be spelled so. */
  lemma WholeIsSpelled(w: string, m: Marks) returns (head: string, triples: seq<Triple>)
    requires IsWhole(w, m)
    ensures IsSpelling(head, triples, m) && w == head + TriplesText(triples)
  {
    if w != [] && AllDigits(w) {
      head, triples := w, [];
      PlainIsSpelled(w, m);
    } else {
      var k: nat :| 1 <= k <= 3 && k < |w| && AllDigits(w[..k]) && Groups(w[k..], m);
      head := w[..k];
      triples := GroupedIsSpelled(w, k, m);
    }
  }

  ghost predicate IsSpelled(w: string, m: Marks) {
    exists head, triples :: IsSpelling(head, triples, m) && w == head + TriplesText(triples)
  }

  /** The pattern for whole numbers takes what can be spelled, and nothing else. */
  lemma WholesAreSpelled(w: string, m: Marks)
    ensures IsWhole(w, m) <==> IsSpelled(w, m)
  {
    if IsWhole(w, m) {
      var head, triples := WholeIsSpelled(w, m);
    }
    if IsSpelled(w, m) {
      var head, triples :| IsSpelling(head, triples, m) && w == head + TriplesText(triples);
      SpellingIsWhole(head, triples, m);
    }
  }

  lemma NoDigitIn(c: char, m: Marks)
    requires Separates(c, m)
    ensures !IsDigit(c)
  {
    SeparatesIs(c, m);
  }

  lemma {:induction false} DigitsOfTriples(triples: seq<Triple>, m: Marks)
    requires AreTriples(triples, m)
    ensures OnlyDigits(TriplesText(triples)) == TriplesDigits(triples) && Digital(TriplesDigits(triples))
  {
    if triples != [] {
      var t := triples[0];
      NoDigitIn(t.mark, m);
      DigitalIsAll(t.digits);
      DigitsAreAll(t.digits);
      DigitsOfTriples(triples[1..], m);
      assert OnlyDigits([t.mark][..0]) == [];
      assert OnlyDigits([t.mark]) == [];
      DigitsOfBoth([t.mark], t.digits);
      DigitsOfBoth([t.mark] + t.digits, TriplesText(triples[1..]));
    }
  }

  // ---- numbers ----

  datatype Spelling = Spelling(head: string, triples: seq<Triple>, point: char, fraction: string)

  /** The locale's own decimal mark, and the plain point wherever the locale does not group with it. */
  predicate Points(c: char, m: Marks) {
    c == m.decimal || (c == '.' && m.group != Some('.'))
  }

  predicate IsNumeral(n: Spelling, m: Marks) {
    && (if n.head == "" then n.triples == [] && n.fraction != "" else IsSpelling(n.head, n.triples, m))
    && Digital(n.fraction) && Points(n.point, m)
  }

  function NumeralText(n: Spelling): string {
    n.head + TriplesText(n.triples) + if n.fraction == "" then "" else [n.point] + n.fraction
  }

  function NumeralDigits(n: Spelling): string {
    n.head + TriplesDigits(n.triples) + n.fraction
  }

  lemma PointsAreMarks(c: char, m: Marks)
    ensures Points(c, m) <==> c in DecimalMarks(m)
  {
  }

  ghost function NumberOf(n: Spelling): Number {
    Number(n.head + TriplesText(n.triples), n.point, n.fraction)
  }

  lemma FractionIsNumber(n: Spelling, m: Marks)
    requires IsNumeral(n, m) && n.head == ""
    ensures IsNumber(NumberOf(n), m) && Written(NumberOf(n)) == Numeral(NumeralDigits(n))
  {
    PointsAreMarks(n.point, m);
    ValueIsNumeral(n.fraction);
    assert NumberOf(n).whole == [];
    assert NumeralDigits(n) == n.fraction;
    assert OnlyDigits([]) + n.fraction == n.fraction;
  }

  lemma {:induction false} WholeDigits(head: string, triples: seq<Triple>, m: Marks)
    requires IsSpelling(head, triples, m)
    ensures OnlyDigits(head + TriplesText(triples)) == head + TriplesDigits(triples) && Digital(head + TriplesDigits(triples))
  {
    DigitalIsAll(head);
    DigitsAreAll(head);
    DigitsOfTriples(triples, m);
    DigitsOfBoth(head, TriplesText(triples));
    DigitalJoined(head, TriplesDigits(triples));
  }

  lemma WholeIsNumber(n: Spelling, m: Marks)
    requires IsNumeral(n, m) && n.head != ""
    ensures IsNumber(NumberOf(n), m) && Written(NumberOf(n)) == Numeral(NumeralDigits(n))
  {
    PointsAreMarks(n.point, m);
    DigitalIsAll(n.fraction);
    SpellingIsWhole(n.head, n.triples, m);
    WholeDigits(n.head, n.triples, m);
    DigitalJoined(n.head + TriplesDigits(n.triples), n.fraction);
    ValueIsNumeral(NumeralDigits(n));
  }

  lemma NumeralIsNumber(n: Spelling, m: Marks)
    requires IsNumeral(n, m)
    ensures IsNumber(NumberOf(n), m) && Written(NumberOf(n)) == Numeral(NumeralDigits(n))
  {
    if n.head == "" {
      FractionIsNumber(n, m);
    } else {
      WholeIsNumber(n, m);
    }
  }

  lemma DigitalJoined(a: string, b: string)
    requires Digital(a) && Digital(b)
    ensures Digital(a + b)
  {
  }

  // ---- reading them ----

  /** A number by itself, with or without a sign and with blanks around it. */
  predicate IsAlone(sign: string) {
    sign == "" || sign == "+" || sign == "-" || sign == "\U{2212}"
  }

  predicate AreBlanks(s: string) {
    forall i | 0 <= i < |s| :: s[i] in BLANKS
  }

  lemma BlanksAreBlank(s: string)
    requires AreBlanks(s)
    ensures Blank(s)
  {
    forall c | c in s
      ensures IsSpace(c)
    {
      BlankIsListed(c);
    }
  }

  lemma {:induction false} NumeralMeans(n: Number, digits: nat)
    requires AllDigits(n.fraction) && |n.fraction| <= digits
    ensures MeaningOf(Product(n, []), digits) == Minor(Written(n) * Pow10(digits - |n.fraction|), true, false)
  {
    FirstIsExact(n, digits);
    WholeStays(Written(n) * Pow10(digits - |n.fraction|));
  }

  lemma SignIsListed(sign: string)
    requires IsAlone(sign)
    ensures sign == [] || (|sign| == 1 && IsSign(sign[0]))
    ensures sign != [] ==> (IsMinus(sign[0]) <==> sign != "+")
  {
    if sign != "" {
      SignsAreListed(sign[0]);
    }
  }

  ghost function ReadAs(minor: nat, fits: bool, sign: string, signed: bool): Amount {
    if !fits then Faulty(DIGITS, true, false)
    else if sign == "" || sign == "+" then Minor(minor, true, false)
    else if minor > 0 && !signed then Faulty(NEGATIVE, true, false)
    else Minor(-(minor as int), true, false)
  }

  lemma LoneIsSum(sign: string, n: Number, m: Marks)
    requires IsNumber(n, m) && IsAlone(sign)
    ensures IsSum([Item([], sign, [], Product(n, []))], m) && SumText([Item([], sign, [], Product(n, []))]) == sign + NumberText(n)
  {
    SignIsListed(sign);
    OneItemText(Item([], sign, [], Product(n, [])));
  }

  lemma {:induction false} LoneSumMeans(sign: string, n: Number, digits: nat, m: Marks)
    requires IsNumber(n, m) && IsAlone(sign)
    ensures var it := Item([], sign, [], Product(n, []));
            Spelled(it.product) && SumMeaning([it], digits, 0) ==
              if |n.fraction| > digits then Faulty(DIGITS, true, false)
              else Minor(Counted(sign != "" && sign != "+", Written(n) * Pow10(digits - |n.fraction|)), true, false)
  {
    var it := Item([], sign, [], Product(n, []));
    SignIsListed(sign);
    assert [it][1..] == [];
    if |n.fraction| <= digits {
      NumeralMeans(n, digits);
      OneItem(it, digits, Written(n) * Pow10(digits - |n.fraction|));
    }
  }

  lemma {:induction false} ReadsLone(before: string, sign: string, n: Number, after: string, digits: nat, m: Marks, signed: bool)
    requires IsNumber(n, m) && IsAlone(sign) && Blank(before) && Blank(after)
    ensures Spelled(Product(n, []))
    ensures AmountOf(before + (sign + NumberText(n)) + after, digits, m, signed)
         == Allowed(SumMeaning([Item([], sign, [], Product(n, []))], digits, 0), signed)
  {
    var it := Item([], sign, [], Product(n, []));
    LoneIsSum(sign, n, m);
    ReadsWhatIsMeant(before, [it], after, digits, m, signed);
    assert it in [it];
  }

  lemma AllowedIs(minor: nat, sign: string, signed: bool)
    requires IsAlone(sign)
    ensures Allowed(Minor(Counted(sign != "" && sign != "+", minor), true, false), signed) == ReadAs(minor, true, sign, signed)
  {
  }

  /** What a lone number is worth in minor units, as long as it has no more minor digits than there are. */
  ghost predicate IsWorth(n: Number, digits: nat, minor: nat)
    requires AllDigits(n.fraction)
  {
    |n.fraction| <= digits ==> minor == Written(n) * Pow10(digits - |n.fraction|)
  }

  lemma {:induction false} LoneMeansMinor(sign: string, n: Number, digits: nat, m: Marks, signed: bool, minor: nat)
    requires IsNumber(n, m) && IsAlone(sign) && IsWorth(n, digits, minor)
    ensures Spelled(Product(n, []))
    ensures Allowed(SumMeaning([Item([], sign, [], Product(n, []))], digits, 0), signed)
         == ReadAs(minor, |n.fraction| <= digits, sign, signed)
  {
    LoneSumMeans(sign, n, digits, m);
    AllowedIs(minor, sign, signed);
  }

  function MinorOf(n: Spelling, digits: nat): nat {
    Numeral(NumeralDigits(n)) * Tens(if |n.fraction| <= digits then digits - |n.fraction| else 0)
  }

  lemma {:induction false} MinorIs(n: Spelling, digits: nat)
    requires |n.fraction| <= digits
    ensures MinorOf(n, digits) == Numeral(NumeralDigits(n)) * Pow10(digits - |n.fraction|)
  {
    TensArePowers(digits - |n.fraction|);
  }

  lemma WrittenAs(n: Spelling, m: Marks)
    requires IsNumeral(n, m)
    ensures AllDigits(n.fraction) && Written(NumberOf(n)) == Numeral(NumeralDigits(n))
  {
    NumeralIsNumber(n, m);
  }

  lemma MinorIsWorth(n: Spelling, number: Number, digits: nat)
    requires AllDigits(number.fraction) && |number.fraction| == |n.fraction| && Written(number) == Numeral(NumeralDigits(n))
    ensures IsWorth(number, digits, MinorOf(n, digits))
  {
    if |n.fraction| <= digits {
      MinorIs(n, digits);
    }
  }

  lemma NumeralIsWorth(n: Spelling, digits: nat, m: Marks)
    requires IsNumeral(n, m)
    ensures AllDigits(n.fraction) && IsWorth(NumberOf(n), digits, MinorOf(n, digits))
  {
    WrittenAs(n, m);
    MinorIsWorth(n, NumberOf(n), digits);
  }

  lemma NumeralTextIs(n: Spelling)
    ensures NumberText(NumberOf(n)) == NumeralText(n)
  {
  }

  /**
   A number alone is read as its digits in minor units, whichever of its marks the point is and however its whole is
   grouped; it is refused for more minor digits than there are, or for being below zero where no sign is taken.
   */
  lemma ReadsNumeral(before: string, sign: string, n: Spelling, after: string, digits: nat, m: Marks, signed: bool)
    requires IsNumeral(n, m) && IsAlone(sign) && AreBlanks(before) && AreBlanks(after)
    ensures AmountOf(before + (sign + NumeralText(n)) + after, digits, m, signed)
         == ReadAs(MinorOf(n, digits), |n.fraction| <= digits, sign, signed)
  {
    NumeralIsNumber(n, m);
    BlanksAreBlank(before);
    BlanksAreBlank(after);
    NumeralTextIs(n);
    ReadsLone(before, sign, NumberOf(n), after, digits, m, signed);
    NumeralIsWorth(n, digits, m);
    LoneMeansMinor(sign, NumberOf(n), digits, m, signed, MinorOf(n, digits));
  }

  lemma ReadsBareNumeral(n: Spelling, digits: nat, m: Marks, signed: bool)
    requires IsNumeral(n, m)
    ensures AmountOf(NumeralText(n), digits, m, signed)
         == if |n.fraction| > digits then Faulty(DIGITS, true, false) else Minor(MinorOf(n, digits), true, false)
  {
    ReadsNumeral("", "", n, "", digits, m, signed);
    assert "" + ("" + NumeralText(n)) + "" == NumeralText(n);
  }

  lemma PointedPlainly(n: Spelling, digits: nat, m: Marks)
    requires m.group != Some('.') && IsNumeral(n, m)
    ensures var plain := n.(point := '.');
            IsNumeral(plain, m) && plain.fraction == n.fraction && MinorOf(plain, digits) == MinorOf(n, digits)
  {
  }

  /** A plain point is read as the locale's own mark, unless the locale groups with the point. */
  lemma PlainPointIsTaken(n: Spelling, digits: nat, m: Marks, signed: bool)
    requires m.group != Some('.') && IsNumeral(n, m) && n.point == m.decimal
    ensures AmountOf(NumeralText(n.(point := '.')), digits, m, signed) == AmountOf(NumeralText(n), digits, m, signed)
  {
    var plain := n.(point := '.');
    PointedPlainly(n, digits, m);
    ReadsBareNumeral(plain, digits, m, signed);
    ReadsBareNumeral(n, digits, m, signed);
  }

  // ---- nothing else is read ----

  /** A term as it can be typed: a whole or nothing, and behind a point some digits or none yet. */
  ghost predicate IsTyped(body: string, whole: string, tail: string, digits: nat, m: Marks) {
    && body == whole + tail
    && (whole == "" || IsSpelled(whole, m))
    && (tail == "" || (Points(tail[0], m) && Digital(tail[1..]) && |tail| - 1 <= digits))
  }

  lemma {:induction false} IndexFinds(s: string, c: char)
    ensures IndexOf(s, c) < |s| <==> c in s
    ensures IndexOf(s, c) < |s| ==> s[IndexOf(s, c)] == c
  {
    if s != [] && s[0] != c {
      IndexFinds(s[1..], c);
      assert c in s <==> c in s[1..];
    }
  }

  lemma {:induction false} SplitsOnce(s: string, c: char)
    requires c in s && |SplitOn(s, c)| <= 2
    ensures |SplitOn(s, c)| == 2 && s == SplitOn(s, c)[0] + [c] + SplitOn(s, c)[1]
  {
    var k := IndexOf(s, c);
    IndexFinds(s, c);
    IndexFinds(s[k + 1..], c);
    Around(s, k);
  }

  lemma Around(s: string, k: nat)
    requires k < |s|
    ensures s == s[..k] + [s[k]] + s[k + 1..]
  {
  }

  lemma {:induction false} NoPointIn(whole: string, fraction: string, c: char, m: Marks)
    requires (whole == [] || IsWhole(whole, m)) && AllDigits(fraction) && Points(c, m)
    ensures c !in whole && c !in fraction
  {
    PointsAreMarks(c, m);
    if whole != [] {
      NoMarksInDigits(Number(whole, c, fraction), m, c);
    } else {
      EachIsDigit(fraction);
    }
  }

  lemma {:induction false} CutsAtItsPoint(whole: string, c: char, fraction: string, m: Marks)
    requires (whole == [] || IsWhole(whole, m)) && AllDigits(fraction) && Points(c, m)
    ensures CutBody(whole + [c] + fraction, m) == Cut(whole, fraction, 2)
  {
    forall d | Points(d, m)
      ensures d !in whole && d !in fraction
    {
      NoPointIn(whole, fraction, d, m);
    }
    PointsAreMarks(c, m);
    PointsAreMarks(m.decimal, m);
    PointsAreMarks('.', m);
    SplitInTwo(whole, c, fraction);
    assert c in whole + [c] + fraction;
  }

  lemma CutsNowhere(whole: string, m: Marks)
    requires IsWhole(whole, m)
    ensures CutBody(whole, m) == Cut(whole, [], 1)
  {
    forall d | Points(d, m)
      ensures d !in whole
    {
      NoPointIn(whole, [], d, m);
    }
    PointsAreMarks(m.decimal, m);
    PointsAreMarks('.', m);
  }

  lemma WholeIsRead(whole: string, digits: nat, m: Marks)
    requires IsWhole(whole, m)
    ensures MinorsOf(CutBody(whole, m), digits, m).Minor?
  {
    CutsNowhere(whole, m);
  }

  lemma {:induction false} PointedIsRead(whole: string, c: char, fraction: string, digits: nat, m: Marks)
    requires (whole == [] || IsWhole(whole, m)) && AllDigits(fraction) && Points(c, m) && |fraction| <= digits
    ensures MinorsOf(CutBody(whole + [c] + fraction, m), digits, m).Minor?
  {
    CutsAtItsPoint(whole, c, fraction, m);
  }

  lemma HeadAndRest(whole: string, tail: string)
    requires tail != ""
    ensures whole + tail == whole + [tail[0]] + tail[1..]
  {
  }

  lemma TypedIsRead(body: string, whole: string, tail: string, digits: nat, m: Marks)
    requires body != "" && IsTyped(body, whole, tail, digits, m)
    ensures MinorsOf(CutBody(body, m), digits, m).Minor?
  {
    if whole != "" {
      WholesAreSpelled(whole, m);
    }
    if tail == "" {
      assert body == whole;
      WholeIsRead(whole, digits, m);
    } else {
      DigitalIsAll(tail[1..]);
      HeadAndRest(whole, tail);
      PointedIsRead(whole, tail[0], tail[1..], digits, m);
    }
  }

  /** Where a term is cut, and what it is cut into. */
  lemma CutIsSuch(body: string, m: Marks)
    requires CutBody(body, m).parts <= 2
    ensures var cut := CutBody(body, m);
            if cut.parts < 2 then body == cut.whole && cut.fraction == []
            else exists c | Points(c, m) :: body == cut.whole + [c] + cut.fraction
  {
    var marks := DecimalMarks(m);
    PointsAreMarks(m.decimal, m);
    PointsAreMarks('.', m);
    if marks[0] in body {
      SplitsOnce(body, marks[0]);
      PointsAreMarks(marks[0], m);
    } else if |marks| > 1 && marks[1] in body {
      SplitsOnce(body, marks[1]);
      PointsAreMarks(marks[1], m);
    }
  }

  lemma PointThenFraction(whole: string, c: char, fraction: string)
    ensures var tail := [c] + fraction; tail[0] == c && tail[1..] == fraction && whole + tail == whole + [c] + fraction
  {
  }

  lemma ReadIsSuch(cut: Cut, digits: nat, m: Marks)
    requires MinorsOf(cut, digits, m).Minor?
    ensures cut.parts <= 2 && (cut.whole == "" || IsSpelled(cut.whole, m)) && Digital(cut.fraction) && |cut.fraction| <= digits
  {
    if cut.whole != "" {
      WholesAreSpelled(cut.whole, m);
    }
    DigitalIsAll(cut.fraction);
  }

  lemma ReadIsTyped(body: string, digits: nat, m: Marks) returns (whole: string, tail: string)
    requires MinorsOf(CutBody(body, m), digits, m).Minor?
    ensures IsTyped(body, whole, tail, digits, m)
  {
    var cut := CutBody(body, m);
    ReadIsSuch(cut, digits, m);
    CutIsSuch(body, m);
    whole := cut.whole;
    if cut.parts < 2 {
      tail := "";
    } else {
      var c :| Points(c, m) && body == whole + [c] + cut.fraction;
      tail := [c] + cut.fraction;
      PointThenFraction(whole, c, cut.fraction);
    }
  }

  /** A term is read if and only if, the blanks around it aside, it is spelled so; every other is refused. */
  lemma JustTypedTermsAreRead(raw: string, digits: nat, m: Marks)
    requires Trim(raw) != ""
    ensures TermOf(raw, digits, m).Minor? <==> exists whole, tail :: IsTyped(Trim(raw), whole, tail, digits, m)
  {
    var body := Trim(raw);
    if TermOf(raw, digits, m).Minor? {
      var whole, tail := ReadIsTyped(body, digits, m);
    }
    if whole, tail :| IsTyped(body, whole, tail, digits, m) {
      TypedIsRead(body, whole, tail, digits, m);
    }
  }

  // ---- a sum that is still being typed ----

  lemma {:induction false} SignEnds(s: string, sign: char)
    requires IsSign(sign)
    ensures SignAt(s + [sign]) == SignAt(s)
  {
    if s != [] && !IsSign(s[0]) {
      SignEnds(s[1..], sign);
      assert (s + [sign])[1..] == s[1..] + [sign];
    }
  }

  lemma SignAlone(sign: char)
    ensures Pieces([sign]) == [[sign]]
  {
  }

  lemma CutWithMore(s: Piece, sign: char, k: nat)
    requires 0 < k <= |s|
    ensures (s + [sign])[1..] == s[1..] + [sign] && (s + [sign])[..k] == s[..k] && (s + [sign])[k..] == s[k..] + [sign]
  {
  }

  lemma {:induction false} SignCutsOff(s: Piece, sign: char)
    requires IsSign(sign)
    ensures Pieces(s + [sign]) == Pieces(s) + [[sign]]
    decreases |s|
  {
    var k := 1 + SignAt(s[1..]);
    SignEnds(s[1..], sign);
    CutWithMore(s, sign, k);
    if k == |s| {
      SignAlone(sign);
      assert s[k..] + [sign] == [sign];
      assert s[..k] == s;
      assert Pieces(s + [sign]) == [s] + Pieces([sign]);
    } else {
      SignCutsOff(s[k..], sign);
      assert Pieces(s + [sign]) == [s[..k]] + (Pieces(s[k..]) + [[sign]]);
    }
  }

  lemma {:induction false} SumGoesOn(terms: seq<Signed>, last: Signed, total: int, partial: bool)
    ensures SumOf(terms + [last], total, partial) ==
              var sum := SumOf(terms, total, partial);
              if sum.Faulty? then sum else SumOf([last], sum.minor, sum.partial)
    decreases |terms|
  {
    if terms == [] {
      assert terms + [last] == [last];
    } else {
      assert (terms + [last])[1..] == terms[1..] + [last];
      if !terms[0].read.Faulty? {
        SumGoesOn(terms[1..], last, total + Counted(terms[0].negative, terms[0].read.minor), partial || terms[0].read.partial);
      }
    }
  }

  lemma NothingYet(digits: nat, m: Marks)
    ensures ProductOf([], digits, m) == Minor(0, true, true)
  {
  }

  lemma {:induction false} SignedOfMore(pieces: seq<Piece>, last: Piece, digits: nat, m: Marks)
    ensures SignedOfAll(pieces + [last], digits, m) == SignedOfAll(pieces, digits, m) + [SignedOf(last, digits, m)]
  {
    assert (pieces + [last])[..|pieces|] == pieces;
  }

  /** A sign at the end adds nothing yet: the sum so far is read, and marked as unfinished. */
  lemma {:induction false} UnfinishedSum(s: Piece, sign: char, digits: nat, m: Marks)
    requires IsSign(sign)
    ensures SumOf(SignedOfAll(Pieces(s + [sign]), digits, m), 0, false) ==
              var sum := SumOf(SignedOfAll(Pieces(s), digits, m), 0, false);
              if sum.Faulty? then sum else Minor(sum.minor, true, true)
  {
    var terms, last := SignedOfAll(Pieces(s), digits, m), SignedOf([sign], digits, m);
    SignCutsOff(s, sign);
    SignedOfMore(Pieces(s), [sign], digits, m);
    NothingYet(digits, m);
    assert Unsigned([sign]) == [];
    SumGoesOn(terms, last, 0, false);
    assert [last][1..] == [];
  }

  // ---- nothing, and factors ----

  lemma {:induction false} BlanksAreTrimmed(s: string)
    requires AreBlanks(s)
    ensures TrimStart(s) == []
  {
    if s != [] {
      BlankIsListed(s[0]);
      BlanksAreTrimmed(s[1..]);
    }
  }

  /** Blanks alone are nothing typed yet. */
  lemma NothingTyped(raw: string, digits: nat, m: Marks, signed: bool)
    requires AreBlanks(raw)
    ensures AmountOf(raw, digits, m, signed) == Minor(0, false, false)
    ensures TermOf(raw, digits, m) == Minor(0, true, true)
  {
    BlanksAreTrimmed(raw);
  }

  /** What can stand behind a sign of operation: as a term, with any number of minor digits, but not nothing. */
  ghost predicate IsTypedFactor(body: string, whole: string, tail: string, m: Marks) {
    && body == whole + tail && (whole == "" ==> |tail| > 1)
    && (whole == "" || IsSpelled(whole, m))
    && (tail == "" || (Points(tail[0], m) && Digital(tail[1..])))
  }

  lemma FactorIsSuch(raw: string, m: Marks)
    ensures var cut := CutBody(Trim(raw), m);
            FactorOf(raw, m).Some? <==>
              cut.parts <= 2 && (if cut.whole == "" then cut.fraction != "" else IsSpelled(cut.whole, m)) && Digital(cut.fraction)
  {
    var cut := CutBody(Trim(raw), m);
    if cut.whole != "" {
      WholesAreSpelled(cut.whole, m);
    }
    DigitalIsAll(cut.fraction);
  }

  lemma FactorIsTyped(raw: string, m: Marks) returns (whole: string, tail: string)
    requires FactorOf(raw, m).Some?
    ensures IsTypedFactor(Trim(raw), whole, tail, m)
  {
    var cut := CutBody(Trim(raw), m);
    FactorIsSuch(raw, m);
    CutIsSuch(Trim(raw), m);
    whole := cut.whole;
    if cut.parts < 2 {
      tail := "";
    } else {
      var c :| Points(c, m) && Trim(raw) == whole + [c] + cut.fraction;
      tail := [c] + cut.fraction;
      PointThenFraction(whole, c, cut.fraction);
    }
  }

  lemma TypedIsFactor(raw: string, whole: string, tail: string, m: Marks)
    requires IsTypedFactor(Trim(raw), whole, tail, m)
    ensures FactorOf(raw, m).Some?
  {
    if whole != "" {
      WholesAreSpelled(whole, m);
    }
    if tail == "" {
      assert Trim(raw) == whole;
      CutsNowhere(whole, m);
    } else {
      DigitalIsAll(tail[1..]);
      HeadAndRest(whole, tail);
      CutsAtItsPoint(whole, tail[0], tail[1..], m);
    }
    FactorIsSuch(raw, m);
  }

  /** A factor is read if and only if it is spelled so; a product with any other is refused. */
  lemma JustTypedFactorsAreRead(raw: string, m: Marks)
    ensures FactorOf(raw, m).Some? <==> exists whole, tail :: IsTypedFactor(Trim(raw), whole, tail, m)
  {
    if FactorOf(raw, m).Some? {
      var whole, tail := FactorIsTyped(raw, m);
    }
    if whole, tail :| IsTypedFactor(Trim(raw), whole, tail, m) {
      TypedIsFactor(raw, whole, tail, m);
    }
  }

  /** A product that begins with a sign of operation is refused, whatever follows. */
  lemma NothingToWorkOn(before: string, op: char, rest: string, digits: nat, m: Marks)
    requires AreBlanks(before) && IsOp(op)
    ensures ProductOf(before + [op] + rest, digits, m) == MISSHAPEN
  {
    forall c | c in before
      ensures !IsOp(c)
    {
      BlankIsListed(c);
    }
    NextLink(before, op, rest);
    BlanksAreTrimmed(before);
  }

  // ---- what is written ----

  /** The digits of a number as they are written: no nought in front of others. */
  predicate IsWritten(digits: string, n: nat) {
    digits != "" && Digital(digits) && Numeral(digits) == n && (|digits| > 1 ==> digits[0] != '0')
  }

  lemma {:induction false} DigitsAreWritten(n: nat)
    ensures IsWritten(Digits(n), n)
  {
    DigitsAreDigits(n);
    DigitalIsAll(Digits(n));
    ValueIsNumeral(Digits(n));
    DigitsFit(n, 1);
  }

  /** An amount on the wire is its digits, with a hyphen in front of one below zero. */
  lemma MoneyIsWritten(value: int) returns (digits: string)
    ensures IsWritten(digits, if value < 0 then -value else value)
    ensures SerializeMoney(value) == if value < 0 then "-" + digits else digits
  {
    digits := Digits(if value < 0 then -value else value);
    DigitsAreWritten(if value < 0 then -value else value);
  }

  lemma {:induction false} NoughtsInFront(whole: string, fraction: string, n: nat, digits: nat)
    requires whole + fraction == Padded(Digits(n), digits + 1) && |fraction| == digits
    ensures Digital(whole) && Digital(fraction) && Numeral(whole + fraction) == n && whole != ""
    ensures |whole| > 1 ==> whole[0] != '0'
  {
    DigitsAreDigits(n);
    PaddedIsWorth(Digits(n), digits + 1);
    DigitalIsAll(whole + fraction);
    ValueIsNumeral(whole + fraction);
    DigitalPart(whole, fraction);
    DigitsFit(n, 1);
    if |whole| > 1 {
      assert |Digits(n)| > digits + 1;
      assert whole[0] == Digits(n)[0];
    }
  }

  lemma DigitalPart(a: string, b: string)
    requires Digital(a + b)
    ensures Digital(a) && Digital(b)
  {
    assert forall i | 0 <= i < |a| :: a[i] == (a + b)[i];
    assert forall i | 0 <= i < |b| :: b[i] == (a + b)[|a| + i];
  }

  /** The parts of what is written without its sign. */
  ghost predicate ArePartsOf(n: nat, digits: nat, whole: string, fraction: string) {
    && whole != "" && Digital(whole) && Digital(fraction) && |fraction| == digits && (|whole| > 1 ==> whole[0] != '0')
    && Numeral(whole + fraction) == n
  }

  lemma {:induction false} WholeIsWritten(n: nat)
    ensures ArePartsOf(n, 0, Digits(n), "") && Pointed(n, 0) == Digits(n) + ""
  {
    DigitsAreWritten(n);
    assert Digits(n) + "" == Digits(n);
  }

  lemma PointedIsWritten(n: nat, digits: nat) returns (whole: string, fraction: string)
    requires digits > 0
    ensures ArePartsOf(n, digits, whole, fraction) && Pointed(n, digits) == whole + ("." + fraction)
  {
    var padded := Padded(Digits(n), digits + 1);
    PaddedIsWorthEnough(n, digits);
    whole, fraction := padded[..|padded| - digits], padded[|padded| - digits..];
    Halves(padded, |padded| - digits);
    NoughtsInFront(whole, fraction, n, digits);
    Joined(whole, ".", fraction);
  }

  /** A decimal is written with just its minor digits behind the point, and no point where there are none. */
  lemma DecimalIsWritten(value: int, digits: nat) returns (whole: string, fraction: string)
    ensures ArePartsOf(if value < 0 then -value else value, digits, whole, fraction)
    ensures ToDecimalString(value, digits)
         == (if value < 0 then "-" else "") + whole + (if digits == 0 then "" else "." + fraction)
  {
    var n: nat := if value < 0 then -value else value;
    if digits == 0 {
      whole, fraction := Digits(n), "";
      WholeIsWritten(n);
      SignedText(value, n, digits, whole, "");
    } else {
      whole, fraction := PointedIsWritten(n, digits);
      SignedText(value, n, digits, whole, "." + fraction);
    }
  }

  lemma SignedText(value: int, n: nat, digits: nat, whole: string, tail: string)
    requires n == (if value < 0 then -value else value) && Pointed(n, digits) == whole + tail
    ensures ToDecimalString(value, digits) == (if value < 0 then "-" else "") + whole + tail
  {
    Joined(if value < 0 then "-" else "", whole, tail);
    assert "" + (whole + tail) == whole + tail;
  }

  lemma {:induction false} PaddedIsWorthEnough(n: nat, digits: nat)
    ensures |Padded(Digits(n), digits + 1)| >= digits + 1
  {
    DigitsAreDigits(n);
    PaddedIsWorth(Digits(n), digits + 1);
  }

  lemma NoPointInDigits(sign: string, whole: string)
    requires Digital(whole) && (sign == "" || sign == "-")
    ensures '.' !in sign + whole
  {
    assert '.' !in DIGITS_UP;
  }

  lemma LocalizedDecimal(sign: string, whole: string, fraction: string, mark: char)
    requires Digital(whole) && (sign == "" || sign == "-")
    ensures Localized(sign + whole + "", mark) == sign + whole + ""
    ensures Localized(sign + whole + ("." + fraction), mark) == sign + whole + ([mark] + fraction)
  {
    NoPointInDigits(sign, whole);
    PointIsLocalized(sign + whole, fraction, mark);
    Joined(sign + whole, ".", fraction);
    Joined(sign + whole, [mark], fraction);
    assert sign + whole + "" == sign + whole;
  }

  lemma Joined(a: string, b: string, c: string)
    ensures a + (b + c) == a + b + c
  {
  }

  /** An amount is offered for editing as its decimal with the locale's own mark. */
  lemma TypedIsWritten(minor: int, digits: nat, m: Marks) returns (whole: string, fraction: string)
    ensures ArePartsOf(if minor < 0 then -minor else minor, digits, whole, fraction)
    ensures Typed(minor, digits, m)
         == (if minor < 0 then "-" else "") + whole + (if digits == 0 then "" else [m.decimal] + fraction)
  {
    whole, fraction := DecimalIsWritten(minor, digits);
    LocalizedDecimal(if minor < 0 then "-" else "", whole, fraction, m.decimal);
  }

  // ---- which decimals are parsed ----

  predicate IsDecimal(input: string, sign: string, whole: string, tail: string, digits: nat) {
    && input == sign + whole + tail && (sign == "" || sign == "-")
    && whole != "" && Digital(whole)
    && (tail == "" || (tail[0] == '.' && 1 < |tail| <= digits + 1 && Digital(tail[1..])))
  }

  lemma UnsignedIsParsed(whole: string, tail: string, digits: nat)
    requires IsDecimal(whole + tail, "", whole, tail, digits)
    ensures ParseDecimalString(whole + tail, digits).Parsed? && whole + tail != [] && (whole + tail)[0] != '-'
  {
    var fraction := if tail == "" then "" else tail[1..];
    DigitalIsAll(whole);
    DigitalIsAll(fraction);
    EachIsDigit(whole);
    DecimalIsWorth(whole, fraction, digits);
    if tail == "" {
      assert whole + tail == whole;
    } else {
      HeadAndRest(whole, tail);
      assert [tail[0]] == ".";
    }
    assert (whole + tail)[0] == whole[0];
  }

  lemma DecimalIsParsed(input: string, sign: string, whole: string, tail: string, digits: nat)
    requires IsDecimal(input, sign, whole, tail, digits)
    ensures ParseDecimalString(input, digits).Parsed?
  {
    Joined(sign, whole, tail);
    assert "" + whole + tail == whole + tail;
    UnsignedIsParsed(whole, tail, digits);
    if sign == "-" {
      MinusIsNegative(whole + tail, digits);
    } else {
      assert "" + (whole + tail) == whole + tail;
    }
  }

  lemma BodyIsDecimal(body: string, digits: nat)
    requires var point := IndexOf(body, '.');
             var whole, fraction := body[..point], if point < |body| then body[point + 1..] else [];
             && whole != [] && AllDigits(whole) && AllDigits(fraction) && !(point < |body| && fraction == []) && |fraction| <= digits
    ensures IsDecimal(body, "", body[..IndexOf(body, '.')], body[IndexOf(body, '.')..], digits)
  {
    var point := IndexOf(body, '.');
    IndexFinds(body, '.');
    Halves(body, point);
    DigitalIsAll(body[..point]);
    if point < |body| {
      DigitalIsAll(body[point + 1..]);
      assert body[point..][1..] == body[point + 1..];
    }
    assert "" + body[..point] + body[point..] == body[..point] + body[point..];
  }

  lemma SignInFront(input: string)
    requires input != [] && input[0] == '-'
    ensures input == "-" + input[1..]
  {
  }

  lemma ParsedIsDecimal(input: string, digits: nat) returns (sign: string, whole: string, tail: string)
    requires ParseDecimalString(input, digits).Parsed?
    ensures IsDecimal(input, sign, whole, tail, digits)
  {
    sign := if input != [] && input[0] == '-' then "-" else "";
    var body := if sign == "-" then input[1..] else input;
    var point := IndexOf(body, '.');
    BodyIsDecimal(body, digits);
    whole, tail := body[..point], body[point..];
    Joined(sign, whole, tail);
    Joined("", whole, tail);
    assert "" + (whole + tail) == whole + tail;
    if sign == "-" {
      SignInFront(input);
    }
  }

  /** A decimal is parsed if and only if it is digits, behind a hyphen or not, and behind a point one or more but not too many. */
  lemma JustDecimalsAreParsed(input: string, digits: nat)
    ensures ParseDecimalString(input, digits).Parsed? <==>
              exists sign, whole, tail :: IsDecimal(input, sign, whole, tail, digits)
  {
    if ParseDecimalString(input, digits).Parsed? {
      var sign, whole, tail := ParsedIsDecimal(input, digits);
    }
    if sign, whole, tail :| IsDecimal(input, sign, whole, tail, digits) {
      DecimalIsParsed(input, sign, whole, tail, digits);
    }
  }
}
