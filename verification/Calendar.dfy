/** Months as they are written, the months next to them, and the instant a month starts at in a time zone. */
module Calendar {
  import opened Common
  import opened Decimals
  import TargetProgress
  import Numerals

  // ---- months ----

  /** A year of four digits that does not start with a nought, a hyphen, and a month from 01 to 12. */
  predicate IsMonth(s: string) {
    && |s| == 7 && AllDigits(s[..4]) && s[0] != '0' && s[4] == '-' && AllDigits(s[5..])
    && 1 <= Value(s[5..]) <= 12
  }

  type CalendarMonth = s: string | IsMonth(s) ghost witness First()

  lemma FirstIsMonth()
    ensures IsMonth("1000-01")
  {
    var year, month := "1000-01"[..4], "1000-01"[5..];
    EachIsDigit(year);
    EachIsDigit(month);
    assert month == "01" && month[..1] == "0" && month[..1][..0] == "";
  }

  ghost function First(): (m: string)
    ensures IsMonth(m)
  {
    FirstIsMonth();
    "1000-01"
  }

  function YearOf(m: CalendarMonth): nat {
    Value(m[..4])
  }

  function MonthOf(m: CalendarMonth): nat {
    Value(m[5..])
  }

  /** Months counted from the year nought on. */
  function IndexOf(m: CalendarMonth): nat {
    YearOf(m) * 12 + MonthOf(m)
  }

  const EARLIEST := 1000 * 12 + 1
  const LATEST := 9999 * 12 + 12

  function MonthWritten(year: nat, month: nat): string {
    Digits(year) + "-" + Padded(Digits(month), 2)
  }

  /** None where the source refuses the string: it names no month that can be written. */
  function Checked(s: string): Option<CalendarMonth> {
    if IsMonth(s) then Some(s) else None
  }

  function Next(m: CalendarMonth): Option<CalendarMonth> {
    Checked(if MonthOf(m) == 12 then MonthWritten(YearOf(m) + 1, 1) else MonthWritten(YearOf(m), MonthOf(m) + 1))
  }

  function Previous(m: CalendarMonth): Option<CalendarMonth> {
    Checked(if MonthOf(m) == 1 then (if YearOf(m) == 0 then [] else MonthWritten(YearOf(m) - 1, 12))
            else MonthWritten(YearOf(m), MonthOf(m) - 1))
  }

  function MonthsInclusive(from: CalendarMonth, to: CalendarMonth): int {
    var n := IndexOf(to) - IndexOf(from) + 1;
    if n > 1 then n else 1
  }

  /** A month is written as four digits that do not begin with a nought, a hyphen, and two that count from one to twelve. */
  lemma MonthIsSpelled(s: string)
    ensures IsMonth(s) <==>
              && |s| == 7 && Numerals.Digital(s[..4]) && s[0] != '0' && s[4] == '-' && Numerals.Digital(s[5..])
              && 1 <= Numerals.Numeral(s[5..]) <= 12
    ensures IsMonth(s) ==> YearOf(s) == Numerals.Numeral(s[..4]) && MonthOf(s) == Numerals.Numeral(s[5..])
  {
    if |s| == 7 {
      Numerals.DigitalIsAll(s[..4]);
      Numerals.DigitalIsAll(s[5..]);
      if Numerals.Digital(s[..4]) && Numerals.Digital(s[5..]) {
        Numerals.ValueIsNumeral(s[..4]);
        Numerals.ValueIsNumeral(s[5..]);
      }
    }
  }

  /** How strings compare: at the first place they differ. */
  predicate Less(a: string, b: string) {
    b != [] && (a == [] || a[0] < b[0] || (a[0] == b[0] && Less(a[1..], b[1..])))
  }

  lemma {:induction false} ValueIsBelow(s: string)
    requires AllDigits(s)
    ensures Value(s) < Pow10(|s|)
  {
    if s != [] {
      ValueIsBelow(s[..|s| - 1]);
    }
  }

  lemma AtLeastOnce(d: nat, p: nat)
    requires d >= 1
    ensures d * p >= p
  {
    assert d * p == (d - 1) * p + p;
  }

  lemma FirstDigitDecides(x: nat, y: nat, p: nat, v: nat, w: nat)
    requires v < p && x < y
    ensures x * p + v < y * p + w
  {
    AtLeastOnce(y - x, p);
    assert (y - x) * p == y * p - x * p;
  }

  lemma OneDigit(c: char)
    requires IsDigit(c)
    ensures AllDigits([c]) && Value([c]) == DigitOf(c)
  {
    assert [c][..0] == [];
  }

  lemma {:induction false} FirstDigit(s: string)
    requires AllDigits(s) && s != []
    ensures AllDigits(s[1..]) && IsDigit(s[0]) && Value(s) == DigitOf(s[0]) * Pow10(|s[1..]|) + Value(s[1..])
  {
    EachIsDigit(s);
    EachIsDigit(s[1..]);
    OneDigit(s[0]);
    ValueOfBoth([s[0]], s[1..]);
    assert s == [s[0]] + s[1..];
  }

  /** Digits of one length compare as the numbers they are. */
  lemma {:induction false} LessIsSmaller(a: string, b: string)
    requires AllDigits(a) && AllDigits(b) && |a| == |b|
    ensures Less(a, b) <==> Value(a) < Value(b)
    ensures a == b <==> Value(a) == Value(b)
  {
    if a != [] {
      FirstDigit(a);
      FirstDigit(b);
      LessIsSmaller(a[1..], b[1..]);
      ValueIsBelow(a[1..]);
      ValueIsBelow(b[1..]);
      var x, y, p := DigitOf(a[0]), DigitOf(b[0]), Pow10(|a[1..]|);
      if x < y {
        FirstDigitDecides(x, y, p, Value(a[1..]), Value(b[1..]));
      } else if y < x {
        FirstDigitDecides(y, x, p, Value(b[1..]), Value(a[1..]));
      }
      assert a == [a[0]] + a[1..] && b == [b[0]] + b[1..];
    }
  }

  lemma {:induction false} LessByParts(a: string, x: string, b: string, y: string)
    requires |a| == |b|
    ensures Less(a + x, b + y) <==> Less(a, b) || (a == b && Less(x, y))
  {
    if a == [] {
      assert a + x == x && b + y == y;
    } else {
      LessByParts(a[1..], x, b[1..], y);
      assert (a + x)[1..] == a[1..] + x && (b + y)[1..] == b[1..] + y;
      assert a == [a[0]] + a[1..] && b == [b[0]] + b[1..];
    }
  }

  /** Months written out come before one another as strings exactly as they do in time. */
  lemma {:induction false} MonthsCompareAsStrings(a: CalendarMonth, b: CalendarMonth)
    ensures Less(a, b) <==> IndexOf(a) < IndexOf(b)
    ensures a == b <==> IndexOf(a) == IndexOf(b)
  {
    LessByParts(a[..4], a[4..], b[..4], b[4..]);
    LessByParts("-", a[5..], "-", b[5..]);
    assert a == a[..4] + a[4..] && b == b[..4] + b[4..];
    assert a[4..] == "-" + a[5..] && b[4..] == "-" + b[5..];
    assert !Less("-", "-");
    LessIsSmaller(a[..4], b[..4]);
    LessIsSmaller(a[5..], b[5..]);
  }

  lemma {:induction false} YearHasFourDigits(year: nat)
    ensures |Digits(year)| == 4 <==> 1000 <= year <= 9999
    ensures |Digits(year)| < 4 <==> year < 1000
  {
    DigitsFit(year, 3);
    DigitsFit(year, 4);
    assert Pow10(3) == 1000 && Pow10(4) == 10000;
  }

  lemma {:induction false} MonthHasTwoDigits(month: nat)
    requires 1 <= month <= 12
    ensures |Padded(Digits(month), 2)| == 2 && AllDigits(Padded(Digits(month), 2)) && Value(Padded(Digits(month), 2)) == month
  {
    DigitsAreDigits(month);
    PaddedIsWorth(Digits(month), 2);
    DigitsFit(month, 2);
    assert Pow10(2) == 100;
  }

  lemma WrittenIsMonth(year: nat, month: nat)
    requires 1 <= month <= 12
    ensures var s := MonthWritten(year, month);
            (IsMonth(s) <==> 1000 <= year <= 9999) && (IsMonth(s) ==> IndexOf(s) == year * 12 + month)
  {
    var s := MonthWritten(year, month);
    YearHasFourDigits(year);
    MonthHasTwoDigits(month);
    DigitsAreDigits(year);
    if |Digits(year)| == 4 {
      assert s[..4] == Digits(year) && s[5..] == Padded(Digits(month), 2);
    }
  }

  lemma YearIsInRange(m: CalendarMonth)
    ensures 1000 <= YearOf(m) <= 9999
  {
    EachIsDigit(m[..4]);
    DigitsOfValue(m[..4]);
    YearHasFourDigits(YearOf(m));
  }

  /** The next month is one later, and there is one after every month but the last that can be written. */
  lemma NextIsOneLater(m: CalendarMonth)
    ensures Next(m).None? <==> IndexOf(m) == LATEST
    ensures Next(m).Some? ==> IndexOf(Next(m).value) == IndexOf(m) + 1
  {
    YearIsInRange(m);
    WrittenIsMonth(YearOf(m) + 1, 1);
    if MonthOf(m) < 12 {
      WrittenIsMonth(YearOf(m), MonthOf(m) + 1);
    }
  }

  lemma PreviousIsOneEarlier(m: CalendarMonth)
    ensures Previous(m).None? <==> IndexOf(m) == EARLIEST
    ensures Previous(m).Some? ==> IndexOf(Previous(m).value) == IndexOf(m) - 1
  {
    YearIsInRange(m);
    WrittenIsMonth(YearOf(m) - 1, 12);
    if MonthOf(m) > 1 {
      WrittenIsMonth(YearOf(m), MonthOf(m) - 1);
    }
  }

  /** Going on and coming back, or the other way, ends where it began. */
  lemma NextAndPrevious(m: CalendarMonth)
    ensures Next(m).Some? ==> Previous(Next(m).value) == Some(m)
    ensures Previous(m).Some? ==> Next(Previous(m).value) == Some(m)
  {
    NextIsOneLater(m);
    PreviousIsOneEarlier(m);
    YearIsInRange(m);
    if Next(m).Some? {
      var n := Next(m).value;
      PreviousIsOneEarlier(n);
      MonthsCompareAsStrings(Previous(n).value, m);
    }
    if Previous(m).Some? {
      var p := Previous(m).value;
      NextIsOneLater(p);
      MonthsCompareAsStrings(Next(p).value, m);
    }
  }

  /** Counting the months of a goal in strings and in indices is the same count. */
  lemma {:induction false} MonthsAreCounted(from: CalendarMonth, to: CalendarMonth)
    ensures MonthsInclusive(from, to) == TargetProgress.MonthsInclusive(IndexOf(from), IndexOf(to))
    ensures MonthsInclusive(from, to) == 1 <==> !Less(from, to)
  {
    MonthsCompareAsStrings(from, to);
  }

  // ---- the instant a month starts at ----

  const DAY := 86400000

  /** A zone's offset at every instant, in milliseconds. */
  type Zone = int -> int

  /** The three instants that would read the wanted wall clock with the offset of a day before, then, and of a day after. */
  function Candidate(zone: Zone, wanted: int, shift: int): int {
    wanted - zone(wanted + shift)
  }

  function Candidates(zone: Zone, wanted: int): seq<int> {
    [Candidate(zone, wanted, -DAY), Candidate(zone, wanted, 0), Candidate(zone, wanted, DAY)]
  }

  predicate Reads(zone: Zone, instant: int, wanted: int) {
    instant + zone(instant) == wanted
  }

  function Real(zone: Zone, wanted: int, candidates: seq<int>): seq<int> {
    if candidates == [] then []
    else
      var rest := Real(zone, wanted, candidates[1..]);
      if wanted - zone(candidates[0]) == candidates[0] then [candidates[0]] + rest else rest
  }

  function Least(s: seq<int>): int
    requires s != []
  {
    if |s| == 1 || s[0] <= Least(s[1..]) then s[0] else Least(s[1..])
  }

  function Greatest(s: seq<int>): int
    requires s != []
  {
    if |s| == 1 || s[0] >= Greatest(s[1..]) then s[0] else Greatest(s[1..])
  }

  function MonthStartInstant(zone: Zone, wanted: int): int {
    var candidates := Candidates(zone, wanted);
    var readers := Real(zone, wanted, candidates);
    if readers != [] then Least(readers) else Greatest(candidates)
  }

  lemma {:induction false} RealAreThoseThatRead(zone: Zone, wanted: int, candidates: seq<int>, t: int)
    ensures t in Real(zone, wanted, candidates) <==> t in candidates && Reads(zone, t, wanted)
  {
    if candidates != [] {
      RealAreThoseThatRead(zone, wanted, candidates[1..], t);
      assert t in candidates <==> t == candidates[0] || t in candidates[1..];
    }
  }

  lemma {:induction false} LeastIsLeast(s: seq<int>, t: int)
    requires s != []
    ensures Least(s) in s && (t in s ==> Least(s) <= t)
  {
    if |s| > 1 {
      LeastIsLeast(s[1..], t);
      assert t in s <==> t == s[0] || t in s[1..];
    }
  }

  /** Offsets stay below a day, and within two days around the wanted wall clock the zone changes once at most. */
  ghost predicate OneChange(zone: Zone, wanted: int, change: int, before: int, after: int) {
    && (forall t :: -DAY < zone(t) < DAY)
    && (forall t | wanted - 2 * DAY < t < wanted + 2 * DAY :: zone(t) == if t < change then before else after)
  }

  lemma CandidatesAre(zone: Zone, wanted: int, change: int, before: int, after: int)
    requires OneChange(zone, wanted, change, before, after)
    ensures var c := Candidates(zone, wanted);
            && c[0] == wanted - (if wanted - DAY < change then before else after)
            && c[1] == wanted - (if wanted < change then before else after)
            && c[2] == wanted - (if wanted + DAY < change then before else after)
    ensures -DAY < zone(wanted - DAY) < DAY && -DAY < zone(wanted) < DAY && -DAY < zone(wanted + DAY) < DAY
  {
    assert zone(wanted + -DAY) == zone(wanted - DAY);
  }

  /** An instant that reads the wanted wall clock is one of the candidates. */
  lemma ReadersAreCandidates(zone: Zone, wanted: int, change: int, before: int, after: int, t: int)
    requires OneChange(zone, wanted, change, before, after) && Reads(zone, t, wanted)
    ensures t in Candidates(zone, wanted)
  {
    CandidatesAre(zone, wanted, change, before, after);
    assert -DAY < zone(t) < DAY;
    var c := Candidates(zone, wanted);
    assert c[0] in c && c[1] in c && c[2] in c;
  }

  /**
   When some instant reads midnight of the first, the month starts at the earliest of them; when the clocks skip it,
   at an instant from the skip on, past every instant that reads earlier than midnight.
   */
  lemma MonthStartsAtMidnight(zone: Zone, wanted: int, change: int, before: int, after: int, t: int)
    requires OneChange(zone, wanted, change, before, after)
    ensures var start := MonthStartInstant(zone, wanted);
            && (Reads(zone, t, wanted) ==> Reads(zone, start, wanted) && start <= t)
            && (!Reads(zone, start, wanted) ==> before < after && change <= start == wanted - before && start + zone(start) > wanted)
  {
    var candidates := Candidates(zone, wanted);
    var readers := Real(zone, wanted, candidates);
    RealAreThoseThatRead(zone, wanted, candidates, t);
    if Reads(zone, t, wanted) {
      ReadersAreCandidates(zone, wanted, change, before, after, t);
    }
    if readers != [] {
      LeastIsLeast(readers, t);
      RealAreThoseThatRead(zone, wanted, candidates, Least(readers));
    } else {
      CandidatesAre(zone, wanted, change, before, after);
      forall k | 0 <= k < 3
        ensures !Reads(zone, candidates[k], wanted)
      {
        RealAreThoseThatRead(zone, wanted, candidates, candidates[k]);
      }
      SkippedMidnight(zone, wanted, change, before, after);
    }
  }

  /** With midnight skipped the latest candidate keeps the offset from before the skip. */
  lemma SkippedMidnight(zone: Zone, wanted: int, change: int, before: int, after: int)
    requires OneChange(zone, wanted, change, before, after)
    requires forall k | 0 <= k < 3 :: !Reads(zone, Candidates(zone, wanted)[k], wanted)
    ensures var start := Greatest(Candidates(zone, wanted));
            before < after && change <= start == wanted - before && start + zone(start) > wanted
  {
    CandidatesAre(zone, wanted, change, before, after);
    var c := Candidates(zone, wanted);
    assert !Reads(zone, c[0], wanted) && !Reads(zone, c[1], wanted) && !Reads(zone, c[2], wanted);
    GreatestOfThree(c[0], c[1], c[2]);
    assert c == [c[0], c[1], c[2]];
  }

  lemma GreatestOfThree(x: int, y: int, z: int)
    ensures var g := Greatest([x, y, z]);
            g >= x && g >= y && g >= z && (g == x || g == y || g == z)
  {
    assert [x, y, z][1..] == [y, z] && [y, z][1..] == [z];
    assert Greatest([z]) == z;
    var h := Greatest([y, z]);
    assert h >= y && h >= z && (h == y || h == z);
  }
}
