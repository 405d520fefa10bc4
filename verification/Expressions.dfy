/** What a printed sum of products means, and that reading it gives exactly that. */
module Expressions {
  import opened Common
  import opened Decimals
  import opened Amounts

  // ---- numbers ----

  /** A number as it is written: its whole, plain or in groups, and behind a decimal mark its fraction. */
  datatype Number = Number(whole: string, mark: char, fraction: string)

  predicate IsNumber(n: Number, m: Marks) {
    && (n.whole == [] || IsWhole(n.whole, m)) && AllDigits(n.fraction)
    && (n.whole != [] || n.fraction != [])
    && n.mark in DecimalMarks(m)
  }

  function NumberText(n: Number): string {
    if n.fraction == [] then n.whole else n.whole + [n.mark] + n.fraction
  }

  /** All its digits in a row. */
  function Written(n: Number): nat
    requires AllDigits(n.fraction)
  {
    DigitsJoin(OnlyDigits(n.whole), n.fraction);
    Value(OnlyDigits(n.whole) + n.fraction)
  }

  ghost predicate Blank(s: string) {
    forall c | c in s :: IsSpace(c)
  }

  /** Nothing an expression is put together with. */
  ghost predicate Bare(s: string) {
    forall c | c in s :: !IsOp(c) && !IsSign(c)
  }

  ghost predicate Unspaced(s: string) {
    s != [] && !IsSpace(s[0]) && !IsSpace(s[|s| - 1])
  }

  lemma NoMarksInDigits(n: Number, m: Marks, c: char)
    requires IsNumber(n, m) && c in DecimalMarks(m)
    ensures c !in n.whole && c !in n.fraction
  {
    EachIsDigit(n.fraction);
    if n.whole != [] {
      WholeIsSuch(n.whole, m);
    }
  }

  lemma NumberIsPlain(n: Number, m: Marks)
    requires IsNumber(n, m)
    ensures Bare(NumberText(n)) && Unspaced(NumberText(n))
  {
    EachIsDigit(n.fraction);
    if n.whole != [] {
      WholeIsSuch(n.whole, m);
    }
  }

  lemma {:induction false} SplitInTwo(a: string, c: char, b: string)
    requires c !in a && c !in b
    ensures SplitOn(a + [c] + b, c) == [a, b]
  {
    IndexIs(a, c, b);
    IndexIs(b, c, []);
    assert (a + [c] + b)[..|a|] == a && (a + [c] + b)[|a| + 1..] == b;
  }

  lemma NumberIsCut(n: Number, m: Marks)
    requires IsNumber(n, m)
    ensures CutBody(NumberText(n), m) == Cut(n.whole, n.fraction, if n.fraction == [] then 1 else 2)
  {
    var marks := DecimalMarks(m);
    NoMarksInDigits(n, m, marks[0]);
    if |marks| > 1 {
      NoMarksInDigits(n, m, marks[1]);
    }
    if n.fraction != [] {
      SplitInTwo(n.whole, n.mark, n.fraction);
    }
  }

  lemma {:induction false} TrimsStart(b: string, s: string)
    requires Blank(b) && s != [] && !IsSpace(s[0])
    ensures TrimStart(b + s) == s
  {
    if b == [] {
      assert b + s == s;
    } else {
      TrimsStart(b[1..], s);
      assert (b + s)[1..] == b[1..] + s;
    }
  }

  lemma {:induction false} TrimsEnd(s: string, b: string)
    requires Blank(b) && s != [] && !IsSpace(s[|s| - 1])
    ensures TrimEnd(s + b) == s
  {
    if b == [] {
      assert s + b == s;
    } else {
      TrimsEnd(s, b[..|b| - 1]);
      assert (s + b)[..|s + b| - 1] == s + b[..|b| - 1];
      assert b[|b| - 1] in b;
    }
  }

  lemma Trims(before: string, s: string, after: string)
    requires Blank(before) && Blank(after) && Unspaced(s)
    ensures Trim(before + s + after) == s
  {
    assert before + s + after == before + (s + after);
    TrimsStart(before, s + after);
    TrimsEnd(s, after);
  }

  lemma NumberIsPlainOf(n: Number, m: Marks)
    requires IsNumber(n, m)
    ensures PlainOf(n.whole, m) == OnlyDigits(n.whole)
  {
  }

  lemma {:induction false} ZeroInFront(fraction: string)
    requires AllDigits(fraction)
    ensures AllDigits("0" + fraction) && Value("0" + fraction) == Value(fraction)
  {
    assert AllDigits("0"[..0]) && Value("0"[..0]) == 0;
    assert Value("0") == 0;
    ValueOfBoth("0", fraction);
  }

  lemma WrittenIs(n: Number, m: Marks)
    requires IsNumber(n, m)
    ensures var plain := if n.whole == [] then "0" else PlainOf(n.whole, m);
            && plain != [] && AllDigits(plain) && AllDigits(plain + n.fraction)
            && Value(plain + n.fraction) == Written(n)
  {
    if n.whole == [] {
      assert AllDigits("0"[..0]);
      ZeroInFront(n.fraction);
      assert OnlyDigits(n.whole) + n.fraction == n.fraction;
    } else {
      DigitsJoin(PlainOf(n.whole, m), n.fraction);
    }
  }

  lemma {:induction false} MinorsOfNumber(n: Number, parts: nat, digits: nat, m: Marks)
    requires IsNumber(n, m) && parts <= 2 && |n.fraction| <= digits
    ensures MinorsOf(Cut(n.whole, n.fraction, parts), digits, m) == Minor(Written(n) * Pow10(digits - |n.fraction|), true, false)
  {
    var plain := if n.whole == [] then "0" else PlainOf(n.whole, m);
    WrittenIs(n, m);
    DecimalIsWorth(plain, n.fraction, digits);
  }

  /** The first number of a product is read in minor units, unless it has more minor digits than there are. */
  lemma {:induction false} ReadsFirst(before: string, n: Number, after: string, digits: nat, m: Marks)
    requires IsNumber(n, m) && Blank(before) && Blank(after)
    ensures TermOf(before + NumberText(n) + after, digits, m)
         == if |n.fraction| > digits then Faulty(DIGITS, true, false)
            else Minor(Written(n) * Pow10(digits - |n.fraction|), true, false)
  {
    NumberIsPlain(n, m);
    Trims(before, NumberText(n), after);
    NumberIsCut(n, m);
    if |n.fraction| <= digits {
      MinorsOfNumber(n, if n.fraction == [] then 1 else 2, digits, m);
    }
  }

  lemma ReadsFactor(before: string, n: Number, after: string, m: Marks)
    requires IsNumber(n, m) && Blank(before) && Blank(after)
    ensures FactorOf(before + NumberText(n) + after, m) == Some(Scale(Written(n), Pow10(|n.fraction|)))
  {
    NumberIsPlain(n, m);
    Trims(before, NumberText(n), after);
    NumberIsCut(n, m);
    NumberIsPlainOf(n, m);
  }

  // ---- products ----

  datatype Factor = Factor(before: string, op: char, after: string, number: Number)

  datatype Product = Product(first: Number, factors: seq<Factor>)

  ghost predicate IsFactor(f: Factor, m: Marks) {
    IsOp(f.op) && Blank(f.before) && Blank(f.after) && IsNumber(f.number, m)
  }

  ghost predicate AreFactors(fs: seq<Factor>, m: Marks) {
    forall f | f in fs :: IsFactor(f, m)
  }

  ghost predicate IsProduct(p: Product, m: Marks) {
    IsNumber(p.first, m) && AreFactors(p.factors, m)
  }

  function FactorsText(fs: seq<Factor>): string {
    if fs == [] then []
    else fs[0].before + [fs[0].op] + (fs[0].after + NumberText(fs[0].number)) + FactorsText(fs[1..])
  }

  function ProductText(p: Product): string {
    NumberText(p.first) + FactorsText(p.factors)
  }

  /** The blanks that stand before the next sign of operation, or at the end. */
  function Lead(fs: seq<Factor>, tail: string): string {
    if fs == [] then tail else fs[0].before
  }

  function Links(fs: seq<Factor>, tail: string): seq<Link> {
    if fs == [] then []
    else [Link(fs[0].op, fs[0].after + NumberText(fs[0].number) + Lead(fs[1..], tail))] + Links(fs[1..], tail)
  }

  lemma {:induction false} OpComesAt(a: string, op: char, s: string)
    requires IsOp(op) && forall c | c in a :: !IsOp(c)
    ensures OpAt(a + [op] + s) == |a| && OpAt(a) == |a|
  {
    if a != [] {
      OpComesAt(a[1..], op, s);
      assert (a + [op] + s)[1..] == a[1..] + [op] + s;
    }
  }

  lemma {:induction false} NextLink(a: string, op: char, s: string)
    requires IsOp(op) && forall c | c in a :: !IsOp(c)
    ensures ChainOf(a + [op] + s) == Chain(a, [Link(op, ChainOf(s).first)] + ChainOf(s).rest)
    ensures ChainOf(a) == Chain(a, [])
  {
    OpComesAt(a, op, s);
    assert (a + [op] + s)[..|a|] == a && (a + [op] + s)[|a| + 1..] == s;
  }

  lemma Regroup(a: string, b: string, c: string, d: string, e: string, f: string)
    ensures a + (b + c + d + e) + f == (a + b) + c + (d + e + f)
  {
  }

  lemma {:induction false} ProductIsChain(head: string, fs: seq<Factor>, tail: string, m: Marks)
    requires AreFactors(fs, m) && Blank(tail) && forall c | c in head :: !IsOp(c)
    ensures ChainOf(head + FactorsText(fs) + tail) == Chain(head + Lead(fs, tail), Links(fs, tail))
    decreases |fs|
  {
    if fs == [] {
      assert head + FactorsText(fs) + tail == head + tail;
      NextLink(head + tail, '*', []);
    } else {
      var f := fs[0];
      assert IsFactor(f, m);
      var next := f.after + NumberText(f.number);
      NumberIsPlain(f.number, m);
      ProductIsChain(next, fs[1..], tail, m);
      NextLink(head + f.before, f.op, next + FactorsText(fs[1..]) + tail);
      Regroup(head, f.before, [f.op], next, FactorsText(fs[1..]), tail);
    }
  }

  // ---- what a product is worth ----

  /** A factor as a number: a whole over a power of ten. */
  datatype Step = Step(op: char, num: nat, den: nat)

  predicate AreSteps(steps: seq<Step>) {
    forall s | s in steps :: s.den > 0
  }

  function StepOf(f: Factor): (s: Step)
    requires AllDigits(f.number.fraction)
    ensures s.den > 0
  {
    Step(f.op, Written(f.number), Pow10(|f.number.fraction|))
  }

  function Steps(fs: seq<Factor>): (steps: seq<Step>)
    requires forall f | f in fs :: AllDigits(f.number.fraction)
    ensures AreSteps(steps)
  {
    if fs == [] then [] else [StepOf(fs[0])] + Steps(fs[1..])
  }

  function Worth(s: Step): real
    requires s.den > 0
  {
    s.num as real / s.den as real
  }

  /** Nothing is divided by nothing. */
  function Next(x: real, s: Step): Option<real>
    requires s.den > 0
  {
    if s.op == '*' then Some(x * Worth(s)) else if Worth(s) == 0.0 then None else Some(x / Worth(s))
  }

  function Exact(x: real, steps: seq<Step>): Option<real>
    requires AreSteps(steps)
    decreases |steps|
  {
    if steps == [] then Some(x)
    else
      match Next(x, steps[0])
      case None => None
      case Some(y) => Exact(y, steps[1..])
  }

  function WorkedSteps(r: Ratio, steps: seq<Step>): Option<Ratio>
    decreases |steps|
  {
    if steps == [] then Some(r)
    else
      match Applied(r, steps[0].op, Scale(steps[0].num, steps[0].den))
      case None => None
      case Some(next) => WorkedSteps(next, steps[1..])
  }

  lemma {:induction false} WorkedNext(r: Ratio, link: Link, rest: seq<Link>, m: Marks, scale: Scale)
    requires FactorOf(link.text, m) == Some(scale)
    ensures Worked(r, [link] + rest, m)
         == match Applied(r, link.op, scale) case None => None case Some(next) => Worked(next, rest, m)
  {
    assert ([link] + rest)[0] == link && ([link] + rest)[1..] == rest;
  }

  lemma {:induction false} LinksAreSteps(r: Ratio, fs: seq<Factor>, tail: string, m: Marks)
    requires AreFactors(fs, m) && Blank(tail)
    ensures Worked(r, Links(fs, tail), m) == WorkedSteps(r, Steps(fs))
    decreases |fs|
  {
    if fs != [] {
      var f, rest := fs[0], fs[1..];
      assert IsFactor(f, m) && AreFactors(rest, m);
      assert rest != [] ==> IsFactor(rest[0], m);
      ReadsFactor(f.after, f.number, Lead(rest, tail), m);
      var scale := Scale(Written(f.number), Pow10(|f.number.fraction|));
      WorkedNext(r, Link(f.op, f.after + NumberText(f.number) + Lead(rest, tail)), Links(rest, tail), m, scale);
      var next := Applied(r, f.op, scale);
      if next.Some? {
        LinksAreSteps(next.value, rest, tail, m);
      }
    }
  }

  function Quotient(r: Ratio): real
    requires r.den != 0
  {
    r.num as real / r.den as real
  }

  lemma QuotientIs(x: real, y: real, q: real)
    requires y != 0.0 && x == q * y
    ensures x / y == q
  {
    assert x / y * y == x;
    assert (x / y - q) * y == 0.0;
  }

  lemma Multiplied(a: real, b: real, c: real, d: real)
    requires b != 0.0 && d != 0.0
    ensures b * d != 0.0 && (a * c) / (b * d) == (a / b) * (c / d)
  {
    var x, y := a / b, c / d;
    assert a == x * b && c == y * d;
    assert a * c == (x * b) * (y * d) == (x * y) * (b * d);
    QuotientIs(a * c, b * d, x * y);
  }

  lemma Divided(a: real, b: real, c: real, d: real)
    requires b != 0.0 && c != 0.0 && d != 0.0
    ensures b * c != 0.0 && c / d != 0.0 && (a * d) / (b * c) == (a / b) / (c / d)
  {
    var x, y := a / b, c / d;
    assert a == x * b && c == y * d;
    assert y != 0.0;
    var q := x / y;
    assert x == q * y;
    assert a * d == (q * y * b) * d == q * (b * (y * d));
    QuotientIs(a * d, b * c, q);
  }

  lemma RealProduct(a: int, b: int)
    ensures (a * b) as real == a as real * b as real
  {
  }

  lemma TimesIsExact(r: Ratio, num: nat, den: nat)
    requires r.den > 0 && den > 0
    ensures r.den * den > 0
    ensures Quotient(Ratio(r.num * num, r.den * den)) == Quotient(r) * (num as real / den as real)
  {
    ProductIsPositive(r.den, den);
    RealProduct(r.num, num);
    RealProduct(r.den, den);
    Multiplied(r.num as real, r.den as real, num as real, den as real);
  }

  lemma OverIsExact(r: Ratio, num: nat, den: nat)
    requires r.den > 0 && den > 0 && num > 0
    ensures r.den * num > 0 && num as real / den as real != 0.0
    ensures Quotient(Ratio(r.num * den, r.den * num)) == Quotient(r) / (num as real / den as real)
  {
    ProductIsPositive(r.den, num);
    RealProduct(r.num, den);
    RealProduct(r.den, num);
    Divided(r.num as real, r.den as real, num as real, den as real);
  }

  ghost predicate WorksOut(worked: Option<Ratio>, exact: Option<real>) {
    && (worked.None? <==> exact.None?)
    && (worked.Some? ==> worked.value.den > 0 && Quotient(worked.value) == exact.value)
  }

  lemma StepIsExact(r: Ratio, s: Step)
    requires r.den > 0 && s.den > 0
    ensures WorksOut(Applied(r, s.op, Scale(s.num, s.den)), Next(Quotient(r), s))
  {
    if s.op == '*' {
      TimesIsExact(r, s.num, s.den);
    } else if s.num > 0 {
      OverIsExact(r, s.num, s.den);
    }
  }

  /** The integer ratio the loop keeps is the exact amount at every step. */
  lemma {:induction false} WorksExactly(r: Ratio, x: real, steps: seq<Step>)
    requires r.den > 0 && Quotient(r) == x && AreSteps(steps)
    ensures WorksOut(WorkedSteps(r, steps), Exact(x, steps))
    decreases |steps|
  {
    if steps != [] {
      StepIsExact(r, steps[0]);
      var next, y := Applied(r, steps[0].op, Scale(steps[0].num, steps[0].den)), Next(x, steps[0]);
      if next.Some? {
        WorksExactly(next.value, y.value, steps[1..]);
      }
    }
  }

  // ---- rounding, once a product ----

  /** To the nearest whole, a half away from zero. */
  function RoundedAway(x: real): int {
    if x >= 0.0 then (x + 0.5).Floor else -(0.5 - x).Floor
  }

  lemma FloorIs(x: real, k: int)
    requires k as real <= x < (k + 1) as real
    ensures x.Floor == k
  {
  }

  lemma RoundingMoves(x: real, k: int)
    requires if x >= 0.0 then k as real - 0.5 <= x < k as real + 0.5 else k as real - 0.5 < x <= k as real + 0.5
    ensures RoundedAway(x) == k
  {
    if x >= 0.0 {
      FloorIs(x + 0.5, k);
    } else {
      FloorIs(0.5 - x, -k);
    }
  }

  /** Rounding moves an amount by half a minor unit at most. */
  lemma RoundingError(x: real)
    ensures -0.5 <= RoundedAway(x) as real - x <= 0.5
  {
    var f := if x >= 0.0 then (x + 0.5).Floor else (0.5 - x).Floor;
    assert x >= 0.0 ==> f as real <= x + 0.5 < (f + 1) as real;
    assert x < 0.0 ==> f as real <= 0.5 - x < (f + 1) as real;
  }

  lemma WholeStays(n: int)
    ensures RoundedAway(n as real) == n
  {
    RoundingMoves(n as real, n);
  }

  lemma Cancelled(e: real, h: real, b: real)
    requires b > 0.0
    ensures e * b >= h * b <==> e >= h
  {
    assert e >= h ==> (e - h) * b >= 0.0;
    assert e < h ==> (h - e) * b > 0.0;
  }

  /** The share of one that is left over, against one half. */
  lemma LeftOver(top: nat, bottom: nat, q: int, rest: int)
    requires top == q * bottom + rest && 0 <= rest < bottom
    ensures var e := top as real / bottom as real - q as real;
            0.0 <= e < 1.0 && (e >= 0.5 <==> rest * 2 >= bottom)
  {
    var f, b := top as real / bottom as real, bottom as real;
    var e := f - q as real;
    RealProduct(q, bottom);
    assert f * b == top as real;
    assert e * b == f * b - q as real * b == rest as real;
    Cancelled(e, 0.0, b);
    Cancelled(e, 1.0, b);
    Cancelled(e, 0.5, b);
  }

  lemma AbsQuotient(r: Ratio)
    requires r.den > 0
    ensures Abs(r.num) as real / r.den as real == if r.num < 0 then -Quotient(r) else Quotient(r)
    ensures r.num < 0 <==> Quotient(r) < 0.0
  {
    var x, b := Quotient(r), r.den as real;
    assert x * b == r.num as real;
    Cancelled(x, 0.0, b);
    if r.num < 0 {
      assert Abs(r.num) as real == -(r.num as real) == -x * b;
      QuotientIs(Abs(r.num) as real, b, -x);
    }
  }

  /** The quotient and the remainder of whole numbers give the nearest whole, a half going away from zero. */
  lemma RoundsAway(r: Ratio)
    requires r.den > 0
    ensures Rounded(r.num, r.den) == RoundedAway(Quotient(r))
  {
    var top, bottom := Abs(r.num), r.den;
    assert top == top / bottom * bottom + top % bottom;
    LeftOver(top, bottom, top / bottom, top % bottom);
    AbsQuotient(r);
    RoundingMoves(Quotient(r), Rounded(r.num, r.den));
  }

  // ---- one product ----

  function FirstStep(n: Number): Step
    requires AllDigits(n.fraction)
  {
    Step('*', Written(n), Pow10(|n.fraction|))
  }

  ghost predicate Spelled(p: Product) {
    AllDigits(p.first.fraction) && forall f | f in p.factors :: AllDigits(f.number.fraction)
  }

  /** A product in minor units, exactly. */
  ghost function ExactOf(p: Product, digits: nat): Option<real>
    requires Spelled(p)
  {
    Exact(InMinor(FirstStep(p.first), Pow10(digits)), Steps(p.factors))
  }

  ghost function MeaningOf(p: Product, digits: nat): Amount
    requires Spelled(p)
  {
    if |p.first.fraction| > digits then Faulty(DIGITS, true, false)
    else
      match ExactOf(p, digits)
      case None => MISSHAPEN
      case Some(x) => Minor(RoundedAway(x), true, false)
  }

  lemma {:induction false} Pow10OfBoth(a: nat, b: nat)
    ensures Pow10(a + b) == Pow10(a) * Pow10(b)
  {
    if a > 0 {
      Pow10OfBoth(a - 1, b);
      TenTimes(Pow10(b), Pow10(a - 1));
    }
  }

  lemma FirstIsExact(n: Number, digits: nat)
    requires AllDigits(n.fraction) && |n.fraction| <= digits
    ensures InMinor(FirstStep(n), Pow10(digits)) == (Written(n) * Pow10(digits - |n.fraction|)) as real
  {
    Pow10OfBoth(|n.fraction|, digits - |n.fraction|);
    InMinorUnits(FirstStep(n), Pow10(digits - |n.fraction|), Pow10(digits));
  }

  function InMinor(s: Step, unit: nat): real
    requires s.den > 0
  {
    Worth(s) * unit as real
  }

  lemma InMinorUnits(s: Step, q: nat, unit: nat)
    requires s.den > 0 && unit == s.den * q
    ensures InMinor(s, unit) == (s.num * q) as real
  {
    RealProduct(s.den, q);
    RealProduct(s.num, q);
    Widened(s.num as real, s.den as real, q as real);
  }

  lemma Widened(w: real, p: real, q: real)
    requires p != 0.0
    ensures w / p * (p * q) == w * q
  {
    var x := w / p;
    assert x * p == w;
    assert x * (p * q) == (x * p) * q;
  }

  lemma ProductIsSpelled(p: Product, m: Marks)
    requires IsProduct(p, m)
    ensures Spelled(p)
  {
    forall f | f in p.factors
      ensures AllDigits(f.number.fraction)
    {
      assert IsFactor(f, m);
    }
  }

  lemma {:induction false} ReadsChain(before: string, p: Product, after: string, digits: nat, m: Marks)
    requires IsProduct(p, m) && Blank(before) && Blank(after)
    ensures var chain := Chain(before + NumberText(p.first) + Lead(p.factors, after), Links(p.factors, after));
            Spelled(p) && ProductOfChain(chain, digits, m) == MeaningOf(p, digits)
  {
    ProductIsSpelled(p, m);
    var n, lead := p.first, Lead(p.factors, after);
    assert p.factors != [] ==> IsFactor(p.factors[0], m);
    NumberIsPlain(n, m);
    ReadsFirst(before, n, lead, digits, m);
    Trims(before, NumberText(n), lead);
    if |n.fraction| <= digits {
      FirstIsExact(n, digits);
      WorkedProduct(Written(n) * Pow10(digits - |n.fraction|), p.factors, after, m);
    }
  }

  /** A product is read as its exact amount, rounded once. */
  lemma ReadsProduct(before: string, p: Product, after: string, digits: nat, m: Marks)
    requires IsProduct(p, m) && Blank(before) && Blank(after)
    ensures Spelled(p) && ProductOf(before + ProductText(p) + after, digits, m) == MeaningOf(p, digits)
  {
    NumberIsPlain(p.first, m);
    assert before + ProductText(p) + after == before + NumberText(p.first) + FactorsText(p.factors) + after;
    ProductIsChain(before + NumberText(p.first), p.factors, after, m);
    ReadsChain(before, p, after, digits, m);
  }

  lemma {:induction false} WorkedProduct(minor: int, fs: seq<Factor>, after: string, m: Marks)
    requires AreFactors(fs, m) && Blank(after) && forall f | f in fs :: AllDigits(f.number.fraction)
    ensures var worked, exact := Worked(Ratio(minor, 1), Links(fs, after), m), Exact(minor as real, Steps(fs));
            && (worked.None? <==> exact.None?)
            && (worked.Some? ==> worked.value.den > 0 && Rounded(worked.value.num, worked.value.den) == RoundedAway(exact.value))
            && (fs == [] ==> exact == Some(minor as real) && RoundedAway(minor as real) == minor)
  {
    LinksAreSteps(Ratio(minor, 1), fs, after, m);
    WorksExactly(Ratio(minor, 1), minor as real, Steps(fs));
    var worked := Worked(Ratio(minor, 1), Links(fs, after), m);
    if worked.Some? {
      RoundsAway(worked.value);
    }
    WholeStays(minor);
  }

  // ---- signed sums ----

  /** A product and the sign it is added with, if any; the first one may have none. */
  datatype Item = Item(before: string, sign: string, after: string, product: Product)

  ghost predicate IsItem(it: Item, first: bool, m: Marks) {
    && Blank(it.before) && Blank(it.after) && IsProduct(it.product, m)
    && (it.sign == [] || (|it.sign| == 1 && IsSign(it.sign[0])))
    && (first ==> it.before == [] && (it.sign == [] ==> it.after == []))
    && (!first ==> it.sign != [])
  }

  ghost predicate IsSum(items: seq<Item>, m: Marks) {
    items != [] && IsItem(items[0], true, m) && forall i | 0 < i < |items| :: IsItem(items[i], false, m)
  }

  /** An item without the blanks in front of it. */
  function Core(it: Item): string {
    it.sign + (it.after + ProductText(it.product))
  }

  /** A stretch of the text that starts with a sign, and the blanks in front of it. */
  datatype Chunk = Chunk(before: string, core: string)

  function ChunksOf(items: seq<Item>): (chunks: seq<Chunk>)
    ensures |chunks| == |items|
    ensures forall i | 0 <= i < |items| :: chunks[i] == Chunk(items[i].before, Core(items[i]))
  {
    seq(|items|, i requires 0 <= i < |items| => Chunk(items[i].before, Core(items[i])))
  }

  function MoreText(chunks: seq<Chunk>): string
    decreases |chunks|, 1
  {
    if chunks == [] then [] else chunks[0].before + TextOf(chunks)
  }

  function TextOf(chunks: seq<Chunk>): string
    requires chunks != []
    decreases |chunks|, 0
  {
    chunks[0].core + MoreText(chunks[1..])
  }

  function SumText(items: seq<Item>): string
    requires items != []
  {
    TextOf(ChunksOf(items))
  }

  function Behind(chunks: seq<Chunk>): string {
    if chunks == [] then [] else chunks[0].before
  }

  ghost predicate NoSigns(s: string) {
    forall c | c in s :: !IsSign(c)
  }

  lemma {:induction false} FactorsHaveNoSigns(fs: seq<Factor>, m: Marks)
    requires AreFactors(fs, m)
    ensures NoSigns(FactorsText(fs))
  {
    if fs != [] {
      var f := fs[0];
      assert IsFactor(f, m);
      NumberIsPlain(f.number, m);
      FactorsHaveNoSigns(fs[1..], m);
      assert NoSigns(f.before + [f.op] + (f.after + NumberText(f.number)));
    }
  }

  lemma {:induction false} FactorsEnd(fs: seq<Factor>, m: Marks)
    requires AreFactors(fs, m) && fs != []
    ensures FactorsText(fs) != [] && !IsSpace(FactorsText(fs)[|FactorsText(fs)| - 1])
  {
    var f := fs[0];
    assert IsFactor(f, m);
    NumberIsPlain(f.number, m);
    if |fs| > 1 {
      FactorsEnd(fs[1..], m);
    }
  }

  lemma ProductTextIs(p: Product, m: Marks)
    requires IsProduct(p, m)
    ensures NoSigns(ProductText(p)) && Unspaced(ProductText(p))
  {
    NumberIsPlain(p.first, m);
    FactorsHaveNoSigns(p.factors, m);
    if p.factors != [] {
      FactorsEnd(p.factors, m);
    }
  }

  lemma CoreIs(it: Item, first: bool, m: Marks)
    requires IsItem(it, first, m)
    ensures Core(it) != [] && NoSigns(Core(it)[1..]) && Unspaced(Core(it))
    ensures it.sign != [] ==> Core(it)[0] == it.sign[0]
    ensures it.sign == [] && first ==> NoSigns(Core(it))
  {
    ProductTextIs(it.product, m);
    var rest := it.after + ProductText(it.product);
    assert NoSigns(rest);
    if it.sign == [] {
      assert Core(it) == rest;
      assert forall c | c in Core(it)[1..] :: c in rest;
    } else {
      assert Core(it)[1..] == rest;
      assert IsSign(it.sign[0]);
    }
  }

  lemma {:induction false} SignComesAt(a: string, s: string)
    requires NoSigns(a) && (s == [] || IsSign(s[0]))
    ensures SignAt(a + s) == |a|
  {
    if a == [] {
      assert a + s == s;
    } else {
      SignComesAt(a[1..], s);
      assert (a + s)[1..] == a[1..] + s;
    }
  }

  lemma NextPiece(a: Piece, s: string)
    requires NoSigns(a[1..]) && (s == [] || IsSign(s[0]))
    ensures Pieces(a + s) == [a] + if s == [] then [] else Pieces(s)
  {
    SignComesAt(a[1..], s);
    assert (a + s)[1..] == a[1..] + s;
    if s == [] {
      assert a + s == a;
    } else {
      assert (a + s)[..|a|] == a && (a + s)[|a|..] == s;
    }
  }

  ghost predicate IsChunk(c: Chunk) {
    c.core != [] && NoSigns(c.core[1..]) && NoSigns(c.before)
  }

  ghost predicate AreChunks(chunks: seq<Chunk>) {
    && (forall i | 0 <= i < |chunks| :: IsChunk(chunks[i]))
    && (forall i | 0 < i < |chunks| :: IsSign(chunks[i].core[0]))
  }

  /** The pieces of a printed sum: each chunk with the blanks that stand before the next. */
  function PieceList(chunks: seq<Chunk>): (pieces: seq<string>)
    ensures |pieces| == |chunks|
  {
    if chunks == [] then [] else [chunks[0].core + Behind(chunks[1..])] + PieceList(chunks[1..])
  }

  lemma {:induction false} CoreThenRest(core: string, before: string, s: string)
    requires core != [] && NoSigns(core[1..]) && NoSigns(before) && s != [] && IsSign(s[0])
    ensures Pieces(core + (before + s)) == [core + before] + Pieces(s)
  {
    var head: Piece := core + before;
    assert head[1..] == core[1..] + before;
    NextPiece(head, s);
    Regrouped(core, before, s);
  }

  lemma Regrouped(a: string, b: string, c: string)
    ensures a + (b + c) == (a + b) + c
  {
  }

  lemma {:induction false} TextIsPieces(chunks: seq<Chunk>)
    requires chunks != [] && AreChunks(chunks)
    ensures TextOf(chunks) != [] && TextOf(chunks)[0] == chunks[0].core[0]
    ensures Pieces(TextOf(chunks)) == PieceList(chunks)
    decreases |chunks|
  {
    var core, rest := chunks[0].core, chunks[1..];
    assert IsChunk(chunks[0]);
    if rest == [] {
      assert TextOf(chunks) == core && core + [] == core;
      NextPiece(core, []);
    } else {
      assert IsChunk(rest[0]);
      TextIsPieces(rest);
      CoreThenRest(core, rest[0].before, TextOf(rest));
    }
  }

  lemma ItemsAreChunks(items: seq<Item>, m: Marks)
    requires IsSum(items, m)
    ensures AreChunks(ChunksOf(items))
  {
    forall i | 0 <= i < |items|
      ensures IsChunk(ChunksOf(items)[i]) && (i > 0 ==> IsSign(ChunksOf(items)[i].core[0]))
    {
      CoreIs(items[i], i == 0, m);
      assert NoSigns(items[i].before);
    }
  }

  /** What a sum means: its products, each rounded on its own, added with their signs; the first at fault stops it. */
  ghost function SumMeaning(items: seq<Item>, digits: nat, total: int): Amount
    requires forall it | it in items :: Spelled(it.product)
    decreases |items|
  {
    if items == [] then Minor(total, true, false)
    else
      var read := MeaningOf(items[0].product, digits);
      if read.Faulty? then read else SumMeaning(items[1..], digits, total + Counted(IsNegative(items[0]), read.minor))
  }

  predicate IsNegative(it: Item) {
    it.sign != [] && IsMinus(it.sign[0])
  }

  lemma UnsignedIs(it: Item, first: bool, after: string, m: Marks)
    requires IsItem(it, first, m)
    ensures Core(it) != []
    ensures Unsigned(Core(it) + after) == it.after + ProductText(it.product) + after
    ensures IsMinus((Core(it) + after)[0]) <==> IsNegative(it)
  {
    CoreIs(it, first, m);
    if it.sign == [] {
      assert Core(it) == it.after + ProductText(it.product);
      NotSigned(Core(it), after);
    } else {
      SignTaken(it.sign, it.after + ProductText(it.product), after);
    }
  }

  lemma SignTaken(sign: string, text: string, after: string)
    requires |sign| == 1 && IsSign(sign[0])
    ensures Unsigned(sign + text + after) == text + after && (sign + text + after)[0] == sign[0]
  {
    assert (sign + text + after)[1..] == text + after;
  }

  lemma NotSigned(s: string, after: string)
    requires s != [] && NoSigns(s)
    ensures Unsigned(s + after) == s + after && !IsMinus((s + after)[0])
  {
    assert s[0] in s && (s + after)[0] == s[0];
  }

  lemma ReadsItem(it: Item, first: bool, after: string, digits: nat, m: Marks)
    requires IsItem(it, first, m) && Blank(after)
    ensures Core(it) != [] && Spelled(it.product)
    ensures SignedOf(Core(it) + after, digits, m) == Signed(IsNegative(it), MeaningOf(it.product, digits))
  {
    UnsignedIs(it, first, after, m);
    ReadsProduct(it.after, it.product, after, digits, m);
  }

  lemma {:induction false} PieceAt(chunks: seq<Chunk>, i: nat)
    requires i < |chunks|
    ensures PieceList(chunks)[i] == chunks[i].core + Behind(chunks[i + 1..])
    decreases |chunks|
  {
    if i > 0 {
      PieceAt(chunks[1..], i - 1);
      assert chunks[1..][i..] == chunks[i + 1..];
    }
  }

  lemma {:induction false} SumMeans(terms: seq<Signed>, items: seq<Item>, digits: nat, total: int)
    requires |terms| == |items| && forall it | it in items :: Spelled(it.product)
    requires forall i | 0 <= i < |items| :: terms[i] == Signed(IsNegative(items[i]), MeaningOf(items[i].product, digits))
    ensures SumOf(terms, total, false) == SumMeaning(items, digits, total)
    decreases |items|
  {
    if items != [] {
      var read := MeaningOf(items[0].product, digits);
      assert terms[0] == Signed(IsNegative(items[0]), read);
      if read.Minor? {
        SumMeans(terms[1..], items[1..], digits, total + Counted(IsNegative(items[0]), read.minor));
      }
    }
  }

  lemma PieceIsRead(items: seq<Item>, i: nat, digits: nat, m: Marks)
    requires IsSum(items, m) && i < |items|
    ensures Spelled(items[i].product) && PieceList(ChunksOf(items))[i] != []
    ensures SignedOf(PieceList(ChunksOf(items))[i], digits, m) == Signed(IsNegative(items[i]), MeaningOf(items[i].product, digits))
  {
    var chunks := ChunksOf(items);
    PieceAt(chunks, i);
    assert i + 1 < |items| ==> IsItem(items[i + 1], false, m);
    assert Behind(chunks[i + 1..]) == if i + 1 < |items| then items[i + 1].before else [];
    ReadsItem(items[i], i == 0, Behind(chunks[i + 1..]), digits, m);
  }

  lemma {:induction false} ReadsText(items: seq<Item>, digits: nat, m: Marks)
    requires IsSum(items, m)
    ensures forall it | it in items :: Spelled(it.product)
    ensures SumText(items) != []
    ensures SumOf(SignedOfAll(Pieces(SumText(items)), digits, m), 0, false) == SumMeaning(items, digits, 0)
  {
    var chunks := ChunksOf(items);
    ItemsAreChunks(items, m);
    TextIsPieces(chunks);
    var pieces := Pieces(SumText(items));
    var terms := SignedOfAll(pieces, digits, m);
    forall i | 0 <= i < |items|
      ensures Spelled(items[i].product)
      ensures terms[i] == Signed(IsNegative(items[i]), MeaningOf(items[i].product, digits))
    {
      PieceIsRead(items, i, digits, m);
      SignedAt(pieces, i, digits, m);
    }
    SumMeans(terms, items, digits, 0);
  }

  lemma {:induction false} TextIsUnspaced(chunks: seq<Chunk>)
    requires chunks != [] && forall i | 0 <= i < |chunks| :: Unspaced(chunks[i].core)
    ensures Unspaced(TextOf(chunks))
    decreases |chunks|
  {
    assert Unspaced(chunks[0].core);
    if |chunks| > 1 {
      TextIsUnspaced(chunks[1..]);
    } else {
      assert TextOf(chunks) == chunks[0].core;
    }
  }

  /**
   Reading a printed sum of products, with blanks around and within it, gives what it means: every product worked exactly
   and rounded once, or the fault of the first that cannot be read; below zero only where a sign is allowed.
   */
  lemma {:induction false} ReadsWhatIsMeant(before: string, items: seq<Item>, after: string, digits: nat, m: Marks, signed: bool)
    requires IsSum(items, m) && Blank(before) && Blank(after)
    ensures forall it | it in items :: Spelled(it.product)
    ensures AmountOf(before + SumText(items) + after, digits, m, signed) == Allowed(SumMeaning(items, digits, 0), signed)
  {
    ReadsText(items, digits, m);
    forall i | 0 <= i < |items|
      ensures Unspaced(ChunksOf(items)[i].core)
    {
      CoreIs(items[i], i == 0, m);
    }
    TextIsUnspaced(ChunksOf(items));
    Trims(before, SumText(items), after);
  }

  lemma {:induction false} ReadsBare(items: seq<Item>, digits: nat, m: Marks, signed: bool)
    requires IsSum(items, m)
    ensures forall it | it in items :: Spelled(it.product)
    ensures AmountOf(SumText(items), digits, m, signed) == Allowed(SumMeaning(items, digits, 0), signed)
  {
    ReadsWhatIsMeant([], items, [], digits, m, signed);
    assert [] + SumText(items) + [] == SumText(items);
  }

  // ---- how far rounding can be off ----

  ghost function ExactSum(items: seq<Item>, digits: nat): real
    requires forall it | it in items :: Spelled(it.product)
    decreases |items|
  {
    if items == [] then 0.0
    else
      var x := ExactOf(items[0].product, digits);
      (if x.None? then 0.0 else if IsNegative(items[0]) then -x.value else x.value) + ExactSum(items[1..], digits)
  }

  /** A sum that is read is off by half a minor unit a product at most. */
  lemma {:induction false} OffByHalves(items: seq<Item>, digits: nat, total: int)
    requires (forall it | it in items :: Spelled(it.product)) && SumMeaning(items, digits, total).Minor?
    ensures var off := SumMeaning(items, digits, total).minor as real - (total as real + ExactSum(items, digits));
            -0.5 * |items| as real <= off <= 0.5 * |items| as real
    decreases |items|
  {
    if items != [] {
      var x := ExactOf(items[0].product, digits).value;
      RoundingError(x);
      OffByHalves(items[1..], digits, total + Counted(IsNegative(items[0]), RoundedAway(x)));
    }
  }

  // ---- what the form fills in ----

  /** The first point made the locale's own mark. */
  function Localized(text: string, mark: char): string {
    var point := IndexOf(text, '.');
    if point < |text| then text[..point] + [mark] + text[point + 1..] else text
  }

  /** The text a stored amount is offered for editing with. */
  function Typed(minor: int, digits: nat, m: Marks): string {
    Localized(ToDecimalString(minor, digits), m.decimal)
  }

  /** The amount as an expression of one number. */
  ghost function Lone(minor: int, digits: nat, m: Marks): Item {
    var (whole, fraction) := Parts(Abs(minor), digits);
    Item([], if minor < 0 then "-" else "", [], Product(Number(whole, m.decimal, fraction), []))
  }

  lemma PartsAreNumber(n: nat, digits: nat, m: Marks)
    ensures var (whole, fraction) := Parts(n, digits);
            IsNumber(Number(whole, m.decimal, fraction), m)
  {
    PartsAreWorth(n, digits);
  }

  lemma PointIsLocalized(a: string, fraction: string, mark: char)
    requires '.' !in a
    ensures Localized(a, mark) == a && Localized(a + ['.'] + fraction, mark) == a + [mark] + fraction
  {
    IndexIs(a, '.', fraction);
    assert (a + ['.'] + fraction)[..|a|] == a && (a + ['.'] + fraction)[|a| + 1..] == fraction;
  }

  lemma SignedIsLocalized(sign: string, n: Number)
    requires '.' !in sign && '.' !in n.whole
    ensures Localized(sign + (if n.fraction == [] then n.whole else n.whole + "." + n.fraction), n.mark) == sign + NumberText(n)
  {
    PointIsLocalized(sign + n.whole, n.fraction, n.mark);
    if n.fraction != [] {
      assert sign + (n.whole + "." + n.fraction) == (sign + n.whole) + ['.'] + n.fraction;
      assert sign + NumberText(n) == (sign + n.whole) + [n.mark] + n.fraction;
    }
  }

  lemma OneItemText(it: Item)
    requires it.after == [] && it.product.factors == []
    ensures SumText([it]) == it.sign + NumberText(it.product.first)
  {
    var chunks, number := ChunksOf([it]), NumberText(it.product.first);
    assert ProductText(it.product) == number && it.after + number == number;
    assert MoreText(chunks[1..]) == [];
    assert TextOf(chunks) == chunks[0].core == Core(it);
  }

  lemma TypedIsLone(minor: int, digits: nat, m: Marks)
    ensures IsSum([Lone(minor, digits, m)], m) && SumText([Lone(minor, digits, m)]) == Typed(minor, digits, m)
  {
    var it := Lone(minor, digits, m);
    var n := it.product.first;
    PartsAreNumber(Abs(minor), digits, m);
    PartsAreWorth(Abs(minor), digits);
    EachIsDigit(n.whole);
    SignedIsLocalized(it.sign, n);
    OneItemText(it);
    assert ToDecimalString(minor, digits) == it.sign + Pointed(Abs(minor), digits);
  }

  lemma NumberMeans(n: Number, digits: nat)
    requires AllDigits(n.fraction) && |n.fraction| == digits
    ensures MeaningOf(Product(n, []), digits) == Minor(Written(n), true, false)
  {
    FirstIsExact(n, digits);
    assert Written(n) * Pow10(0) == Written(n);
    WholeStays(Written(n));
  }

  lemma LoneMeans(minor: int, digits: nat, m: Marks)
    ensures var it := Lone(minor, digits, m);
            Spelled(it.product) && MeaningOf(it.product, digits) == Minor(Abs(minor), true, false)
  {
    PartsAreWorth(Abs(minor), digits);
    var n := Lone(minor, digits, m).product.first;
    DigitsAreAll(n.whole);
    assert Written(n) == Abs(minor);
    NumberMeans(n, digits);
  }

  /** Reading what an amount is offered as gives the amount back, or refuses it for being below zero. */
  lemma TypedIsReadBack(minor: int, digits: nat, m: Marks, signed: bool)
    ensures AmountOf(Typed(minor, digits, m), digits, m, signed)
         == if minor < 0 && !signed then Faulty(NEGATIVE, true, false) else Minor(minor, true, false)
  {
    var it := Lone(minor, digits, m);
    TypedIsLone(minor, digits, m);
    ReadsBare([it], digits, m, signed);
    LoneMeans(minor, digits, m);
    OneItem(it, digits, Abs(minor));
  }

  lemma {:induction false} OneItem(it: Item, digits: nat, minor: int)
    requires Spelled(it.product) && MeaningOf(it.product, digits) == Minor(minor, true, false)
    ensures SumMeaning([it], digits, 0) == Minor(Counted(IsNegative(it), minor), true, false)
  {
    assert [it][1..] == [];
  }
}
