/** Reading an amount typed as a sum of products in the marks of a locale. */
module Amounts {
  import opened Common
  import opened Decimals

  // ---- marks and blanks ----

  predicate IsSpace(c: char) {
    var n := c as int;
    || 9 <= n <= 13 || n == 32 || n == 0xA0 || n == 0x1680 || 0x2000 <= n <= 0x200A || n == 0x2028 || n == 0x2029
    || n == 0x202F || n == 0x205F || n == 0x3000 || n == 0xFEFF
  }

  predicate IsMinus(c: char) {
    c == '-' || c as int == 0x2212
  }

  predicate IsSign(c: char) {
    c == '+' || IsMinus(c)
  }

  predicate IsOp(c: char) {
    c == '*' || c == '/'
  }

  datatype LocaleMarks = LocaleMarks(group: Option<char>, decimal: char)

  /** The marks a locale writes numbers with are not what an expression is written with. */
  predicate Distinct(m: LocaleMarks) {
    && !IsDigit(m.decimal) && !IsSpace(m.decimal) && !IsSign(m.decimal) && !IsOp(m.decimal)
    && (m.group.Some? ==> var g := m.group.value; !IsDigit(g) && !IsSign(g) && !IsOp(g) && g != m.decimal)
  }

  type Marks = m: LocaleMarks | Distinct(m) witness LocaleMarks(Some(','), '.')

  /** A plain point is taken for the decimal mark too, unless the locale groups with it. */
  function DecimalMarks(m: Marks): seq<char> {
    if m.decimal == '.' || m.group == Some('.') then [m.decimal] else [m.decimal, '.']
  }

  function TrimStart(s: string): string {
    if s != [] && IsSpace(s[0]) then TrimStart(s[1..]) else s
  }

  function TrimEnd(s: string): string {
    if s != [] && IsSpace(s[|s| - 1]) then TrimEnd(s[..|s| - 1]) else s
  }

  function Trim(s: string): string {
    TrimEnd(TrimStart(s))
  }

  function SplitOn(s: string, c: char): (parts: seq<string>)
    ensures parts != []
  {
    var k := IndexOf(s, c);
    if k == |s| then [s] else [s[..k]] + SplitOn(s[k + 1..], c)
  }

  // ---- one number ----

  predicate IsSeparator(c: char, m: Marks) {
    IsSpace(c) || m.group == Some(c)
  }

  /** Groups of three digits, each behind a separator. */
  predicate Groups(s: string, m: Marks) {
    |s| >= 4 && IsSeparator(s[0], m) && AllDigits(s[1..4]) && (|s| == 4 || Groups(s[4..], m))
  }

  predicate Grouped(w: string, m: Marks) {
    exists k | 1 <= k <= 3 && k < |w| :: AllDigits(w[..k]) && Groups(w[k..], m)
  }

  predicate IsWhole(w: string, m: Marks) {
    (w != [] && AllDigits(w)) || Grouped(w, m)
  }

  /** The blanks and the group marks taken out. */
  function Stripped(w: string, m: Marks): string {
    if w == [] then []
    else
      var front, last := Stripped(w[..|w| - 1], m), w[|w| - 1];
      if IsSeparator(last, m) then front else front + [last]
  }

  function OnlyDigits(s: string): (digits: string)
    ensures AllDigits(digits)
  {
    if s == [] then []
    else
      var front, last := OnlyDigits(s[..|s| - 1]), s[|s| - 1];
      if IsDigit(last) then front + [last] else front
  }

  predicate DigitsAndSeparators(w: string, m: Marks) {
    forall i | 0 <= i < |w| :: IsDigit(w[i]) || IsSeparator(w[i], m)
  }

  lemma {:induction false} DigitsOfBoth(a: string, b: string)
    ensures OnlyDigits(a + b) == OnlyDigits(a) + OnlyDigits(b)
  {
    if b == [] {
      assert a + b == a;
    } else {
      DigitsOfBoth(a, b[..|b| - 1]);
      assert (a + b)[..|a + b| - 1] == a + b[..|b| - 1];
    }
  }

  lemma {:induction false} DigitsAreAll(s: string)
    requires AllDigits(s)
    ensures OnlyDigits(s) == s
  {
    if s != [] {
      DigitsAreAll(s[..|s| - 1]);
    }
  }

  lemma {:induction false} GroupsAreSuch(s: string, m: Marks)
    requires Groups(s, m)
    ensures DigitsAndSeparators(s, m) && IsDigit(s[|s| - 1])
  {
    EachIsDigit(s[1..4]);
    assert forall i | 1 <= i < 4 :: s[i] == s[1..4][i - 1];
    if |s| > 4 {
      GroupsAreSuch(s[4..], m);
      assert forall i | 4 <= i < |s| :: s[i] == s[4..][i - 4];
    }
  }

  lemma {:induction false} GroupedIsSuch(w: string, k: nat, m: Marks)
    requires 0 < k < |w| && AllDigits(w[..k]) && Groups(w[k..], m)
    ensures DigitsAndSeparators(w, m) && IsDigit(w[0]) && IsDigit(w[|w| - 1]) && OnlyDigits(w) != []
  {
    var head, tail := w[..k], w[k..];
    GroupsAreSuch(tail, m);
    EachIsDigit(head);
    DigitsAreAll(head);
    DigitsOfBoth(head, tail);
    assert w == head + tail;
    assert w[0] == head[0] && w[|w| - 1] == tail[|tail| - 1];
    assert forall i | 0 <= i < |w| :: w[i] == if i < k then head[i] else tail[i - k];
  }

  lemma {:induction false} WholeIsSuch(w: string, m: Marks)
    requires IsWhole(w, m)
    ensures w != [] && DigitsAndSeparators(w, m) && IsDigit(w[0]) && IsDigit(w[|w| - 1]) && OnlyDigits(w) != []
  {
    EachIsDigit(w);
    if AllDigits(w) {
      DigitsAreAll(w);
    } else {
      var k :| 1 <= k <= 3 && k < |w| && AllDigits(w[..k]) && Groups(w[k..], m);
      GroupedIsSuch(w, k, m);
    }
  }

  lemma {:induction false} StrippedIsDigits(w: string, m: Marks)
    requires DigitsAndSeparators(w, m)
    ensures Stripped(w, m) == OnlyDigits(w)
  {
    if w != [] {
      StrippedIsDigits(w[..|w| - 1], m);
    }
  }

  /** The whole and the fraction of a body, and how many parts its decimal mark cuts it into. */
  datatype Cut = Cut(whole: string, fraction: string, parts: nat)

  function CutAt(body: string, mark: char): Cut {
    var parts := SplitOn(body, mark);
    Cut(parts[0], if |parts| > 1 then parts[1] else [], |parts|)
  }

  function CutBody(body: string, m: Marks): Cut {
    var marks := DecimalMarks(m);
    if marks[0] in body then CutAt(body, marks[0])
    else if |marks| > 1 && marks[1] in body then CutAt(body, marks[1])
    else Cut(body, [], 1)
  }

  datatype Fault = NEGATIVE | SHAPE | DIGITS

  datatype Amount =
    | Minor(minor: int, typed: bool, partial: bool)
    | Faulty(fault: Fault, typed: bool, partial: bool)

  const MISSHAPEN := Faulty(SHAPE, true, false)

  function PlainOf(whole: string, m: Marks): (plain: string)
    requires whole == [] || IsWhole(whole, m)
    ensures AllDigits(plain) && (whole != [] ==> plain != []) && plain == OnlyDigits(whole)
  {
    if whole == [] then []
    else
      WholeIsSuch(whole, m);
      StrippedIsDigits(whole, m);
      Stripped(whole, m)
  }

  function Normalized(plain: string, fraction: string): string {
    if fraction == [] then plain else plain + "." + fraction
  }

  function MinorsOf(cut: Cut, digits: nat, m: Marks): Amount {
    if cut.parts > 2 || (cut.whole != [] && !IsWhole(cut.whole, m)) then MISSHAPEN
    else if cut.fraction != [] && !AllDigits(cut.fraction) then MISSHAPEN
    else if |cut.fraction| > digits then Faulty(DIGITS, true, false)
    else
      var plain := if cut.whole == [] then "0" else PlainOf(cut.whole, m);
      DecimalIsWorth(plain, cut.fraction, digits);
      Minor(ParseDecimalString(Normalized(plain, cut.fraction), digits).value, true, false)
  }

  function TermOf(raw: string, digits: nat, m: Marks): Amount {
    var body := Trim(raw);
    if body == [] then Minor(0, true, true) else MinorsOf(CutBody(body, m), digits, m)
  }

  datatype Scale = Scale(num: nat, den: nat)

  /** A factor: the digits it is written with over a power of ten. */
  function FactorOf(raw: string, m: Marks): Option<Scale> {
    var cut := CutBody(Trim(raw), m);
    if cut.parts > 2 || (if cut.whole == [] then cut.fraction == [] else !IsWhole(cut.whole, m)) then None
    else if cut.fraction != [] && !AllDigits(cut.fraction) then None
    else
      ValueOfBoth(PlainOf(cut.whole, m), cut.fraction);
      Some(Scale(Value(PlainOf(cut.whole, m) + cut.fraction), Pow10(|cut.fraction|)))
  }

  // ---- products ----

  datatype Link = Link(op: char, text: string)

  datatype Chain = Chain(first: string, rest: seq<Link>)

  function OpAt(s: string): (k: nat)
    ensures k <= |s|
  {
    if s == [] || IsOp(s[0]) then 0 else 1 + OpAt(s[1..])
  }

  /** The text cut at every sign of operation, each kept with what follows it. */
  function ChainOf(s: string): Chain {
    var k := OpAt(s);
    if k == |s| then Chain(s, [])
    else
      var tail := ChainOf(s[k + 1..]);
      Chain(s[..k], [Link(s[k], tail.first)] + tail.rest)
  }

  function Abs(n: int): nat {
    if n < 0 then -n else n
  }

  /** Half and more goes away from zero. */
  function Rounded(numerator: int, denominator: int): int
    requires denominator != 0
  {
    var top, bottom := Abs(numerator), Abs(denominator);
    var up := if top % bottom * 2 >= bottom then top / bottom + 1 else top / bottom;
    if (numerator < 0) != (denominator < 0) then -up else up
  }

  datatype Ratio = Ratio(num: int, den: int)

  function Applied(r: Ratio, op: char, scale: Scale): Option<Ratio> {
    if op == '*' then Some(Ratio(r.num * scale.num, r.den * scale.den))
    else if scale.num == 0 then None
    else Some(Ratio(r.num * scale.den, r.den * scale.num))
  }

  function Worked(r: Ratio, rest: seq<Link>, m: Marks): Option<Ratio>
    decreases |rest|
  {
    if rest == [] then Some(r)
    else
      match FactorOf(rest[0].text, m)
      case None => None
      case Some(scale) =>
        match Applied(r, rest[0].op, scale)
        case None => None
        case Some(next) => Worked(next, rest[1..], m)
  }

  lemma {:induction false} DenominatorStays(r: Ratio, rest: seq<Link>, m: Marks)
    requires r.den > 0 && Worked(r, rest, m).Some?
    ensures Worked(r, rest, m).value.den > 0
    decreases |rest|
  {
    if rest != [] {
      var scale := FactorOf(rest[0].text, m).value;
      var next := Applied(r, rest[0].op, scale).value;
      ProductIsPositive(r.den, if rest[0].op == '*' then scale.den else scale.num);
      DenominatorStays(next, rest[1..], m);
    }
  }

  lemma ProductIsPositive(x: int, y: int)
    requires x > 0 && y > 0
    ensures x * y > 0
  {
  }

  function ProductOf(raw: string, digits: nat, m: Marks): Amount {
    ProductOfChain(ChainOf(raw), digits, m)
  }

  function ProductOfChain(chain: Chain, digits: nat, m: Marks): Amount {
    if chain.rest != [] && Trim(chain.first) == [] then MISSHAPEN
    else
      var amount := TermOf(chain.first, digits, m);
      if amount.Faulty? || chain.rest == [] then amount
      else
        match Worked(Ratio(amount.minor, 1), chain.rest, m)
        case None => MISSHAPEN
        case Some(r) =>
          DenominatorStays(Ratio(amount.minor, 1), chain.rest, m);
          Minor(Rounded(r.num, r.den), true, false)
  }

  // ---- sums ----

  function SignAt(s: string): (k: nat)
    ensures k <= |s|
  {
    if s == [] || IsSign(s[0]) then 0 else 1 + SignAt(s[1..])
  }

  type Piece = s: string | |s| > 0 witness "0"

  /** The text cut before every sign but one that starts it. */
  function Pieces(s: Piece): seq<Piece> {
    var k := 1 + SignAt(s[1..]);
    if k == |s| then [s] else [s[..k]] + Pieces(s[k..])
  }

  function Unsigned(piece: Piece): string {
    if IsSign(piece[0]) then piece[1..] else piece
  }

  /** A piece as it was read: what it adds is taken off when it starts with a minus. */
  datatype Signed = Signed(negative: bool, read: Amount)

  function SignedOf(piece: Piece, digits: nat, m: Marks): Signed {
    Signed(IsMinus(piece[0]), ProductOf(Unsigned(piece), digits, m))
  }

  function SignedOfAll(pieces: seq<Piece>, digits: nat, m: Marks): (terms: seq<Signed>)
    ensures |terms| == |pieces|
  {
    if pieces == [] then []
    else SignedOfAll(pieces[..|pieces| - 1], digits, m) + [SignedOf(pieces[|pieces| - 1], digits, m)]
  }

  lemma {:induction false} SignedAt(pieces: seq<Piece>, i: nat, digits: nat, m: Marks)
    requires i < |pieces|
    ensures SignedOfAll(pieces, digits, m)[i] == SignedOf(pieces[i], digits, m)
  {
    if i < |pieces| - 1 {
      SignedAt(pieces[..|pieces| - 1], i, digits, m);
    }
  }

  function Counted(negative: bool, minor: int): int {
    if negative then -minor else minor
  }

  /** The first term at fault stops the sum. */
  function SumOf(terms: seq<Signed>, total: int, partial: bool): Amount {
    if terms == [] then Minor(total, true, partial)
    else if terms[0].read.Faulty? then terms[0].read
    else SumOf(terms[1..], total + Counted(terms[0].negative, terms[0].read.minor), partial || terms[0].read.partial)
  }

  lemma {:induction false} NextTerm(terms: seq<Signed>, i: nat, total: int, partial: bool)
    requires i < |terms|
    ensures SumOf(terms[i..], total, partial) ==
      if terms[i].read.Faulty? then terms[i].read
      else SumOf(terms[i + 1..], total + Counted(terms[i].negative, terms[i].read.minor), partial || terms[i].read.partial)
  {
    assert terms[i..][0] == terms[i] && terms[i..][1..] == terms[i + 1..];
  }

  function Allowed(a: Amount, signed: bool): Amount {
    if a.Minor? && a.minor < 0 && !signed then Faulty(NEGATIVE, true, a.partial) else a
  }

  function AmountOf(raw: string, digits: nat, m: Marks, signed: bool): Amount {
    var trimmed := Trim(raw);
    if trimmed == [] then Minor(0, false, false)
    else Allowed(SumOf(SignedOfAll(Pieces(trimmed), digits, m), 0, false), signed)
  }

  // ---- the loops that read ----

  method ReadProduct(raw: string, digits: nat, m: Marks) returns (read: Amount)
    ensures read == ProductOf(raw, digits, m)
  {
    var chain := ChainOf(raw);
    if chain.rest != [] && Trim(chain.first) == [] {
      return MISSHAPEN;
    }
    var amount := TermOf(chain.first, digits, m);
    if amount.Faulty? || chain.rest == [] {
      return amount;
    }
    var numerator, denominator := amount.minor, 1;
    var start := Ratio(amount.minor, 1);
    for at := 0 to |chain.rest|
      invariant Worked(Ratio(numerator, denominator), chain.rest[at..], m) == Worked(start, chain.rest, m)
    {
      var link := chain.rest[at];
      assert chain.rest[at..][0] == link && chain.rest[at..][1..] == chain.rest[at + 1..];
      var factor := FactorOf(link.text, m);
      if factor.None? {
        return MISSHAPEN;
      }
      if link.op == '*' {
        numerator, denominator := numerator * factor.value.num, denominator * factor.value.den;
      } else if factor.value.num == 0 {
        return MISSHAPEN;
      } else {
        numerator, denominator := numerator * factor.value.den, denominator * factor.value.num;
      }
    }
    DenominatorStays(start, chain.rest, m);
    read := Minor(Rounded(numerator, denominator), true, false);
  }

  method ReadSigned(piece: Piece, digits: nat, m: Marks) returns (term: Signed)
    ensures term == SignedOf(piece, digits, m)
  {
    var negative := IsMinus(piece[0]);
    var read := ReadProduct(if negative || piece[0] == '+' then piece[1..] else piece, digits, m);
    term := Signed(negative, read);
  }

  method ReadNext(pieces: seq<Piece>, i: nat, digits: nat, m: Marks, ghost terms: seq<Signed>) returns (term: Signed)
    requires i < |pieces| && terms == SignedOfAll(pieces, digits, m)
    ensures term == terms[i]
  {
    SignedAt(pieces, i, digits, m);
    term := ReadSigned(pieces[i], digits, m);
  }

  method ReadSum(pieces: seq<Piece>, digits: nat, m: Marks) returns (read: Amount)
    ensures read == SumOf(SignedOfAll(pieces, digits, m), 0, false)
  {
    ghost var terms := SignedOfAll(pieces, digits, m);
    var total, partial := 0, false;
    for i := 0 to |pieces|
      invariant SumOf(terms[i..], total, partial) == SumOf(terms, 0, false)
    {
      NextTerm(terms, i, total, partial);
      var term := ReadNext(pieces, i, digits, m, terms);
      if term.read.Faulty? {
        return term.read;
      }
      total := total + if term.negative then -term.read.minor else term.read.minor;
      partial := partial || term.read.partial;
    }
    read := Minor(total, true, partial);
  }

  method ReadAmount(raw: string, digits: nat, m: Marks, signed: bool) returns (read: Amount)
    ensures read == AmountOf(raw, digits, m, signed)
  {
    var trimmed := Trim(raw);
    if trimmed == [] {
      return Minor(0, false, false);
    }
    read := ReadSum(Pieces(trimmed), digits, m);
    if read.Minor? && read.minor < 0 && !signed {
      read := Faulty(NEGATIVE, true, read.partial);
    }
  }
}
