/** How far a goal has come in a month and what it asks for, read off the sums of the ledger. */
module TargetProgress {
  import opened Common
  import opened Sums
  import opened Ledger
  import opened TargetWindow
  import CategoryTargets
  import Moves
  import Store

  datatype MonthSums = MonthSums(
    assignedIn: int,
    activity: int,
    available: int,
    fundedFromStart: int,
    assignedBeforeStart: int,
    activityBeforeStart: int)

  datatype Answer =
    | Answer(monthTarget: Option<int>, needed: Option<int>, progress: int, remaining: int)
    | NothingToDivideBy

  function AtLeastZero(amount: int): int {
    if amount > 0 then amount else 0
  }

  function MonthsInclusive(from: Month, to: Month): (n: int)
    ensures n >= 1
  {
    if to - from + 1 > 1 then to - from + 1 else 1
  }

  function Carryover(s: MonthSums): int {
    s.available - s.assignedIn - s.activity
  }

  function CarriedIn(s: MonthSums): int {
    s.assignedBeforeStart + s.activityBeforeStart
  }

  /** What this month has laid; in the month a goal starts, what was carried in counts as laid. */
  function LaidIn(t: Target, m: Month, s: MonthSums): int {
    s.assignedIn + (if m == t.startMonth then CarriedIn(s) else 0)
  }

  /** How many times n goes into an amount, which is how whole minor units divide. */
  function Divided(a: nat, n: nat): nat
    requires n > 0
  {
    if a < n then 0 else 1 + Divided(a - n, n)
  }

  lemma {:induction false} DividedOf(q: nat, r: nat, n: nat)
    requires r < n
    ensures q * n + r >= 0 && Divided(q * n + r, n) == q
  {
    if q > 0 {
      DividedOf(q - 1, r, n);
      assert q * n + r == (q - 1) * n + r + n;
    }
  }

  lemma NotNegative(q: int, r: nat, n: nat)
    requires r < n && q * n + r >= 0
    ensures q >= 0
  {
    assert q < 0 ==> (-q - 1) * n >= 0;
  }

  lemma {:induction false} DividedIsQuotient(a: nat, n: nat)
    requires n > 0
    ensures Divided(a, n) == a / n
  {
    var q, r := a / n, a % n;
    assert a == q * n + r;
    NotNegative(q, r, n);
    DividedOf(q, r, n);
  }

  lemma {:induction false} DividedIsPart(a: nat, n: nat)
    requires n > 0
    ensures Divided(a, n) <= a
  {
    if a >= n {
      DividedIsPart(a - n, n);
    }
  }

  function Progress(t: Target, m: Month, s: MonthSums): Answer {
    match t.kind
    case REFILL_TO =>
      var monthTarget := AtLeastZero(t.amount - Carryover(s));
      var progress := Carryover(s) + s.assignedIn;
      Answer(Some(monthTarget), Some(AtLeastZero(monthTarget - s.assignedIn)), progress, AtLeastZero(t.amount - progress))
    case CONTRIBUTE =>
      Answer(Some(t.amount), Some(AtLeastZero(t.amount - s.assignedIn)), s.assignedIn, AtLeastZero(t.amount - s.assignedIn))
    case ACCUMULATE =>
      var progress := CarriedIn(s) + s.fundedFromStart;
      Answer(None, None, progress, AtLeastZero(t.amount - progress))
    case BY_DATE =>
      var progress := CarriedIn(s) + s.fundedFromStart;
      if t.dueMonth.None? then NothingToDivideBy
      else
        var left := AtLeastZero(t.amount - (progress - LaidIn(t, m, s)));
        var monthTarget := Divided(left, MonthsInclusive(m, t.dueMonth.value));
        Answer(Some(monthTarget), Some(AtLeastZero(monthTarget - LaidIn(t, m, s))), progress, AtLeastZero(t.amount - progress))
  }

  // ---- what the rule gives for any sums ----

  /** More spent or taken in this month: the goal is read as if nothing had been. */
  lemma ActivityIsLeftOut(t: Target, m: Month, s: MonthSums, more: int)
    ensures Progress(t, m, s.(activity := s.activity + more, available := s.available + more)) == Progress(t, m, s)
  {
  }

  function MoreLaid(s: MonthSums, amount: int): MonthSums {
    s.(assignedIn := s.assignedIn + amount, available := s.available + amount, fundedFromStart := s.fundedFromStart + amount)
  }

  lemma LayingLowersNeeded(t: Target, m: Month, s: MonthSums, amount: nat)
    requires Progress(t, m, s).Answer? && Progress(t, m, s).needed.Some?
    ensures var was, now := Progress(t, m, s), Progress(t, m, MoreLaid(s, amount));
            now.Answer? && now.monthTarget == was.monthTarget && now.needed == Some(AtLeastZero(was.needed.value - amount))
  {
    var now := MoreLaid(s, amount);
    assert Carryover(now) == Carryover(s) && LaidIn(t, m, now) == LaidIn(t, m, s) + amount;
    assert t.kind == BY_DATE ==>
        CarriedIn(now) + now.fundedFromStart - LaidIn(t, m, now) == CarriedIn(s) + s.fundedFromStart - LaidIn(t, m, s);
  }

  lemma LayingNeededCloses(t: Target, m: Month, s: MonthSums, amount: nat)
    requires Progress(t, m, s).Answer? && Progress(t, m, s).needed.Some?
    requires Progress(t, m, s).needed.value <= amount && (t.kind == BY_DATE ==> t.dueMonth.value <= m)
    ensures Progress(t, m, MoreLaid(s, amount)).remaining == 0
  {
    if t.kind == BY_DATE {
      DividedOf(AtLeastZero(t.amount - (CarriedIn(s) + s.fundedFromStart - LaidIn(t, m, s))), 0, 1);
    }
  }

  // ---- the sums of a month ----

  ghost function AssignedOver(db: Db, c: Id, from: Option<Month>, to: Month): int {
    AssignedTotal(db.assignments, Slots(Some(c), from, Some(to)))
  }

  ghost function SpentBefore(db: Db, c: Id, m: Month): int {
    Total(db.txns, Where(None, Some(Some(c)), None, Some(MonthStart(m))))
  }

  ghost function SumsOf(db: Db, c: Id, t: Target, m: Month): MonthSums {
    MonthSums(
      Assigned(db, c, m),
      Activity(db, c, m),
      Available(db, c, m),
      AssignedOver(db, c, Some(t.startMonth), m),
      AssignedOver(db, c, None, t.startMonth - 1),
      SpentBefore(db, c, t.startMonth))
  }

  ghost function ProgressOf(db: Db, c: Id, t: Target, m: Month): Answer {
    Progress(t, m, SumsOf(db, c, t, m))
  }

  lemma AssignedSplit(db: Db, c: Id, from: Option<Month>, cut: Month, to: Month)
    requires cut <= to && (from.Some? ==> from.value <= cut + 1)
    ensures AssignedOver(db, c, from, to) == AssignedOver(db, c, from, cut) + AssignedOver(db, c, Some(cut + 1), to)
  {
    SumColumns(AssignedColumn(db.assignments, Slots(Some(c), from, Some(cut))),
               AssignedColumn(db.assignments, Slots(Some(c), Some(cut + 1), Some(to))),
               AssignedColumn(db.assignments, Slots(Some(c), from, Some(to))));
  }

  lemma SpentSplit(db: Db, c: Id, m: Month)
    ensures SpentBefore(db, c, m + 1) == SpentBefore(db, c, m) + Activity(db, c, m)
  {
    SumColumns(Column(db.txns, Where(None, Some(Some(c)), None, Some(MonthStart(m)))),
               Column(db.txns, Where(None, Some(Some(c)), Some(MonthStart(m)), Some(MonthStart(m + 1)))),
               Column(db.txns, Where(None, Some(Some(c)), None, Some(MonthStart(m + 1)))));
  }

  /** A month starts with what the month before ended with. */
  lemma RollsForward(db: Db, c: Id, m: Month)
    ensures Available(db, c, m) == Available(db, c, m - 1) + Assigned(db, c, m) + Activity(db, c, m)
  {
    AssignedSplit(db, c, None, m - 1, m);
    SpentSplit(db, c, m);
  }

  /** The carryover the sums are read for is the month before's available, and the carry-in the one before the start. */
  lemma CarriesOver(db: Db, c: Id, t: Target, m: Month)
    ensures Carryover(SumsOf(db, c, t, m)) == Available(db, c, m - 1)
    ensures CarriedIn(SumsOf(db, c, t, m)) == Available(db, c, t.startMonth - 1)
  {
    RollsForward(db, c, m);
  }

  // ---- spending in a month leaves its goal alone ----

  predicate DatedIn(t: Txn, m: Month) {
    t.date.month == m
  }

  lemma RowOfTheMonth(db: Db, id: Id, row: Txn, c: Id, t: Target, m: Month)
    requires DatedIn(row, m) && (id in db.txns ==> DatedIn(db.txns[id], m)) && t.startMonth <= m
    ensures var was, now := SumsOf(db, c, t, m), SumsOf(db.(txns := db.txns[id := row]), c, t, m);
            now == was.(activity := was.activity + (now.activity - was.activity),
                        available := was.available + (now.activity - was.activity))
  {
    var month := Where(None, Some(Some(c)), Some(MonthStart(m)), Some(MonthStart(m + 1)));
    TotalPut(db.txns, id, row, month);
    TotalPut(db.txns, id, row, month.(from := None));
    TotalPut(db.txns, id, row, Where(None, Some(Some(c)), None, Some(MonthStart(t.startMonth))));
  }

  /** Writing or rewriting a record within a month changes nothing a goal shows for that month. */
  lemma SpendingLeavesTheGoal(db: Db, id: Id, row: Txn, c: Id, t: Target, m: Month)
    requires DatedIn(row, m) && (id in db.txns ==> DatedIn(db.txns[id], m)) && t.startMonth <= m
    ensures ProgressOf(db.(txns := db.txns[id := row]), c, t, m) == ProgressOf(db, c, t, m)
  {
    var was, now := SumsOf(db, c, t, m), SumsOf(db.(txns := db.txns[id := row]), c, t, m);
    RowOfTheMonth(db, id, row, c, t, m);
    ActivityIsLeftOut(t, m, was, now.activity - was.activity);
  }

  lemma RemovingLeavesTheGoal(db: Db, id: Id, c: Id, t: Target, m: Month)
    requires id in db.txns && DatedIn(db.txns[id], m) && t.startMonth <= m
    ensures ProgressOf(db.(txns := db.txns - {id}), c, t, m) == ProgressOf(db, c, t, m)
  {
    var without := db.(txns := db.txns - {id});
    SpendingLeavesTheGoal(without, id, db.txns[id], c, t, m);
    assert without.txns[id := db.txns[id]] == db.txns;
  }

  // ---- laying what is needed ----

  function Laid(db: Db, c: Id, m: Month, amount: int): Db {
    db.(assignments := Upserted(db.assignments, Slot(c, m), amount))
  }

  /** A move out of the pool lays exactly that. */
  lemma PoolMoveLays(db: Db, c: Id, m: Month, amount: Store.Positive)
    requires c in db.categories && db.categories[c].hiddenAt.None?
    ensures Moves.Moved(db, Moves.Draft(None, Some(c), amount, m)) == Store.Writes(Laid(db, c, m, amount))
  {
    Moves.NoRefusal(db, Moves.InLockOrder(Moves.Draft(None, Some(c), amount, m)));
  }

  lemma LayingAdds(db: Db, c: Id, m: Month, amount: int, from: Option<Month>, to: Month)
    ensures AssignedOver(Laid(db, c, m, amount), c, from, to)
         == AssignedOver(db, c, from, to) + (if (from.Some? ==> from.value <= m) && m <= to then amount else 0)
  {
    AssignedUpserted(db.assignments, Slot(c, m), amount, Slots(Some(c), from, Some(to)));
  }

  lemma SumsAfterLaying(db: Db, c: Id, t: Target, m: Month, amount: int)
    requires t.startMonth <= m
    ensures SumsOf(Laid(db, c, m, amount), c, t, m) == MoreLaid(SumsOf(db, c, t, m), amount)
  {
    LayingAdds(db, c, m, amount, Some(m), m);
    LayingAdds(db, c, m, amount, None, m);
    LayingAdds(db, c, m, amount, Some(t.startMonth), m);
    LayingAdds(db, c, m, amount, None, t.startMonth - 1);
  }

  /** Laying money lowers what is needed by as much, down to nothing and no further, and leaves what the month asks for. */
  lemma NeededIsExact(db: Db, c: Id, t: Target, m: Month, amount: nat)
    requires t.startMonth <= m && ProgressOf(db, c, t, m).Answer? && ProgressOf(db, c, t, m).needed.Some?
    ensures var was, now := ProgressOf(db, c, t, m), ProgressOf(Laid(db, c, m, amount), c, t, m);
            && now.Answer? && now.monthTarget == was.monthTarget
            && now.needed == Some(AtLeastZero(was.needed.value - amount))
            && (now.needed == Some(0) <==> was.needed.value <= amount)
  {
    SumsAfterLaying(db, c, t, m, amount);
    LayingLowersNeeded(t, m, SumsOf(db, c, t, m), amount);
  }

  /** What is needed, once laid, closes every goal that has no months left to spread over. */
  lemma NeededCloses(db: Db, c: Id, t: Target, m: Month, amount: nat)
    requires t.startMonth <= m && ProgressOf(db, c, t, m).Answer? && ProgressOf(db, c, t, m).needed.Some?
    requires ProgressOf(db, c, t, m).needed.value <= amount && (t.kind == BY_DATE ==> t.dueMonth.value <= m)
    ensures ProgressOf(Laid(db, c, m, amount), c, t, m).remaining == 0
  {
    SumsAfterLaying(db, c, t, m, amount);
    LayingNeededCloses(t, m, SumsOf(db, c, t, m), amount);
  }

  /** What is needed is what remains, unless more went out of the month than what came before it can spare. */
  lemma NeededIsRemaining(db: Db, c: Id, t: Target, m: Month)
    requires t.startMonth <= m && t.kind == REFILL_TO
    ensures var p := ProgressOf(db, c, t, m);
            p.needed == Some(p.remaining) <==> 0 <= Assigned(db, c, m) || Available(db, c, m - 1) <= t.amount
  {
    CarriesOver(db, c, t, m);
  }

  /** No state of a run of goals holds one that has nothing to divide its remainder by. */
  lemma {:induction false} AlwaysDivides(states: seq<seq<Target>>, commands: seq<CategoryTargets.Command>, i: nat, db: Db, c: Id, m: Month)
    requires CategoryTargets.IsRun(states, commands) && i < |states|
    ensures ActiveInMonth(states[i], m).Some? ==> ProgressOf(db, c, ActiveInMonth(states[i], m).value, m).Answer?
  {
    CategoryTargets.RunKeeps(states, commands, i, if i > 0 then commands[i - 1].month else 0);
    ActiveIsPick(states[i], m);
    if ActiveInMonth(states[i], m).Some? {
      var j :| 0 <= j < |states[i]| && states[i][j] == ActiveInMonth(states[i], m).value;
      assert CategoryTargets.WellDated(states[i][j], if i > 0 then commands[i - 1].month else 0);
    }
  }

  // ---- even instalments ----

  /** What month number i of n asks for when q*n + r is spread over them, r < n: the larger shares come last. */
  function Share(q: nat, r: nat, n: nat, i: nat): nat {
    if i + r >= n then q + 1 else q
  }

  function SharesBefore(q: nat, r: nat, n: nat, i: nat): nat {
    if i == 0 then 0 else SharesBefore(q, r, n, i - 1) + Share(q, r, n, i - 1)
  }

  lemma {:induction false} SharesAddUp(q: nat, r: nat, n: nat, i: nat)
    requires r < n && i <= n
    ensures SharesBefore(q, r, n, i) == i * q + (if i + r > n then i + r - n else 0)
  {
    if i > 0 {
      SharesAddUp(q, r, n, i - 1);
      assert i * q == (i - 1) * q + q;
    }
  }

  lemma {:induction false} LeftAfter(q: nat, r: nat, n: nat, i: nat)
    requires r < n && i < n
    ensures q * n + r - SharesBefore(q, r, n, i) == if i + r < n then q * (n - i) + r else (q + 1) * (n - i)
  {
    SharesAddUp(q, r, n, i);
    assert q * n - i * q == q * (n - i);
    assert (q + 1) * (n - i) == q * (n - i) + (n - i);
  }

  /** What is left, divided by the months left, gives the next share. */
  lemma NextShare(q: nat, r: nat, n: nat, i: nat, left: int)
    requires r < n && i < n && left == q * n + r - SharesBefore(q, r, n, i)
    ensures left >= 0 && Divided(left, n - i) == Share(q, r, n, i)
  {
    LeftAfter(q, r, n, i);
    DividedOf(Share(q, r, n, i), if i + r < n then r else 0, n - i);
  }

  /** The shares never get smaller, differ by at most one, exactly r of them are the larger, and together they use the amount up. */
  lemma {:induction false} SharesAreEven(q: nat, r: nat, n: nat, i: nat, j: nat)
    requires r < n && i <= j < n
    ensures q <= Share(q, r, n, i) <= Share(q, r, n, j) <= q + 1
    ensures Share(q, r, n, i) == q + 1 <==> n - r <= i
    ensures SharesBefore(q, r, n, n) == q * n + r
  {
    SharesAddUp(q, r, n, n);
  }

  /** What is still to be spread when a month is entered: this month's share is not taken off yet. */
  function ToSpread(t: Target, m: Month, s: MonthSums): nat {
    AtLeastZero(t.amount - (CarriedIn(s) + s.fundedFromStart - LaidIn(t, m, s)))
  }

  function Asks(t: Target, m: Month, s: MonthSums): int
    requires t.kind == BY_DATE && t.dueMonth.Some?
  {
    Progress(t, m, s).monthTarget.value
  }

  function Needs(t: Target, m: Month, s: MonthSums): int
    requires t.kind == BY_DATE && t.dueMonth.Some?
  {
    Progress(t, m, s).needed.value
  }

  /** A goal saving by a date, in a month that has not laid more than the goal asks for. */
  predicate NotOverLaid(t: Target, m: Month, s: MonthSums) {
    t.kind == BY_DATE && t.dueMonth.Some? && t.startMonth <= m <= t.dueMonth.value && LaidIn(t, m, s) <= Asks(t, m, s)
  }

  /** The sums of the month that follows one in which exactly what was needed was laid. */
  predicate Follows(t: Target, m: Month, s: MonthSums, next: MonthSums)
    requires t.kind == BY_DATE && t.dueMonth.Some?
  {
    next.assignedIn == 0 && CarriedIn(next) == CarriedIn(s) && next.fundedFromStart == s.fundedFromStart + Needs(t, m, s)
  }

  lemma {:induction false} AsksForAPart(t: Target, m: Month, s: MonthSums)
    requires t.kind == BY_DATE && t.dueMonth.Some? && m <= t.dueMonth.value
    ensures Asks(t, m, s) == Divided(ToSpread(t, m, s), t.dueMonth.value - m + 1)
    ensures 0 <= Asks(t, m, s) <= ToSpread(t, m, s)
  {
    DividedIsPart(ToSpread(t, m, s), t.dueMonth.value - m + 1);
  }

  lemma NeedsTheRest(t: Target, m: Month, s: MonthSums)
    requires NotOverLaid(t, m, s)
    ensures Needs(t, m, s) == Asks(t, m, s) - LaidIn(t, m, s)
  {
  }

  /** The month after has what is left to spread, and asks for no less than has been laid in it: nothing. */
  lemma TakesItsShare(t: Target, m: Month, s: MonthSums, next: MonthSums)
    requires NotOverLaid(t, m, s) && m < t.dueMonth.value && Follows(t, m, s, next)
    ensures ToSpread(t, m + 1, next) == ToSpread(t, m, s) - Asks(t, m, s)
    ensures LaidIn(t, m + 1, next) == 0 && NotOverLaid(t, m + 1, next) && Needs(t, m + 1, next) == Asks(t, m + 1, next)
  {
    NeedsTheRest(t, m, s);
    AsksForAPart(t, m, s);
    AsksForAPart(t, m + 1, next);
    NeedsTheRest(t, m + 1, next);
  }

  /** Month number i of n, in which what is left of q*n + r is spread over the months left. */
  predicate OnCourse(t: Target, m: Month, s: MonthSums, q: nat, r: nat, n: nat, i: nat) {
    && NotOverLaid(t, m, s) && r < n && t.dueMonth.value - m + 1 == n - i
    && ToSpread(t, m, s) == q * n + r - SharesBefore(q, r, n, i)
    && Asks(t, m, s) == Share(q, r, n, i)
  }

  lemma {:induction false} AsksForItsShare(t: Target, m: Month, s: MonthSums, q: nat, r: nat, n: nat, i: nat)
    requires NotOverLaid(t, m, s) && r < n && t.dueMonth.value - m + 1 == n - i
    requires ToSpread(t, m, s) == q * n + r - SharesBefore(q, r, n, i)
    ensures OnCourse(t, m, s, q, r, n, i)
  {
    AsksForAPart(t, m, s);
    NextShare(q, r, n, i, ToSpread(t, m, s));
  }

  lemma CourseGoesOn(t: Target, m: Month, s: MonthSums, next: MonthSums, q: nat, r: nat, n: nat, i: nat)
    requires OnCourse(t, m, s, q, r, n, i) && m < t.dueMonth.value && Follows(t, m, s, next)
    ensures OnCourse(t, m + 1, next, q, r, n, i + 1) && Needs(t, m + 1, next) == Share(q, r, n, i + 1)
  {
    TakesItsShare(t, m, s, next);
    AsksForItsShare(t, m + 1, next, q, r, n, i + 1);
  }

  lemma {:induction false} StaysOnCourse(t: Target, m: Month, months: seq<MonthSums>, q: nat, r: nat, n: nat, i: nat)
    requires i < |months| <= n && OnCourse(t, m, months[0], q, r, n, 0)
    requires forall j | 0 <= j < |months| - 1 :: Follows(t, m + j, months[j], months[j + 1])
    ensures OnCourse(t, m + i, months[i], q, r, n, i)
    ensures i > 0 ==> Needs(t, m + i, months[i]) == Share(q, r, n, i)
  {
    if i > 0 {
      StaysOnCourse(t, m, months, q, r, n, i - 1);
      assert Follows(t, m + (i - 1), months[i - 1], months[i - 1 + 1]);
      CourseGoesOn(t, m + i - 1, months[i - 1], months[i], q, r, n, i - 1);
    }
  }

  lemma SetsOut(t: Target, m: Month, s: MonthSums) returns (q: nat, r: nat, n: nat)
    requires NotOverLaid(t, m, s)
    ensures n == t.dueMonth.value - m + 1 && q == ToSpread(t, m, s) / n && r == ToSpread(t, m, s) % n
    ensures OnCourse(t, m, s, q, r, n, 0)
  {
    var left := ToSpread(t, m, s);
    n := t.dueMonth.value - m + 1;
    r := left % n;
    assert left == (left / n) * n + r;
    NotNegative(left / n, r, n);
    q := left / n;
    AsksForItsShare(t, m, s, q, r, n, 0);
  }

  // ---- months followed in the ledger ----

  ghost function NeededIn(db: Db, c: Id, t: Target, m: Month): int
    requires t.kind == BY_DATE && t.dueMonth.Some?
  {
    Needs(t, m, SumsOf(db, c, t, m))
  }

  ghost predicate NothingAhead(db: Db, c: Id, m: Month) {
    forall k | k in db.assignments && k.category == c && m < k.month :: db.assignments[k] == 0
  }

  /** From one month to the next exactly what was needed is laid; records may come and go, none of before the start. */
  ghost predicate LaysNeeded(db: Db, next: Db, c: Id, t: Target, m: Month)
    requires t.kind == BY_DATE && t.dueMonth.Some?
  {
    && next.assignments == Laid(db, c, m, NeededIn(db, c, t, m)).assignments
    && SpentBefore(next, c, t.startMonth) == SpentBefore(db, c, t.startMonth)
  }

  /** The ledger as each month is entered, from month m on. */
  ghost predicate IsFollowed(dbs: seq<Db>, c: Id, t: Target, m: Month) {
    && t.kind == BY_DATE && t.dueMonth.Some? && t.startMonth <= m
    && dbs != [] && NothingAhead(dbs[0], c, m)
    && forall i | 0 <= i < |dbs| - 1 :: LaysNeeded(dbs[i], dbs[i + 1], c, t, m + i)
  }

  lemma NothingLaidIn(db: Db, c: Id, m: Month, later: Month)
    requires NothingAhead(db, c, m) && m < later
    ensures Assigned(db, c, later) == 0
  {
    SumZero(AssignedColumn(db.assignments, Slots(Some(c), Some(later), Some(later))));
  }

  lemma StillNothingAhead(db: Db, next: Db, c: Id, m: Month, needed: int)
    requires NothingAhead(db, c, m) && next.assignments == Laid(db, c, m, needed).assignments
    ensures NothingAhead(next, c, m) && NothingAhead(next, c, m + 1)
  {
  }

  /** What the month after has funded, and what it was assigned before the goal began. */
  lemma FundedNext(db: Db, next: Db, c: Id, t: Target, m: Month, needed: int)
    requires t.startMonth <= m && NothingAhead(db, c, m) && next.assignments == Laid(db, c, m, needed).assignments
    ensures Assigned(next, c, m + 1) == 0
    ensures AssignedOver(next, c, Some(t.startMonth), m + 1) == AssignedOver(db, c, Some(t.startMonth), m) + needed
    ensures AssignedOver(next, c, None, t.startMonth - 1) == AssignedOver(db, c, None, t.startMonth - 1)
  {
    StillNothingAhead(db, next, c, m, needed);
    NothingLaidIn(next, c, m, m + 1);
    AssignedSplit(next, c, Some(t.startMonth), m, m + 1);
    LayingAdds(db, c, m, needed, Some(t.startMonth), m);
    LayingAdds(db, c, m, needed, None, t.startMonth - 1);
  }

  lemma NextMonth(db: Db, next: Db, c: Id, t: Target, m: Month, later: Month)
    requires t.kind == BY_DATE && t.dueMonth.Some? && t.startMonth <= m && NothingAhead(db, c, m)
    requires LaysNeeded(db, next, c, t, m) && later == m + 1
    ensures Follows(t, m, SumsOf(db, c, t, m), SumsOf(next, c, t, later)) && NothingAhead(next, c, later)
  {
    var needed := NeededIn(db, c, t, m);
    StillNothingAhead(db, next, c, m, needed);
    FundedNext(db, next, c, t, m, needed);
  }

  lemma {:induction false} NothingAheadLater(dbs: seq<Db>, c: Id, t: Target, m: Month, i: nat)
    requires IsFollowed(dbs, c, t, m) && i < |dbs|
    ensures NothingAhead(dbs[i], c, m + i)
  {
    if i > 0 {
      NothingAheadLater(dbs, c, t, m, i - 1);
      assert LaysNeeded(dbs[i - 1], dbs[i - 1 + 1], c, t, m + (i - 1));
      NextMonth(dbs[i - 1], dbs[i], c, t, m + (i - 1), m + i);
    }
  }

  ghost function MonthsOf(dbs: seq<Db>, c: Id, t: Target, m: Month): (months: seq<MonthSums>)
    ensures |months| == |dbs| && forall i | 0 <= i < |dbs| :: months[i] == SumsOf(dbs[i], c, t, m + i)
  {
    seq(|dbs|, i requires 0 <= i < |dbs| => SumsOf(dbs[i], c, t, m + i))
  }

  lemma MonthsFollow(dbs: seq<Db>, c: Id, t: Target, m: Month, i: nat)
    requires IsFollowed(dbs, c, t, m) && i + 1 < |dbs|
    ensures Follows(t, m + i, MonthsOf(dbs, c, t, m)[i], MonthsOf(dbs, c, t, m)[i + 1])
  {
    NothingAheadLater(dbs, c, t, m, i);
    assert LaysNeeded(dbs[i], dbs[i + 1], c, t, m + i);
    NextMonth(dbs[i], dbs[i + 1], c, t, m + i, m + (i + 1));
  }

  /**
   Followed month by month, a goal saving by a date asks for even shares of what was to be spread: the first of its n
   months for the quotient, the last of them, as many as the remainder counts, for one more.
   */
  lemma EvenInstalments(dbs: seq<Db>, c: Id, t: Target, m: Month, i: nat)
    requires IsFollowed(dbs, c, t, m) && i < |dbs| && m + |dbs| - 1 <= t.dueMonth.value
    requires NotOverLaid(t, m, SumsOf(dbs[0], c, t, m))
    ensures var left, n := ToSpread(t, m, SumsOf(dbs[0], c, t, m)), t.dueMonth.value - m + 1;
            Asks(t, m + i, SumsOf(dbs[i], c, t, m + i)) == left / n + if i >= n - left % n then 1 else 0
  {
    var months := MonthsOf(dbs, c, t, m);
    forall j | 0 <= j < |months| - 1
      ensures Follows(t, m + j, months[j], months[j + 1])
    {
      MonthsFollow(dbs, c, t, m, j);
    }
    var q, r, n := SetsOut(t, m, months[0]);
    StaysOnCourse(t, m, months, q, r, n, i);
  }

  /** A month that was not over-laid, once what it needs is laid in the last month, meets the goal. */
  lemma LastInstalmentMeetsTheGoal(db: Db, c: Id, t: Target)
    requires t.kind == BY_DATE && t.dueMonth.Some? && t.startMonth <= t.dueMonth.value
    ensures var due := t.dueMonth.value;
            ProgressOf(Laid(db, c, due, NeededIn(db, c, t, due)), c, t, due).remaining == 0
  {
    NeededCloses(db, c, t, t.dueMonth.value, NeededIn(db, c, t, t.dueMonth.value));
  }
}
