/** What a goal shows, kind by kind, in the figures of the ledger alone. */
module GoalFigures {
  import opened Common
  import opened Ledger
  import opened TargetWindow
  import opened TargetProgress
  import Sums

  /** What was assigned to a category from one month to another, month by month. */
  ghost function AssignedSince(db: Db, c: Id, from: Month, to: Month): int
    decreases if to < from then 0 else to - from + 1
  {
    if to < from then 0 else AssignedSince(db, c, from, to - 1) + Assigned(db, c, to)
  }

  lemma NothingAssigned(db: Db, c: Id, from: Month, to: Month)
    requires to < from
    ensures AssignedOver(db, c, Some(from), to) == 0
  {
    AssignedNowhere(AssignedColumn(db.assignments, Slots(Some(c), Some(from), Some(to))));
  }

  lemma {:induction false} AssignedNowhere(column: map<Slot, int>)
    requires forall k | k in column :: column[k] == 0
    ensures Sums.Sum(column) == 0
  {
    Sums.SumZero(column);
  }

  lemma {:induction false} AssignedMonthByMonth(db: Db, c: Id, from: Month, to: Month)
    ensures AssignedOver(db, c, Some(from), to) == AssignedSince(db, c, from, to)
    decreases if to < from then 0 else to - from + 1
  {
    if to < from {
      NothingAssigned(db, c, from, to);
    } else {
      AssignedMonthByMonth(db, c, from, to - 1);
      AssignedSplit(db, c, Some(from), to - 1, to);
    }
  }

  /** What a goal that saves up has saved: what came with its first month and what was assigned since. */
  ghost function SavedUp(db: Db, c: Id, t: Target, m: Month): int {
    Available(db, c, t.startMonth - 1) + AssignedSince(db, c, t.startMonth, m)
  }

  lemma SavedUpIs(db: Db, c: Id, t: Target, m: Month)
    ensures SumsOf(db, c, t, m).fundedFromStart + CarriedIn(SumsOf(db, c, t, m)) == SavedUp(db, c, t, m)
  {
    CarriesOver(db, c, t, m);
    AssignedMonthByMonth(db, c, t.startMonth, m);
  }

  /** Saving up without a date: how much is there, how much is missing, and nothing asked of the month. */
  lemma AccumulateShows(db: Db, c: Id, t: Target, m: Month)
    requires t.kind == ACCUMULATE
    ensures var saved := SavedUp(db, c, t, m);
            ProgressOf(db, c, t, m) == Answer(None, None, saved, if saved < t.amount then t.amount - saved else 0)
  {
    SavedUpIs(db, c, t, m);
  }

  /** Putting aside a fixed amount each month. */
  lemma ContributeShows(db: Db, c: Id, t: Target, m: Month)
    requires t.kind == CONTRIBUTE
    ensures var put := Assigned(db, c, m);
            var missing := if put < t.amount then t.amount - put else 0;
            ProgressOf(db, c, t, m) == Answer(Some(t.amount), Some(missing), put, missing)
  {
  }

  /** Filling up to an amount each month: the month is asked for what the month before left missing. */
  lemma RefillShows(db: Db, c: Id, t: Target, m: Month)
    requires t.kind == REFILL_TO
    ensures var left, put := Available(db, c, m - 1), Assigned(db, c, m);
            var asked := if left < t.amount then t.amount - left else 0;
            ProgressOf(db, c, t, m) ==
              Answer(Some(asked), Some(if put < asked then asked - put else 0), left + put,
                     if left + put < t.amount then t.amount - (left + put) else 0)
  {
    CarriesOver(db, c, t, m);
  }

  /** What was laid in the month: what was assigned in it, and in the first month also what came with it. */
  ghost function PutIn(db: Db, c: Id, t: Target, m: Month): int {
    Assigned(db, c, m) + if m == t.startMonth then Available(db, c, m - 1) else 0
  }

  /** Saving by a date: what was missing before this month is spread over the months to the date, this one included. */
  lemma ByDateShows(db: Db, c: Id, t: Target, m: Month)
    requires t.kind == BY_DATE
    ensures t.dueMonth.None? ==> ProgressOf(db, c, t, m) == NothingToDivideBy
    ensures t.dueMonth.Some? ==>
              var saved, put := SavedUp(db, c, t, m), PutIn(db, c, t, m);
              var missing := if saved - put < t.amount then t.amount - (saved - put) else 0;
              var months := if m < t.dueMonth.value then t.dueMonth.value - m + 1 else 1;
              ProgressOf(db, c, t, m) ==
                Answer(Some(missing / months), Some(if put < missing / months then missing / months - put else 0), saved,
                       if saved < t.amount then t.amount - saved else 0)
  {
    if t.dueMonth.Some? {
      var s := SumsOf(db, c, t, m);
      SavedUpIs(db, c, t, m);
      CarriesOver(db, c, t, m);
      DividedIsQuotient(AtLeastZero(t.amount - (CarriedIn(s) + s.fundedFromStart - LaidIn(t, m, s))), MonthsInclusive(m, t.dueMonth.value));
    }
  }
}
