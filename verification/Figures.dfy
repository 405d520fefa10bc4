/** The figures of the ledger as plain sums: the rows each of them adds up, picked by hand, and no others. */
module Figures {
  import opened Common
  import opened Ledger
  import opened Sums

  lemma {:induction false} RowsAreIgnored(rows: map<Id, Txn>, w: Where, part: map<Id, int>)
    requires part.Keys <= rows.Keys
    requires forall id | id in rows :: Counted(rows[id], w) == if id in part then part[id] else 0
    ensures Total(rows, w) == Sum(part)
  {
    SumIgnoresZeros(Column(rows, w), part);
  }

  lemma {:induction false} SlotsAreIgnored(rows: map<Slot, int>, s: Slots, part: map<Slot, int>)
    requires part.Keys <= rows.Keys
    requires forall k | k in rows :: AssignedColumn(rows, s)[k] == if k in part then part[k] else 0
    ensures AssignedTotal(rows, s) == Sum(part)
  {
    SumIgnoresZeros(AssignedColumn(rows, s), part);
  }

  // ---- rows picked by hand ----

  function OnAccount(db: Db, a: Id): map<Id, int> {
    map id | id in db.txns && db.txns[id].account == a :: db.txns[id].amount
  }

  function Uncategorised(db: Db): map<Id, int> {
    map id | id in db.txns && db.txns[id].category.None? :: db.txns[id].amount
  }

  function Within(db: Db, c: Id): map<Id, int> {
    map id | id in db.txns && db.txns[id].category == Some(c) :: db.txns[id].amount
  }

  function WithinIn(db: Db, c: Id, m: Month): map<Id, int> {
    map id | id in db.txns && db.txns[id].category == Some(c) && db.txns[id].date.month == m :: db.txns[id].amount
  }

  function WithinUpTo(db: Db, c: Id, m: Month): map<Id, int> {
    map id | id in db.txns && db.txns[id].category == Some(c) && db.txns[id].date.month <= m :: db.txns[id].amount
  }

  function AssignedTo(db: Db, c: Id): map<Slot, int> {
    map k | k in db.assignments && k.category == c :: db.assignments[k]
  }

  function AssignedUpTo(db: Db, c: Id, m: Month): map<Slot, int> {
    map k | k in db.assignments && k.category == c && k.month <= m :: db.assignments[k]
  }

  // ---- what the statements add up ----

  /** A balance adds up every record of the account, of whatever kind and day. */
  lemma BalanceIsItsRecords(db: Db, a: Id)
    ensures Balance(db, a) == Sum(OnAccount(db, a))
  {
    RowsAreIgnored(db.txns, EVERY.(account := Some(a)), OnAccount(db, a));
  }

  /** Ready to assign is every record without a category, less everything assigned in any month. */
  lemma ReadyToAssignIs(db: Db)
    ensures ReadyToAssign(db) == Sum(Uncategorised(db)) - Sum(db.assignments)
  {
    RowsAreIgnored(db.txns, EVERY.(category := Some(None)), Uncategorised(db));
    SlotsAreIgnored(db.assignments, Slots(None, None, None), db.assignments);
  }

  /** The activity of a month adds up the records of the category dated in it. */
  lemma ActivityIsItsRecords(db: Db, c: Id, m: Month)
    ensures Activity(db, c, m) == Sum(WithinIn(db, c, m))
  {
    RowsAreIgnored(db.txns, Where(None, Some(Some(c)), Some(MonthStart(m)), Some(MonthStart(m + 1))), WithinIn(db, c, m));
  }

  /** What is available in a month is all that was assigned and recorded up to its end. */
  lemma AvailableIs(db: Db, c: Id, m: Month)
    ensures Available(db, c, m) == Sum(AssignedUpTo(db, c, m)) + Sum(WithinUpTo(db, c, m))
  {
    SlotsAreIgnored(db.assignments, Slots(Some(c), None, Some(m)), AssignedUpTo(db, c, m));
    RowsAreIgnored(db.txns, Where(None, Some(Some(c)), None, Some(MonthStart(m + 1))), WithinUpTo(db, c, m));
  }

  /** Over all months, those to come included. */
  lemma AvailableAllTimeIs(db: Db, c: Id)
    ensures AvailableAllTime(db, c) == Sum(AssignedTo(db, c)) + Sum(Within(db, c))
  {
    SlotsAreIgnored(db.assignments, Slots(Some(c), None, None), AssignedTo(db, c));
    RowsAreIgnored(db.txns, EVERY.(category := Some(Some(c))), Within(db, c));
  }

  /** What a category was assigned in a month is the one row there can be for it. */
  lemma AssignedIsTheRow(db: Db, k: Id, m: Month)
    ensures Assigned(db, k, m) == if Slot(k, m) in db.assignments then db.assignments[Slot(k, m)] else 0
  {
    var column := AssignedColumn(db.assignments, Slots(Some(k), Some(m), Some(m)));
    if Slot(k, m) in column {
      SumPick(column, Slot(k, m));
    }
    SumZero(column - {Slot(k, m)});
    assert Slot(k, m) !in column ==> column - {Slot(k, m)} == column;
  }
}
