/**
 The stored tables of one budget and everything derived from them. Only transactions and assignments carry
 money; every balance, every "available" and "ready to assign" is one of the sums below.
 */
module Ledger {
  import opened Common
  import opened Sums

  /** Months are counted; module Calendar ties the count to the "YYYY-MM" strings and their order. */
  type Month = int

  type DayOfMonth = d: int | 1 <= d <= 31 witness 1

  datatype Date = Date(month: Month, day: DayOfMonth)

  predicate Earlier(a: Date, b: Date) {
    a.month < b.month || (a.month == b.month && a.day < b.day)
  }

  function MonthStart(m: Month): Date {
    Date(m, 1)
  }

  datatype TxnKind = INCOME | EXPENSE | TRANSFER | ADJUSTMENT

  datatype Account = Account(openedOn: Date, archived: bool)

  datatype Group = Group(hiddenAt: Option<int>)

  datatype Category = Category(group: Id, hiddenAt: Option<int>)

  datatype Txn = Txn(
    account: Id,
    category: Option<Id>,
    date: Date,
    amount: int,
    kind: TxnKind,
    transfer: Option<Id>,
    payee: Option<string>,
    system: bool,
    createdAt: int)

  datatype Slot = Slot(category: Id, month: Month)

  datatype Db = Db(
    accounts: map<Id, Account>,
    groups: map<Id, Group>,
    categories: map<Id, Category>,
    txns: map<Id, Txn>,
    assignments: map<Slot, int>)

  const EMPTY := Db(map[], map[], map[], map[], map[])

  // ---- SUM(...) over the transactions ----

  /** The WHERE clause of a sum over transactions; a missing part does not filter. */
  datatype Where = Where(account: Option<Id>, category: Option<Option<Id>>, from: Option<Date>, before: Option<Date>)

  const EVERY := Where(None, None, None, None)

  predicate Meets(t: Txn, w: Where) {
    && (w.account.Some? ==> t.account == w.account.value)
    && (w.category.Some? ==> t.category == w.category.value)
    && (w.from.Some? ==> !Earlier(t.date, w.from.value))
    && (w.before.Some? ==> Earlier(t.date, w.before.value))
  }

  function Counted(t: Txn, w: Where): int {
    if Meets(t, w) then t.amount else 0
  }

  ghost function Column(rows: map<Id, Txn>, w: Where): map<Id, int> {
    map id | id in rows :: Counted(rows[id], w)
  }

  ghost function Total(rows: map<Id, Txn>, w: Where): int {
    Sum(Column(rows, w))
  }

  lemma TotalPut(rows: map<Id, Txn>, id: Id, t: Txn, w: Where)
    ensures Total(rows[id := t], w) == Total(rows, w) + Counted(t, w) - (if id in rows then Counted(rows[id], w) else 0)
  {
    assert Column(rows[id := t], w) == Column(rows, w)[id := Counted(t, w)];
    SumPut(Column(rows, w), id, Counted(t, w));
  }

  lemma TotalDrop(rows: map<Id, Txn>, id: Id, w: Where)
    ensures Total(rows - {id}, w) == Total(rows, w) - (if id in rows then Counted(rows[id], w) else 0)
  {
    assert Column(rows - {id}, w) == Column(rows, w) - {id};
    SumDrop(Column(rows, w), id);
  }

  // ---- SUM(...) over the assignments ----

  /** The WHERE clause of a sum over assignments, both months included. */
  datatype Slots = Slots(category: Option<Id>, from: Option<Month>, to: Option<Month>)

  predicate Covers(s: Slots, k: Slot) {
    && (s.category.Some? ==> k.category == s.category.value)
    && (s.from.Some? ==> s.from.value <= k.month)
    && (s.to.Some? ==> k.month <= s.to.value)
  }

  ghost function AssignedColumn(rows: map<Slot, int>, s: Slots): map<Slot, int> {
    map k | k in rows :: if Covers(s, k) then rows[k] else 0
  }

  ghost function AssignedTotal(rows: map<Slot, int>, s: Slots): int {
    Sum(AssignedColumn(rows, s))
  }

  function AmountAt(rows: map<Slot, int>, k: Slot): int {
    if k in rows then rows[k] else 0
  }

  /** An upsert that increments: the row is created with the delta or grows by it. */
  function Upserted(rows: map<Slot, int>, k: Slot, delta: int): map<Slot, int> {
    rows[k := AmountAt(rows, k) + delta]
  }

  lemma AssignedUpserted(rows: map<Slot, int>, k: Slot, delta: int, s: Slots)
    ensures AssignedTotal(Upserted(rows, k, delta), s) == AssignedTotal(rows, s) + (if Covers(s, k) then delta else 0)
  {
    var cell := if Covers(s, k) then AmountAt(rows, k) + delta else 0;
    assert AssignedColumn(Upserted(rows, k, delta), s) == AssignedColumn(rows, s)[k := cell];
    SumPut(AssignedColumn(rows, s), k, cell);
  }

  // ---- the derived read side ----

  ghost function Balance(db: Db, account: Id): int {
    Total(db.txns, EVERY.(account := Some(account)))
  }

  ghost function ReadyToAssign(db: Db): int {
    Total(db.txns, EVERY.(category := Some(None))) - AssignedTotal(db.assignments, Slots(None, None, None))
  }

  ghost function Assigned(db: Db, category: Id, m: Month): int {
    AssignedTotal(db.assignments, Slots(Some(category), Some(m), Some(m)))
  }

  ghost function Activity(db: Db, category: Id, m: Month): int {
    Total(db.txns, Where(None, Some(Some(category)), Some(MonthStart(m)), Some(MonthStart(m + 1))))
  }

  ghost function Available(db: Db, category: Id, m: Month): int {
    AssignedTotal(db.assignments, Slots(Some(category), None, Some(m)))
    + Total(db.txns, Where(None, Some(Some(category)), None, Some(MonthStart(m + 1))))
  }

  ghost function AvailableAllTime(db: Db, category: Id): int {
    AssignedTotal(db.assignments, Slots(Some(category), None, None))
    + Total(db.txns, EVERY.(category := Some(Some(category))))
  }

  /** An envelope is a category or, when it names none, the pool. */
  type Envelope = Option<Id>

  ghost function Held(db: Db, e: Envelope): int {
    match e
    case None => ReadyToAssign(db)
    case Some(c) => AvailableAllTime(db, c)
  }

  predicate Open(db: Db, account: Id) {
    account in db.accounts && !db.accounts[account].archived
  }

  ghost function OpenBalances(db: Db): map<Id, int> {
    map a | a in db.accounts && Open(db, a) :: Balance(db, a)
  }

  /** What the accounts list carries as its total. */
  ghost function OpenTotal(db: Db): int {
    Sum(OpenBalances(db))
  }

  /** The all-time available of every category, the hidden ones included. */
  ghost function EnvelopesTotal(db: Db): int {
    Sum(map c | c in db.categories :: AvailableAllTime(db, c))
  }
}
