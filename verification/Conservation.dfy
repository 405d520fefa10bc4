/**
 The invariant the budget stands on: what the open accounts hold is what is ready to assign plus what the
 envelopes hold, hidden ones included, in every state any run can reach.
 */
module Conservation {
  import opened Common
  import opened Sums
  import opened Ledger
  import opened Store
  import opened Runs
  import opened Soundness

  ghost function Amounts(rows: map<Id, Txn>): map<Id, int> {
    map id | id in rows :: rows[id].amount
  }

  ghost function AccountKey(rows: map<Id, Txn>): map<Id, Id> {
    map id | id in rows :: rows[id].account
  }

  // ---- the accounts' side ----

  ghost function Balances(db: Db): map<Id, int> {
    map a | a in db.accounts :: Balance(db, a)
  }

  /** Archived accounts are empty, so leaving them out of the total loses nothing. */
  lemma OpenTotalIsAll(db: Db)
    requires ArchivedAreEmpty(db)
    ensures OpenTotal(db) == Sum(Balances(db))
  {
    forall a | a in Balances(db)
      ensures Balances(db)[a] == if a in OpenBalances(db) then OpenBalances(db)[a] else 0
    {
      if db.accounts[a].archived {
        assert Balance(db, a) == 0;
      }
    }
    SumIgnoresZeros(Balances(db), OpenBalances(db));
  }

  lemma BalanceIsGroupSum(rows: map<Id, Txn>, a: Id)
    ensures Total(rows, EVERY.(account := Some(a))) == Sum(OfGroup(Amounts(rows), AccountKey(rows), a))
  {
    assert Column(rows, EVERY.(account := Some(a))) == OfGroup(Amounts(rows), AccountKey(rows), a);
  }

  lemma BalancesAddUp(db: Db)
    requires References(db) && ArchivedAreEmpty(db)
    ensures OpenTotal(db) == Sum(Amounts(db.txns))
  {
    OpenTotalIsAll(db);
    var amounts, key := Amounts(db.txns), AccountKey(db.txns);
    forall a | a in db.accounts
      ensures Balances(db)[a] == Sum(OfGroup(amounts, key, a))
    {
      BalanceIsGroupSum(db.txns, a);
    }
    assert Balances(db) == GroupSums(amounts, key, db.accounts.Keys);
    SumOfGroupsIsWhole(amounts, key, db.accounts.Keys);
  }

  // ---- the envelopes' side ----

  ghost function SpentOf(db: Db): map<Id, int> {
    map c | c in db.categories :: Total(db.txns, EVERY.(category := Some(Some(c))))
  }

  ghost function LaidOf(db: Db): map<Id, int> {
    map c | c in db.categories :: AssignedTotal(db.assignments, Slots(Some(c), None, None))
  }

  ghost function HeldOf(db: Db): map<Id, int> {
    map c | c in db.categories :: AvailableAllTime(db, c)
  }

  ghost function SlotKey(rows: map<Slot, int>): map<Slot, Id> {
    map k | k in rows :: k.category
  }

  lemma AssignmentsAddUp(db: Db)
    requires References(db)
    ensures Sum(LaidOf(db)) == AssignedTotal(db.assignments, Slots(None, None, None))
  {
    var key := SlotKey(db.assignments);
    assert AssignedColumn(db.assignments, Slots(None, None, None)) == db.assignments;
    forall c | c in db.categories
      ensures LaidOf(db)[c] == Sum(OfGroup(db.assignments, key, c))
    {
      assert AssignedColumn(db.assignments, Slots(Some(c), None, None)) == OfGroup(db.assignments, key, c);
    }
    assert LaidOf(db) == GroupSums(db.assignments, key, db.categories.Keys);
    SumOfGroupsIsWhole(db.assignments, key, db.categories.Keys);
  }

  /** The rows that name a category, and which one. */
  ghost function Named(rows: map<Id, Txn>): map<Id, Txn> {
    map id | id in rows && rows[id].category.Some? :: rows[id]
  }

  ghost function CategoryKey(rows: map<Id, Txn>): map<Id, Id>
    requires forall id | id in rows :: rows[id].category.Some?
  {
    map id | id in rows :: rows[id].category.value
  }

  lemma SpentIsGroupSum(rows: map<Id, Txn>, c: Id)
    ensures Total(rows, EVERY.(category := Some(Some(c)))) == Sum(OfGroup(Amounts(Named(rows)), CategoryKey(Named(rows)), c))
  {
    SumIgnoresZeros(Column(rows, EVERY.(category := Some(Some(c)))), OfGroup(Amounts(Named(rows)), CategoryKey(Named(rows)), c));
  }

  lemma NamedAndPooled(rows: map<Id, Txn>)
    ensures Sum(Amounts(Named(rows))) + Total(rows, EVERY.(category := Some(None))) == Sum(Amounts(rows))
  {
    var named := map id | id in rows :: if rows[id].category.Some? then rows[id].amount else 0;
    SumIgnoresZeros(named, Amounts(Named(rows)));
    SumColumns(named, Column(rows, EVERY.(category := Some(None))), Amounts(rows));
  }

  lemma SpendingAddsUp(db: Db)
    requires References(db)
    ensures Sum(SpentOf(db)) + Total(db.txns, EVERY.(category := Some(None))) == Sum(Amounts(db.txns))
  {
    var named := Named(db.txns);
    forall c | c in db.categories
      ensures SpentOf(db)[c] == Sum(OfGroup(Amounts(named), CategoryKey(named), c))
    {
      SpentIsGroupSum(db.txns, c);
    }
    assert SpentOf(db) == GroupSums(Amounts(named), CategoryKey(named), db.categories.Keys);
    SumOfGroupsIsWhole(Amounts(named), CategoryKey(named), db.categories.Keys);
    NamedAndPooled(db.txns);
  }

  lemma Conserved(db: Db)
    requires References(db) && ArchivedAreEmpty(db)
    ensures OpenTotal(db) == ReadyToAssign(db) + EnvelopesTotal(db)
  {
    BalancesAddUp(db);
    AssignmentsAddUp(db);
    SpendingAddsUp(db);
    SumColumns(LaidOf(db), SpentOf(db), HeldOf(db));
    assert EnvelopesTotal(db) == Sum(HeldOf(db));
  }

  /** The budget balances in every reachable state, whatever was written, corrected, moved, hidden or archived. */
  lemma AlwaysConserved(db: Db)
    requires Reachable(db)
    ensures OpenTotal(db) == ReadyToAssign(db) + EnvelopesTotal(db)
  {
    ReachableIsSound(db);
    Conserved(db);
  }
}
