/** Accounts: which ones a write may name, creating and archiving one, correcting its opening, reconciling it. */
module Accounts {
  import opened Common
  import opened Ledger
  import opened Store

  /** An unknown account is reported before an archived one, whatever the order they were named in. */
  function RefusalOfAccounts(db: Db, wanted: seq<Id>): Option<Refusal> {
    if exists a :: a in wanted && a !in db.accounts then Some(UNKNOWN_ACCOUNT)
    else if exists a :: a in wanted && db.accounts[a].archived then Some(ACCOUNT_ARCHIVED)
    else None
  }

  method RefusalOfHeld(store: Database, wanted: seq<Id>) returns (refusal: Option<Refusal>)
    ensures refusal == RefusalOfAccounts(store.State(), wanted)
  {
    for i := 0 to |wanted|
      invariant forall j | 0 <= j < i :: wanted[j] in store.accounts
    {
      if wanted[i] !in store.accounts {
        return Some(UNKNOWN_ACCOUNT);
      }
    }
    for i := 0 to |wanted|
      invariant forall j | 0 <= j < i :: !store.accounts[wanted[j]].archived
    {
      if store.accounts[wanted[i]].archived {
        assert wanted[i] in wanted;
        return Some(ACCOUNT_ARCHIVED);
      }
    }
    refusal := None;
  }

  function Opening(account: Id, amount: int, today: Date, createdAt: int): Txn {
    Txn(account, None, today, amount, INCOME, None, None, true, createdAt)
  }

  function Adjustment(account: Id, amount: int, today: Date, createdAt: int): Txn {
    Txn(account, None, today, amount, ADJUSTMENT, None, None, false, createdAt)
  }

  // ---- what each operation does ----

  function Created(db: Db, id: Id, openingId: Id, amount: int, openedOn: Date, today: Date, at: int): Outcome {
    Writes(db.(accounts := db.accounts[id := Account(openedOn, false)],
               txns := db.txns[openingId := Opening(id, amount, today, at)]))
  }

  ghost function Archived(db: Db, id: Id): Outcome {
    match RefusalOfAccounts(db, [id])
    case Some(reason) => Stops(Refused(reason))
    case None =>
      if Balance(db, id) != 0 then Stops(Refused(BALANCE_NOT_ZERO(Balance(db, id))))
      else Writes(db.(accounts := db.accounts[id := db.accounts[id].(archived := true)]))
  }

  /** The rows the app wrote itself for an account: its opening balance. */
  function Openings(rows: map<Id, Txn>, account: Id): set<Id> {
    set id | id in rows && rows[id].account == account && rows[id].system
  }

  function Movements(rows: map<Id, Txn>, account: Id): set<Id> {
    set id | id in rows && rows[id].account == account && !rows[id].system
  }

  ghost function OpeningCorrected(db: Db, id: Id, amount: int): Outcome {
    match RefusalOfAccounts(db, [id])
    case Some(reason) => Stops(Refused(reason))
    case None =>
      if Movements(db.txns, id) != {} then Stops(Refused(OPENING_FROZEN))
      else if Openings(db.txns, id) == {} then Stops(Broken(NO_OPENING))
      else
        HasLeast(Openings(db.txns, id));
        var opening :| Least(Openings(db.txns, id), opening);
        Writes(db.(txns := db.txns[opening := db.txns[opening].(amount := amount)]))
  }

  ghost function Reconciled(db: Db, id: Id, adjustmentId: Id, balance: int, today: Date, at: int): Outcome {
    match RefusalOfAccounts(db, [id])
    case Some(reason) => Stops(Refused(reason))
    case None =>
      var difference := balance - Balance(db, id);
      if difference == 0 then Writes(db)
      else Writes(db.(txns := db.txns[adjustmentId := Adjustment(id, difference, today, at)]))
  }

  // ---- the operations over the database ----

  method Create(store: Database, id: Id, openingId: Id, amount: int, openedOn: Date, today: Date, at: int)
    returns (answer: Answer)
    modifies store
    ensures answer == AnswerOf(Created(old(store.State()), id, openingId, amount, openedOn, today, at))
    ensures store.State() == After(old(store.State()), Created(old(store.State()), id, openingId, amount, openedOn, today, at))
  {
    store.accounts := store.accounts[id := Account(openedOn, false)];
    store.txns := store.txns[openingId := Opening(id, amount, today, at)];
    answer := Done;
  }

  method Archive(store: Database, id: Id) returns (answer: Answer)
    modifies store
    ensures answer == AnswerOf(Archived(old(store.State()), id))
    ensures store.State() == After(old(store.State()), Archived(old(store.State()), id))
  {
    var blocked := RefusalOfHeld(store, [id]);
    if blocked.Some? {
      return Refused(blocked.value);
    }
    var balance := store.BalanceOf(id);
    if balance != 0 {
      return Refused(BALANCE_NOT_ZERO(balance));
    }
    assert id in [id];
    store.accounts := store.accounts[id := store.accounts[id].(archived := true)];
    answer := Done;
  }

  method CorrectOpening(store: Database, id: Id, amount: int) returns (answer: Answer)
    modifies store
    ensures answer == AnswerOf(OpeningCorrected(old(store.State()), id, amount))
    ensures store.State() == After(old(store.State()), OpeningCorrected(old(store.State()), id, amount))
  {
    var blocked := RefusalOfHeld(store, [id]);
    if blocked.Some? {
      return Refused(blocked.value);
    }
    if Movements(store.txns, id) != {} {
      return Refused(OPENING_FROZEN);
    }
    var openings := Openings(store.txns, id);
    if openings == {} {
      return Broken(NO_OPENING);
    }
    var opening := LeastOf(openings);
    store.txns := store.txns[opening := store.txns[opening].(amount := amount)];
    answer := Done;
  }

  /** Answers with the difference as well, which is zero exactly when nothing was written. */
  method Reconcile(store: Database, id: Id, adjustmentId: Id, balance: int, today: Date, at: int)
    returns (answer: Answer, difference: int)
    modifies store
    ensures answer == AnswerOf(Reconciled(old(store.State()), id, adjustmentId, balance, today, at))
    ensures store.State() == After(old(store.State()), Reconciled(old(store.State()), id, adjustmentId, balance, today, at))
    ensures answer == Done ==> difference == balance - old(Balance(store.State(), id))
  {
    difference := 0;
    var blocked := RefusalOfHeld(store, [id]);
    if blocked.Some? {
      return Refused(blocked.value), 0;
    }
    var summed := store.BalanceOf(id);
    difference := balance - summed;
    if difference != 0 {
      store.txns := store.txns[adjustmentId := Adjustment(id, difference, today, at)];
    }
    answer := Done;
  }
}
