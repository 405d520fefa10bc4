/** Records: an income or an expense written, corrected and removed. */
module Transactions {
  import opened Common
  import opened Ledger
  import opened Store
  import opened Accounts

  type EntryKind = k: TxnKind | k == INCOME || k == EXPENSE witness INCOME

  datatype Draft = Draft(
    account: Id,
    category: Option<Id>,
    kind: EntryKind,
    amount: Positive,
    date: Date,
    payee: Option<string>)

  /** The amount arrives without a sign and the kind decides the direction. */
  function SignedAmount(kind: EntryKind, amount: int): int {
    if kind == EXPENSE then -amount else amount
  }

  function RefuseDraft(d: Draft, openedOn: Date, category: Option<Category>, categoryChanged: bool, today: Date): Option<Refusal> {
    if Earlier(today, d.date) then Some(DATE_IN_FUTURE)
    else if Earlier(d.date, openedOn) then Some(DATE_BEFORE_ACCOUNT)
    else if category.None? then (if d.kind == EXPENSE then Some(CATEGORY_REQUIRED) else None)
    else if category.value.hiddenAt.Some? && categoryChanged then Some(CATEGORY_HIDDEN)
    else None
  }

  /** A system record and a transfer leg belong to operations of their own. */
  function RefuseTarget(t: Txn): Option<Refusal> {
    if t.system || t.transfer.Some? then Some(NOT_EDITABLE) else None
  }

  function RefuseUnusable(db: Db, d: Draft, heldCategory: Option<Id>, alsoHeld: seq<Id>, today: Date): Option<Refusal> {
    match RefusalOfAccounts(db, [d.account] + alsoHeld)
    case Some(reason) => Some(reason)
    case None =>
      assert d.account in [d.account] + alsoHeld;
      if d.category.Some? && d.category.value !in db.categories then Some(UNKNOWN_CATEGORY)
      else
        var category := if d.category.Some? then Some(db.categories[d.category.value]) else None;
        RefuseDraft(d, db.accounts[d.account].openedOn, category, d.category != heldCategory, today)
  }

  function Row(d: Draft, createdAt: int): Txn {
    Txn(d.account, d.category, d.date, SignedAmount(d.kind, d.amount), d.kind, None, d.payee, false, createdAt)
  }

  function Created(db: Db, id: Id, d: Draft, today: Date, at: int): Outcome {
    match RefuseUnusable(db, d, None, [], today)
    case Some(reason) => Stops(Refused(reason))
    case None => Writes(db.(txns := db.txns[id := Row(d, at)]))
  }

  function Updated(db: Db, id: Id, d: Draft, today: Date): Outcome {
    if id !in db.txns then Stops(Refused(UNKNOWN_TRANSACTION))
    else
      var current := db.txns[id];
      match RefuseTarget(current)
      case Some(reason) => Stops(Refused(reason))
      case None =>
        match RefuseUnusable(db, d, current.category, [current.account], today)
        case Some(reason) => Stops(Refused(reason))
        case None => Writes(db.(txns := db.txns[id := Row(d, current.createdAt)]))
  }

  function Removed(db: Db, id: Id): Outcome {
    if id !in db.txns then Stops(Refused(UNKNOWN_TRANSACTION))
    else
      match RefuseTarget(db.txns[id])
      case Some(reason) => Stops(Refused(reason))
      case None =>
        match RefusalOfAccounts(db, [db.txns[id].account])
        case Some(reason) => Stops(Refused(reason))
        case None => Writes(db.(txns := db.txns - {id}))
  }

  // ---- the operations over the database ----

  method RefuseWrite(store: Database, d: Draft, heldCategory: Option<Id>, alsoHeld: seq<Id>, today: Date)
    returns (refusal: Option<Refusal>)
    ensures refusal == RefuseUnusable(store.State(), d, heldCategory, alsoHeld, today)
  {
    refusal := RefusalOfHeld(store, [d.account] + alsoHeld);
    if refusal.Some? {
      return;
    }
    assert d.account in [d.account] + alsoHeld;
    var category: Option<Category> := None;
    if d.category.Some? {
      if d.category.value !in store.categories {
        return Some(UNKNOWN_CATEGORY);
      }
      category := Some(store.categories[d.category.value]);
    }
    refusal := RefuseDraft(d, store.accounts[d.account].openedOn, category, d.category != heldCategory, today);
  }

  method Create(store: Database, id: Id, d: Draft, today: Date, at: int) returns (answer: Answer)
    modifies store
    ensures answer == AnswerOf(Created(old(store.State()), id, d, today, at))
    ensures store.State() == After(old(store.State()), Created(old(store.State()), id, d, today, at))
  {
    var blocked := RefuseWrite(store, d, None, [], today);
    if blocked.Some? {
      return Refused(blocked.value);
    }
    store.txns := store.txns[id := Row(d, at)];
    answer := Done;
  }

  method Update(store: Database, id: Id, d: Draft, today: Date) returns (answer: Answer)
    modifies store
    ensures answer == AnswerOf(Updated(old(store.State()), id, d, today))
    ensures store.State() == After(old(store.State()), Updated(old(store.State()), id, d, today))
  {
    if id !in store.txns {
      return Refused(UNKNOWN_TRANSACTION);
    }
    var current := store.txns[id];
    var blocked := RefuseTarget(current);
    if blocked.Some? {
      return Refused(blocked.value);
    }
    blocked := RefuseWrite(store, d, current.category, [current.account], today);
    if blocked.Some? {
      return Refused(blocked.value);
    }
    store.txns := store.txns[id := Row(d, current.createdAt)];
    answer := Done;
  }

  method Remove(store: Database, id: Id) returns (answer: Answer)
    modifies store
    ensures answer == AnswerOf(Removed(old(store.State()), id))
    ensures store.State() == After(old(store.State()), Removed(old(store.State()), id))
  {
    if id !in store.txns {
      return Refused(UNKNOWN_TRANSACTION);
    }
    var blocked := RefuseTarget(store.txns[id]);
    if blocked.Some? {
      return Refused(blocked.value);
    }
    blocked := RefusalOfHeld(store, [store.txns[id].account]);
    if blocked.Some? {
      return Refused(blocked.value);
    }
    store.txns := store.txns - {id};
    answer := Done;
  }
}
