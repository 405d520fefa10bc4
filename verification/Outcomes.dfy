/**
 What each write answers and leaves, told by the tables alone: which guard speaks first, which rows are there after,
 and how the figures of every category and month have changed.
 */
module Outcomes {
  import opened Common
  import opened Ledger
  import opened Store
  import opened Runs
  import opened Soundness
  import Accounts
  import Transactions
  import Transfers
  import Moves
  import Categories
  import Figures

  /** Days are in order as they are counted. */
  lemma EarlierIsBefore(a: Date, b: Date)
    ensures Earlier(a, b) <==> 31 * a.month + a.day < 31 * b.month + b.day
  {
  }

  ghost predicate Answers(db: Db, c: Command, reason: Refusal) {
    Does(db, c) == Stops(Refused(reason)) && Step(db, c) == db
  }

  ghost predicate GoesThrough(db: Db, c: Command, after: Db) {
    AnswerOf(Does(db, c)) == Done && Step(db, c) == after
  }

  predicate Shut(db: Db, account: Id) {
    account in db.accounts && db.accounts[account].archived
  }

  // ---- accounts ----

  /** A new account is open and holds one record, the opening, dated today. */
  lemma CreateAccountOutcome(db: Db, id: Id, opening: Id, amount: int, openedOn: Date, today: Date, at: int)
    ensures GoesThrough(db, CreateAccount(id, opening, amount, openedOn, today, at),
              db.(accounts := db.accounts[id := Account(openedOn, false)],
                  txns := db.txns[opening := Txn(id, None, today, amount, INCOME, None, None, true, at)]))
  {
  }

  lemma ArchiveOutcome(db: Db, id: Id)
    ensures id !in db.accounts ==> Answers(db, ArchiveAccount(id), UNKNOWN_ACCOUNT)
    ensures Shut(db, id) ==> Answers(db, ArchiveAccount(id), ACCOUNT_ARCHIVED)
    ensures Open(db, id) && Balance(db, id) != 0 ==> Answers(db, ArchiveAccount(id), BALANCE_NOT_ZERO(Balance(db, id)))
    ensures Open(db, id) && Balance(db, id) == 0 ==>
              GoesThrough(db, ArchiveAccount(id), db.(accounts := db.accounts[id := Account(db.accounts[id].openedOn, true)]))
  {
    assert id in [id];
  }

  /** The opening can be corrected as long as nothing but the app wrote on the account. */
  lemma CorrectOpeningOutcome(db: Db, id: Id, amount: int, opening: Id)
    requires Sound(db)
    requires id in db.accounts ==> opening in db.txns && db.txns[opening].account == id && db.txns[opening].system
    ensures id !in db.accounts ==> Answers(db, CorrectOpening(id, amount), UNKNOWN_ACCOUNT)
    ensures Shut(db, id) ==> Answers(db, CorrectOpening(id, amount), ACCOUNT_ARCHIVED)
    ensures Open(db, id) ==>
              if exists k :: k in db.txns && db.txns[k].account == id && !db.txns[k].system
              then Answers(db, CorrectOpening(id, amount), OPENING_FROZEN)
              else GoesThrough(db, CorrectOpening(id, amount), db.(txns := db.txns[opening := db.txns[opening].(amount := amount)]))
  {
    assert id in [id];
    if Open(db, id) {
      var o :| Accounts.Openings(db.txns, id) == {o};
      assert opening in Accounts.Openings(db.txns, id);
      if k :| k in db.txns && db.txns[k].account == id && !db.txns[k].system {
        assert k in Accounts.Movements(db.txns, id);
      }
    }
  }

  /** A reconciliation writes the difference to the stated balance, today, and nothing where there is none. */
  lemma ReconcileOutcome(db: Db, id: Id, adjustment: Id, balance: int, today: Date, at: int)
    ensures var c := Reconcile(id, adjustment, balance, today, at);
            && (id !in db.accounts ==> Answers(db, c, UNKNOWN_ACCOUNT))
            && (Shut(db, id) ==> Answers(db, c, ACCOUNT_ARCHIVED))
            && (Open(db, id) && balance == Balance(db, id) ==> GoesThrough(db, c, db))
            && (Open(db, id) && balance != Balance(db, id) ==>
                  GoesThrough(db, c, db.(txns :=
                    db.txns[adjustment := Txn(id, None, today, balance - Balance(db, id), ADJUSTMENT, None, None, false, at)])))
  {
    assert id in [id];
  }

  // ---- records ----

  function Signed(kind: TxnKind, amount: int): int {
    if kind == EXPENSE then -amount else amount
  }

  predicate Dated(openedOn: Date, date: Date, today: Date) {
    !Earlier(date, openedOn) && !Earlier(today, date)
  }

  /** The category a record names: there, and shown unless the record stood in it before. */
  predicate NamesWell(db: Db, d: Transactions.Draft, kept: Option<Id>) {
    match d.category
    case None => d.kind != EXPENSE
    case Some(k) => k in db.categories && (db.categories[k].hiddenAt.None? || kept == Some(k))
  }

  /**
   The first guard that fails names the refusal: an account unknown or archived, a category unknown, a day to come or
   before the account was opened, an expense without a category, a hidden category the record is new to.
   */
  function FirstRefusal(db: Db, d: Transactions.Draft, kept: Option<Id>, today: Date): Refusal
    requires Open(db, d.account) && !(Dated(db.accounts[d.account].openedOn, d.date, today) && NamesWell(db, d, kept))
  {
    if d.category.Some? && d.category.value !in db.categories then UNKNOWN_CATEGORY
    else if Earlier(today, d.date) then DATE_IN_FUTURE
    else if Earlier(d.date, db.accounts[d.account].openedOn) then DATE_BEFORE_ACCOUNT
    else if d.category.None? then CATEGORY_REQUIRED
    else CATEGORY_HIDDEN
  }

  /** A record goes through if and only if its account is open, its day in time and its category named as it has to be. */
  lemma CreateRecordOutcome(db: Db, id: Id, d: Transactions.Draft, today: Date, at: int)
    ensures var c := CreateRecord(id, d, today, at);
            && (d.account !in db.accounts ==> Answers(db, c, UNKNOWN_ACCOUNT))
            && (Shut(db, d.account) ==> Answers(db, c, ACCOUNT_ARCHIVED))
            && (Open(db, d.account) ==>
                  if Dated(db.accounts[d.account].openedOn, d.date, today) && NamesWell(db, d, None)
                  then GoesThrough(db, c, db.(txns :=
                    db.txns[id := Txn(d.account, d.category, d.date, Signed(d.kind, d.amount), d.kind, None, d.payee, false, at)]))
                  else Answers(db, c, FirstRefusal(db, d, None, today)))
  {
    assert d.account in [d.account] + [];
  }

  predicate Editable(t: Txn) {
    !t.system && t.transfer.None?
  }

  /** An edit is judged like a new record, with the account it leaves open too and its own category let be. */
  lemma UpdateRecordOutcome(db: Db, id: Id, d: Transactions.Draft, today: Date)
    requires id in db.txns ==> db.txns[id].account in db.accounts
    ensures var c := UpdateRecord(id, d, today);
            && (id !in db.txns ==> Answers(db, c, UNKNOWN_TRANSACTION))
            && (id in db.txns && !Editable(db.txns[id]) ==> Answers(db, c, NOT_EDITABLE))
            && (id in db.txns && Editable(db.txns[id]) ==>
                  var was := db.txns[id];
                  if d.account !in db.accounts then Answers(db, c, UNKNOWN_ACCOUNT)
                  else if Shut(db, d.account) || Shut(db, was.account) then Answers(db, c, ACCOUNT_ARCHIVED)
                  else if Dated(db.accounts[d.account].openedOn, d.date, today) && NamesWell(db, d, was.category)
                  then GoesThrough(db, c, db.(txns := db.txns[id :=
                    Txn(d.account, d.category, d.date, Signed(d.kind, d.amount), d.kind, None, d.payee, false, was.createdAt)]))
                  else Answers(db, c, FirstRefusal(db, d, was.category, today)))
  {
    if id in db.txns {
      var wanted := [d.account] + [db.txns[id].account];
      assert wanted[0] in wanted && wanted[1] in wanted;
    }
  }

  lemma RemoveRecordOutcome(db: Db, id: Id)
    requires id in db.txns ==> db.txns[id].account in db.accounts
    ensures id !in db.txns ==> Answers(db, RemoveRecord(id), UNKNOWN_TRANSACTION)
    ensures id in db.txns && !Editable(db.txns[id]) ==> Answers(db, RemoveRecord(id), NOT_EDITABLE)
    ensures id in db.txns && Editable(db.txns[id]) ==>
              if Shut(db, db.txns[id].account) then Answers(db, RemoveRecord(id), ACCOUNT_ARCHIVED)
              else GoesThrough(db, RemoveRecord(id), db.(txns := db.txns - {id}))
  {
    if id in db.txns {
      assert db.txns[id].account in [db.txns[id].account];
    }
  }

  // ---- transfers ----

  /** Both accounts are open: what is left to be asked of a transfer. */
  predicate Transferable(db: Db, d: Transfers.Draft, today: Date)
    requires Open(db, d.from) && Open(db, d.to)
  {
    d.from != d.to && Dated(db.accounts[d.from].openedOn, d.date, today) && Dated(db.accounts[d.to].openedOn, d.date, today)
  }

  function FirstRefusalOfTransfer(d: Transfers.Draft, today: Date): Refusal {
    if d.from == d.to then SAME_ACCOUNT else if Earlier(today, d.date) then DATE_IN_FUTURE else DATE_BEFORE_ACCOUNT
  }

  lemma JudgedTransfer(db: Db, d: Transfers.Draft, held: seq<Id>, today: Date)
    requires forall a | a in held :: a in db.accounts
    ensures Transfers.RefuseUnusable(db, d, held, today) ==
              if d.from !in db.accounts || d.to !in db.accounts then Some(UNKNOWN_ACCOUNT)
              else if (exists a :: a in held && Shut(db, a)) || Shut(db, d.from) || Shut(db, d.to) then Some(ACCOUNT_ARCHIVED)
              else if !Transferable(db, d, today) then Some(FirstRefusalOfTransfer(d, today)) else None
  {
    var wanted := held + [d.from, d.to];
    assert wanted[|held|] in wanted && wanted[|held| + 1] in wanted;
    assert forall a :: a in wanted <==> a in held || a == d.from || a == d.to;
  }

  lemma CreateTransferOutcome(db: Db, x: Id, o: Id, i: Id, d: Transfers.Draft, today: Date, at: int)
    ensures var c := CreateTransfer(x, o, i, d, today, at);
            if d.from !in db.accounts || d.to !in db.accounts then Answers(db, c, UNKNOWN_ACCOUNT)
            else if Shut(db, d.from) || Shut(db, d.to) then Answers(db, c, ACCOUNT_ARCHIVED)
            else if !Transferable(db, d, today) then Answers(db, c, FirstRefusalOfTransfer(d, today))
            else GoesThrough(db, c, db.(txns :=
              db.txns[o := Txn(d.from, None, d.date, -(d.amount as int), TRANSFER, Some(x), None, false, at)]
                     [i := Txn(d.to, None, d.date, d.amount, TRANSFER, Some(x), None, false, at)]))
  {
    JudgedTransfer(db, d, [], today);
  }

  /** The leg of a transfer as an edit leaves it: the one below zero leaves from, the one above arrives at. */
  function Rewritten(t: Txn, d: Transfers.Draft): Txn {
    if t.amount < 0 then t.(account := d.from, amount := -(d.amount as int), date := d.date)
    else t.(account := d.to, amount := d.amount, date := d.date)
  }

  predicate IsLeg(db: Db, id: Id, x: Id) {
    id in db.txns && db.txns[id].transfer == Some(x)
  }

  ghost predicate LegsOpen(db: Db, x: Id) {
    forall id | IsLeg(db, id, x) :: !Shut(db, db.txns[id].account)
  }

  /** The two rows of a transfer, and no third. */
  ghost predicate AreLegs(db: Db, x: Id, p: Transfers.Pair) {
    && IsLeg(db, p.outgoing, x) && IsLeg(db, p.incoming, x) && p.outgoing != p.incoming
    && (forall id | IsLeg(db, id, x) :: id == p.outgoing || id == p.incoming)
    && db.txns[p.outgoing].amount < 0 < db.txns[p.incoming].amount
    && db.txns[p.outgoing].account in db.accounts && db.txns[p.incoming].account in db.accounts
  }

  lemma TheLegs(db: Db, x: Id) returns (p: Transfers.Pair)
    requires Sound(db) && Transfers.Legs(db.txns, x) != {}
    ensures AreLegs(db, x, p) && db.txns[p.outgoing].category.None? && db.txns[p.incoming].category.None?
  {
    p := FoundPair(db, x);
    assert p.outgoing in Transfers.Legs(db.txns, x) && p.incoming in Transfers.Legs(db.txns, x);
    assert Shaped(db.txns[p.outgoing]) && Shaped(db.txns[p.incoming]);
    forall id | IsLeg(db, id, x)
      ensures id == p.outgoing || id == p.incoming
    {
      assert id in Transfers.Legs(db.txns, x);
    }
  }

  lemma LegsAreFound(db: Db, x: Id, p: Transfers.Pair)
    requires AreLegs(db, x, p)
    ensures Transfers.Legs(db.txns, x) == {p.outgoing, p.incoming}
    ensures Transfers.PairOf(db.txns, Transfers.Legs(db.txns, x)) == Some(p)
  {
    var legs := Transfers.Legs(db.txns, x);
    forall id
      ensures id in legs <==> id == p.outgoing || id == p.incoming
    {
      assert id in legs <==> IsLeg(db, id, x);
    }
    assert Transfers.IsPairOf(db.txns, legs, p);
    var q :| Transfers.IsPairOf(db.txns, legs, q) && Transfers.PairOf(db.txns, legs) == Some(q);
    Transfers.PairIsUnique(db.txns, legs, p, q);
  }

  lemma NoLegs(db: Db, x: Id)
    ensures Transfers.Legs(db.txns, x) == {} <==> forall id :: !IsLeg(db, id, x)
  {
    assert forall id :: id in Transfers.Legs(db.txns, x) <==> IsLeg(db, id, x);
  }

  lemma UpdateOfLegs(db: Db, x: Id, p: Transfers.Pair, d: Transfers.Draft, today: Date)
    requires AreLegs(db, x, p)
    ensures var c := UpdateTransfer(x, d, today);
            if d.from !in db.accounts || d.to !in db.accounts then Answers(db, c, UNKNOWN_ACCOUNT)
            else if !LegsOpen(db, x) || Shut(db, d.from) || Shut(db, d.to) then Answers(db, c, ACCOUNT_ARCHIVED)
            else if !Transferable(db, d, today) then Answers(db, c, FirstRefusalOfTransfer(d, today))
            else GoesThrough(db, c, db.(txns :=
              map id | id in db.txns :: if db.txns[id].transfer == Some(x) then Rewritten(db.txns[id], d) else db.txns[id]))
  {
    LegsAreFound(db, x, p);
    var held := [db.txns[p.outgoing].account, db.txns[p.incoming].account];
    JudgedTransfer(db, d, held, today);
    assert held[0] in held && held[1] in held;
    LegsRewritten(db, x, p, d);
  }

  /** An edited transfer has both legs, and no other row, with the new accounts, amount and day. */
  lemma UpdateTransferOutcome(db: Db, x: Id, d: Transfers.Draft, today: Date)
    requires Sound(db)
    ensures var c := UpdateTransfer(x, d, today);
            if forall id :: !IsLeg(db, id, x) then Answers(db, c, UNKNOWN_TRANSFER)
            else if d.from !in db.accounts || d.to !in db.accounts then Answers(db, c, UNKNOWN_ACCOUNT)
            else if !LegsOpen(db, x) || Shut(db, d.from) || Shut(db, d.to) then Answers(db, c, ACCOUNT_ARCHIVED)
            else if !Transferable(db, d, today) then Answers(db, c, FirstRefusalOfTransfer(d, today))
            else GoesThrough(db, c, db.(txns :=
              map id | id in db.txns :: if db.txns[id].transfer == Some(x) then Rewritten(db.txns[id], d) else db.txns[id]))
  {
    NoLegs(db, x);
    if Transfers.Legs(db.txns, x) != {} {
      var p := TheLegs(db, x);
      UpdateOfLegs(db, x, p, d, today);
    }
  }

  lemma LegsRewritten(db: Db, x: Id, p: Transfers.Pair, d: Transfers.Draft)
    requires AreLegs(db, x, p)
    ensures db.txns[p.outgoing := Transfers.Relegged(db.txns[p.outgoing], d.from, -(d.amount as int), d.date)]
                   [p.incoming := Transfers.Relegged(db.txns[p.incoming], d.to, d.amount, d.date)]
         == map id | id in db.txns :: if db.txns[id].transfer == Some(x) then Rewritten(db.txns[id], d) else db.txns[id]
  {
    assert forall id | id in db.txns :: db.txns[id].transfer == Some(x) <==> IsLeg(db, id, x);
  }

  lemma RemoveOfLegs(db: Db, x: Id, p: Transfers.Pair)
    requires AreLegs(db, x, p)
    ensures if !LegsOpen(db, x) then Answers(db, RemoveTransfer(x), ACCOUNT_ARCHIVED)
            else GoesThrough(db, RemoveTransfer(x),
              db.(txns := map id | id in db.txns && db.txns[id].transfer != Some(x) :: db.txns[id]))
  {
    LegsAreFound(db, x, p);
    var wanted := [db.txns[p.outgoing].account, db.txns[p.incoming].account];
    assert wanted[0] in wanted && wanted[1] in wanted;
    assert db.txns - Transfers.Legs(db.txns, x) == map id | id in db.txns && db.txns[id].transfer != Some(x) :: db.txns[id];
  }

  lemma RemoveTransferOutcome(db: Db, x: Id)
    requires Sound(db)
    ensures if forall id :: !IsLeg(db, id, x) then Answers(db, RemoveTransfer(x), UNKNOWN_TRANSFER)
            else if !LegsOpen(db, x) then Answers(db, RemoveTransfer(x), ACCOUNT_ARCHIVED)
            else GoesThrough(db, RemoveTransfer(x),
              db.(txns := map id | id in db.txns && db.txns[id].transfer != Some(x) :: db.txns[id]))
  {
    NoLegs(db, x);
    if Transfers.Legs(db.txns, x) != {} {
      var p := TheLegs(db, x);
      RemoveOfLegs(db, x, p);
    }
  }

  // ---- moves ----

  predicate Takes(db: Db, e: Envelope) {
    e.Some? ==> e.value in db.categories && db.categories[e.value].hiddenAt.None?
  }

  /** What a side that is no envelope to move money with is refused for. */
  function SideRefusal(db: Db, c: Id): Refusal {
    if c in db.categories then CATEGORY_HIDDEN else UNKNOWN_CATEGORY
  }

  /** The side that is judged first, where both are no good, is the one with the smaller id. */
  function FirstBadSide(db: Db, d: Moves.Draft): Id
    requires d.from != d.to && !(Takes(db, d.from) && Takes(db, d.to))
  {
    if Takes(db, d.from) then d.to.value
    else if Takes(db, d.to) then d.from.value
    else if d.from.value < d.to.value then d.from.value else d.to.value
  }

  lemma {:induction false} JudgedInTurn(db: Db, sides: seq<Moves.CategoryMove>)
    requires |sides| <= 2
    ensures Moves.RefusalOfSides(db, sides) ==
              if |sides| > 0 && !Takes(db, Some(sides[0].category)) then Some(SideRefusal(db, sides[0].category))
              else if |sides| > 1 && !Takes(db, Some(sides[1].category)) then Some(SideRefusal(db, sides[1].category))
              else None
  {
    if |sides| > 0 {
      JudgedInTurn(db, sides[1..]);
    }
  }

  lemma SidesInTurn(d: Moves.Draft)
    requires d.from != d.to
    ensures var sides := Moves.InLockOrder(d);
            && |sides| == (if d.from.Some? then 1 else 0) + (if d.to.Some? then 1 else 0)
            && (d.from.Some? && d.to.Some? ==>
                  && sides[0].category == (if d.from.value < d.to.value then d.from.value else d.to.value)
                  && sides[1].category == (if d.from.value < d.to.value then d.to.value else d.from.value))
            && (d.from.None? ==> sides[0].category == d.to.value)
            && (d.to.None? ==> sides[0].category == d.from.value)
  {
  }

  /** A move goes through if and only if it names two envelopes, each the pool or a category that is shown. */
  lemma MoveOutcome(db: Db, d: Moves.Draft)
    ensures if d.from == d.to then Answers(db, Move(d), SAME_ENVELOPE)
            else if !(Takes(db, d.from) && Takes(db, d.to)) then Answers(db, Move(d), SideRefusal(db, FirstBadSide(db, d)))
            else GoesThrough(db, Move(d), db.(assignments := Step(db, Move(d)).assignments))
  {
    if d.from != d.to {
      SidesInTurn(d);
      JudgedInTurn(db, Moves.InLockOrder(d));
    }
  }

  /** A move is laid in its month on its two sides, and no other row of assignments is touched. */
  lemma MoveLays(db: Db, d: Moves.Draft, c: Id, m: Month)
    requires Does(db, Move(d)).Writes?
    ensures AmountAt(Step(db, Move(d)).assignments, Slot(c, m)) == AmountAt(db.assignments, Slot(c, m))
              + (if m != d.month then 0 else (if d.to == Some(c) then d.amount else 0) - (if d.from == Some(c) then d.amount else 0))
    ensures Slot(c, m) in Step(db, Move(d)).assignments <==>
              Slot(c, m) in db.assignments || (m == d.month && (d.from == Some(c) || d.to == Some(c)))
  {
    MoveOutcome(db, d);
  }

  // ---- categories and groups ----

  predicate Showing(db: Db, group: Id) {
    group in db.groups && db.groups[group].hiddenAt.None?
  }

  function GroupRefusal(db: Db, group: Id): Refusal {
    if group in db.groups then GROUP_HIDDEN else UNKNOWN_GROUP
  }

  lemma CreateOutcome(db: Db, id: Id, group: Id)
    ensures GoesThrough(db, CreateGroup(id), db.(groups := db.groups[id := Group(None)]))
    ensures if Showing(db, group)
            then GoesThrough(db, CreateCategory(id, group), db.(categories := db.categories[id := Category(group, None)]))
            else Answers(db, CreateCategory(id, group), GroupRefusal(db, group))
  {
  }

  lemma RegroupOutcome(db: Db, id: Id, group: Id, account: Option<Id>)
    ensures var c := Regroup(id, group, account);
            if id !in db.categories then Answers(db, c, UNKNOWN_CATEGORY)
            else if account.Some? && account.value !in db.accounts then Answers(db, c, UNKNOWN_ACCOUNT)
            else if account.Some? && Shut(db, account.value) then Answers(db, c, ACCOUNT_ARCHIVED)
            else if group != db.categories[id].group && !Showing(db, group) then Answers(db, c, GroupRefusal(db, group))
            else GoesThrough(db, c,
              db.(categories := db.categories[id := Category(group, db.categories[id].hiddenAt)]))
  {
    if account.Some? {
      assert account.value in [account.value];
    }
    if id in db.categories && group == db.categories[id].group {
      assert db.categories[id := Category(group, db.categories[id].hiddenAt)] == db.categories;
    }
  }

  /** Of those in a group that hold money, the one named in the refusal is the first by id. */
  ghost predicate FirstHolding(db: Db, group: Id, c: Id) {
    && c in db.categories && db.categories[c].group == group && AvailableAllTime(db, c) != 0
    && forall k | k in db.categories && k < c && db.categories[k].group == group :: AvailableAllTime(db, k) == 0
  }

  lemma HideOutcome(db: Db, id: Id, now: int)
    ensures id !in db.categories ==> Answers(db, HideCategory(id, now), UNKNOWN_CATEGORY)
    ensures id in db.categories && db.categories[id].hiddenAt.Some? ==> Answers(db, HideCategory(id, now), ALREADY_HIDDEN)
    ensures id in db.categories && db.categories[id].hiddenAt.None? ==>
              if AvailableAllTime(db, id) != 0
              then Answers(db, HideCategory(id, now), AVAILABLE_NOT_ZERO(id, AvailableAllTime(db, id)))
              else GoesThrough(db, HideCategory(id, now),
                db.(categories := db.categories[id := Category(db.categories[id].group, Some(now))]))
  {
    if id in db.categories && AvailableAllTime(db, id) != 0 {
      assert Categories.StillHolding(db, {id}) == {id};
    } else {
      assert Categories.StillHolding(db, {id}) == {} || id !in db.categories;
    }
  }

  lemma UnhideOutcome(db: Db, id: Id)
    ensures id !in db.categories ==> Answers(db, UnhideCategory(id), UNKNOWN_CATEGORY)
    ensures id in db.categories ==>
              var group := db.categories[id].group;
              if Showing(db, group)
              then GoesThrough(db, UnhideCategory(id), db.(categories := db.categories[id := Category(group, None)]))
              else Answers(db, UnhideCategory(id), GroupRefusal(db, group))
  {
  }

  /** Hiding a group marks it and those in it that are shown with one moment, if none in it holds money, hidden or not. */
  lemma HideGroupOutcome(db: Db, id: Id, now: int)
    ensures id !in db.groups ==> Answers(db, HideGroup(id, now), UNKNOWN_GROUP)
    ensures id in db.groups && db.groups[id].hiddenAt.Some? ==> Answers(db, HideGroup(id, now), ALREADY_HIDDEN)
    ensures id in db.groups && db.groups[id].hiddenAt.None? ==>
              if exists c :: c in db.categories && db.categories[c].group == id && AvailableAllTime(db, c) != 0
              then exists c :: FirstHolding(db, id, c)
                     && Answers(db, HideGroup(id, now), AVAILABLE_NOT_ZERO(c, AvailableAllTime(db, c)))
              else GoesThrough(db, HideGroup(id, now),
                db.(categories := map c | c in db.categories ::
                      if db.categories[c].group == id && db.categories[c].hiddenAt.None? then Category(id, Some(now)) else db.categories[c],
                    groups := db.groups[id := Group(Some(now))]))
  {
    var inside := Categories.Inside(db.categories, id);
    if c :| c in db.categories && db.categories[c].group == id && AvailableAllTime(db, c) != 0 {
      assert c in Categories.StillHolding(db, inside);
      HasLeast(Categories.StillHolding(db, inside));
      var first :| Least(Categories.StillHolding(db, inside), first)
        && Categories.RefusalOfHolding(db, inside) == Some(AVAILABLE_NOT_ZERO(first, AvailableAllTime(db, first)));
      FirstOfTheGroup(db, id, first);
    } else {
      assert Categories.StillHolding(db, inside) == {};
    }
  }

  lemma FirstOfTheGroup(db: Db, group: Id, first: Id)
    requires Least(Categories.StillHolding(db, Categories.Inside(db.categories, group)), first)
    ensures FirstHolding(db, group, first)
  {
    forall k | k in db.categories && k < first && db.categories[k].group == group
      ensures AvailableAllTime(db, k) == 0
    {
      assert k !in Categories.StillHolding(db, Categories.Inside(db.categories, group));
    }
  }

  /** Unhiding a group clears its marker and that of each in it that carries the same one. */
  lemma UnhideGroupOutcome(db: Db, id: Id)
    ensures id !in db.groups ==> Answers(db, UnhideGroup(id), UNKNOWN_GROUP)
    ensures id in db.groups ==>
              GoesThrough(db, UnhideGroup(id),
                db.(categories := map c | c in db.categories ::
                      if db.categories[c].group == id && db.categories[c].hiddenAt == db.groups[id].hiddenAt
                      then Category(id, None) else db.categories[c],
                    groups := db.groups[id := Group(None)]))
  {
  }

  // ---- the figures of a month ----

  function InMonth(t: Txn, c: Id, m: Month): int {
    if t.category == Some(c) && t.date.month == m then t.amount else 0
  }

  /** What a step adds to the activity of a category in a month: a record counts in the month of its day. */
  ghost function ActivityEffect(db: Db, c: Command, k: Id, m: Month): int {
    match c
    case CreateRecord(_, d, _, _) => if d.category == Some(k) && d.date.month == m then Signed(d.kind, d.amount) else 0
    case UpdateRecord(id, d, _) =>
      (if d.category == Some(k) && d.date.month == m then Signed(d.kind, d.amount) else 0)
      - (if id in db.txns then InMonth(db.txns[id], k, m) else 0)
    case RemoveRecord(id) => if id in db.txns then -InMonth(db.txns[id], k, m) else 0
    case _ => 0
  }

  ghost function AssignedEffect(c: Command, k: Id, m: Month): int {
    if !c.Move? || m != c.move.month then 0
    else (if c.move.to == Some(k) then c.move.amount else 0) - (if c.move.from == Some(k) then c.move.amount else 0)
  }

  lemma PutInMonth(db: Db, id: Id, t: Txn, k: Id, m: Month)
    ensures Activity(db.(txns := db.txns[id := t]), k, m)
         == Activity(db, k, m) + InMonth(t, k, m) - (if id in db.txns then InMonth(db.txns[id], k, m) else 0)
  {
    TotalPut(db.txns, id, t, Where(None, Some(Some(k)), Some(MonthStart(m)), Some(MonthStart(m + 1))));
  }

  lemma DropInMonth(db: Db, id: Id, k: Id, m: Month)
    requires id in db.txns
    ensures Activity(db.(txns := db.txns - {id}), k, m) == Activity(db, k, m) - InMonth(db.txns[id], k, m)
  {
    TotalDrop(db.txns, id, Where(None, Some(Some(k)), Some(MonthStart(m)), Some(MonthStart(m + 1))));
  }

  lemma NewRecordInItsMonth(db: Db, c: Command, k: Id, m: Month)
    requires c.CreateRecord? && Supplied(db, c) && Does(db, c).Writes?
    ensures Activity(Step(db, c), k, m) == Activity(db, k, m) + ActivityEffect(db, c, k, m)
  {
    CreateRecordOutcome(db, c.id, c.record, c.today, c.at);
    PutInMonth(db, c.id, Step(db, c).txns[c.id], k, m);
  }

  lemma EditInItsMonths(db: Db, c: Command, k: Id, m: Month)
    requires c.UpdateRecord? && Does(db, c).Writes? && (c.id in db.txns ==> db.txns[c.id].account in db.accounts)
    ensures Activity(Step(db, c), k, m) == Activity(db, k, m) + ActivityEffect(db, c, k, m)
  {
    UpdateRecordOutcome(db, c.id, c.record, c.today);
    PutInMonth(db, c.id, Step(db, c).txns[c.id], k, m);
  }

  lemma RemovalInItsMonth(db: Db, c: Command, k: Id, m: Month)
    requires c.RemoveRecord? && Does(db, c).Writes? && (c.id in db.txns ==> db.txns[c.id].account in db.accounts)
    ensures Activity(Step(db, c), k, m) == Activity(db, k, m) + ActivityEffect(db, c, k, m)
  {
    RemoveRecordOutcome(db, c.id);
    DropInMonth(db, c.id, k, m);
  }

  /** Rows without a category, put or taken away, count in no month of one. */
  lemma TwoRows(db: Db, one: Id, other: Id, t: Txn, u: Txn, k: Id, m: Month)
    requires t.category.None? && u.category.None?
    requires (one in db.txns ==> db.txns[one].category.None?) && (other in db.txns ==> db.txns[other].category.None?)
    ensures Activity(db.(txns := db.txns[one := t][other := u]), k, m) == Activity(db, k, m)
  {
    PutInMonth(db, one, t, k, m);
    PutInMonth(db.(txns := db.txns[one := t]), other, u, k, m);
  }

  lemma TransferUpdateInNoMonth(db: Db, x: Id, d: Transfers.Draft, p: Transfers.Pair, rows: map<Id, Txn>, k: Id, m: Month)
    requires AreLegs(db, x, p) && db.txns[p.outgoing].category.None? && db.txns[p.incoming].category.None?
    requires rows == map id | id in db.txns :: if db.txns[id].transfer == Some(x) then Rewritten(db.txns[id], d) else db.txns[id]
    ensures Activity(db.(txns := rows), k, m) == Activity(db, k, m)
  {
    var o, i := Rewritten(db.txns[p.outgoing], d), Rewritten(db.txns[p.incoming], d);
    assert forall id | id in db.txns :: db.txns[id].transfer == Some(x) <==> IsLeg(db, id, x);
    assert rows == db.txns[p.outgoing := o][p.incoming := i];
    TwoRows(db, p.outgoing, p.incoming, o, i, k, m);
  }

  lemma TransferRemovalInNoMonth(db: Db, x: Id, p: Transfers.Pair, rows: map<Id, Txn>, k: Id, m: Month)
    requires AreLegs(db, x, p) && db.txns[p.outgoing].category.None? && db.txns[p.incoming].category.None?
    requires rows == map id | id in db.txns && db.txns[id].transfer != Some(x) :: db.txns[id]
    ensures Activity(db.(txns := rows), k, m) == Activity(db, k, m)
  {
    var half := db.(txns := db.txns - {p.outgoing});
    DropInMonth(db, p.outgoing, k, m);
    DropInMonth(half, p.incoming, k, m);
    assert forall id | id in db.txns :: db.txns[id].transfer == Some(x) <==> IsLeg(db, id, x);
    assert rows == half.txns - {p.incoming};
    assert half.(txns := half.txns - {p.incoming}) == db.(txns := rows);
  }

  lemma TransferEditInNoMonth(db: Db, c: Command, p: Transfers.Pair, k: Id, m: Month)
    requires c.UpdateTransfer? && Does(db, c).Writes?
    requires AreLegs(db, c.transfer, p) && db.txns[p.outgoing].category.None? && db.txns[p.incoming].category.None?
    ensures Activity(Step(db, c), k, m) == Activity(db, k, m)
  {
    UpdateOfLegs(db, c.transfer, p, c.draft, c.today);
    TransferUpdateInNoMonth(db, c.transfer, c.draft, p, Step(db, c).txns, k, m);
  }

  lemma TransferGoneInNoMonth(db: Db, c: Command, p: Transfers.Pair, k: Id, m: Month)
    requires c.RemoveTransfer? && Does(db, c).Writes?
    requires AreLegs(db, c.transfer, p) && db.txns[p.outgoing].category.None? && db.txns[p.incoming].category.None?
    ensures Activity(Step(db, c), k, m) == Activity(db, k, m)
  {
    RemoveOfLegs(db, c.transfer, p);
    TransferRemovalInNoMonth(db, c.transfer, p, Step(db, c).txns, k, m);
  }

  lemma TransferInNoMonth(db: Db, c: Command, k: Id, m: Month)
    requires c.UpdateTransfer? || c.RemoveTransfer?
    requires Sound(db) && Does(db, c).Writes?
    ensures Activity(Step(db, c), k, m) == Activity(db, k, m)
  {
    NoLegs(db, c.transfer);
    var p := TheLegs(db, c.transfer);
    if c.UpdateTransfer? {
      TransferEditInNoMonth(db, c, p, k, m);
    } else {
      TransferGoneInNoMonth(db, c, p, k, m);
    }
  }

  lemma AccountInNoMonth(db: Db, c: Command, k: Id, m: Month)
    requires c.CreateAccount? || c.CorrectOpening? || c.Reconcile?
    requires Sound(db) && Supplied(db, c) && Does(db, c).Writes?
    ensures Activity(Step(db, c), k, m) == Activity(db, k, m)
  {
    match c
    case CreateAccount(id, opening, amount, openedOn, today, at) =>
      CreateAccountOutcome(db, id, opening, amount, openedOn, today, at);
      PutInMonth(db, opening, Step(db, c).txns[opening], k, m);
    case CorrectOpening(id, amount) =>
      assert id in [id];
      var opening :| Accounts.Openings(db.txns, id) == {opening};
      assert opening in Accounts.Openings(db.txns, id);
      assert Shaped(db.txns[opening]);
      CorrectOpeningOutcome(db, id, amount, opening);
      PutInMonth(db, opening, Step(db, c).txns[opening], k, m);
    case Reconcile(id, adjustment, balance, today, at) =>
      assert id in [id];
      ReconcileOutcome(db, id, adjustment, balance, today, at);
      if balance != Balance(db, id) {
        PutInMonth(db, adjustment, Step(db, c).txns[adjustment], k, m);
      }
  }

  /** A move out of one envelope into another is laid in its own month on both its sides, and nowhere else. */
  lemma MoveInItsMonth(db: Db, d: Moves.Draft, k: Id, m: Month)
    requires Does(db, Move(d)).Writes?
    ensures Assigned(Step(db, Move(d)), k, m) == Assigned(db, k, m)
              + (if m != d.month then 0 else (if d.to == Some(k) then d.amount else 0) - (if d.from == Some(k) then d.amount else 0))
  {
    MoveLays(db, d, k, m);
    Figures.AssignedIsTheRow(db, k, m);
    Figures.AssignedIsTheRow(Step(db, Move(d)), k, m);
  }

  lemma OthersInNoMonth(db: Db, c: Command)
    requires c.Move? || c.ArchiveAccount? || OnCategories(c)
    ensures Step(db, c).txns == db.txns && (!c.Move? ==> Step(db, c).assignments == db.assignments)
  {
  }

  lemma RecordsAssignNothing(db: Db, c: Command)
    requires !c.Move?
    ensures Step(db, c).assignments == db.assignments
  {
  }

  lemma CreateTransferInNoMonth(db: Db, c: Command, k: Id, m: Month)
    requires c.CreateTransfer? && Supplied(db, c) && Does(db, c).Writes?
    ensures Activity(Step(db, c), k, m) == Activity(db, k, m)
  {
    CreateTransferOutcome(db, c.transfer, c.outgoing, c.incoming, c.draft, c.today, c.at);
    TwoRows(db, c.outgoing, c.incoming, Step(db, c).txns[c.outgoing], Step(db, c).txns[c.incoming], k, m);
  }

  lemma ActivityMoves(db: Db, c: Command, k: Id, m: Month)
    requires Sound(db) && Supplied(db, c) && Does(db, c).Writes?
    ensures Activity(Step(db, c), k, m) == Activity(db, k, m) + ActivityEffect(db, c, k, m)
  {
    if c.CreateRecord? {
      NewRecordInItsMonth(db, c, k, m);
    } else if c.UpdateRecord? {
      EditInItsMonths(db, c, k, m);
    } else if c.RemoveRecord? {
      RemovalInItsMonth(db, c, k, m);
    } else if c.CreateAccount? || c.CorrectOpening? || c.Reconcile? {
      AccountInNoMonth(db, c, k, m);
    } else if c.CreateTransfer? {
      CreateTransferInNoMonth(db, c, k, m);
    } else if c.UpdateTransfer? || c.RemoveTransfer? {
      TransferInNoMonth(db, c, k, m);
    } else {
      OthersInNoMonth(db, c);
    }
  }

  /** Every operation that goes through changes the activity and the assignment of each category and month by just this. */
  lemma MonthEffect(db: Db, c: Command, k: Id, m: Month)
    requires Sound(db) && Supplied(db, c) && Does(db, c).Writes?
    ensures Activity(Step(db, c), k, m) == Activity(db, k, m) + ActivityEffect(db, c, k, m)
    ensures Assigned(Step(db, c), k, m) == Assigned(db, k, m) + AssignedEffect(c, k, m)
  {
    ActivityMoves(db, c, k, m);
    if c.Move? {
      MoveInItsMonth(db, c.move, k, m);
    } else {
      RecordsAssignNothing(db, c);
    }
  }
}
