/** The write operations as steps of one state machine, and what every run of them keeps true. */
module Runs {
  import opened Common
  import opened Ledger
  import opened Store
  import Accounts
  import Transactions
  import Transfers
  import Moves
  import Categories

  datatype Command =
    | CreateAccount(id: Id, openingId: Id, amount: int, openedOn: Date, today: Date, at: int)
    | ArchiveAccount(id: Id)
    | CorrectOpening(id: Id, amount: int)
    | Reconcile(id: Id, adjustmentId: Id, balance: int, today: Date, at: int)
    | CreateRecord(id: Id, record: Transactions.Draft, today: Date, at: int)
    | UpdateRecord(id: Id, record: Transactions.Draft, today: Date)
    | RemoveRecord(id: Id)
    | CreateTransfer(transfer: Id, outgoing: Id, incoming: Id, draft: Transfers.Draft, today: Date, at: int)
    | UpdateTransfer(transfer: Id, draft: Transfers.Draft, today: Date)
    | RemoveTransfer(transfer: Id)
    | Move(move: Moves.Draft)
    | CreateGroup(id: Id)
    | CreateCategory(id: Id, group: Id)
    | Regroup(id: Id, group: Id, account: Option<Id>)
    | HideCategory(id: Id, now: int)
    | UnhideCategory(id: Id)
    | HideGroup(id: Id, now: int)
    | UnhideGroup(id: Id)

  ghost function Does(db: Db, c: Command): Outcome {
    match c
    case CreateAccount(id, openingId, amount, openedOn, today, at) =>
      Accounts.Created(db, id, openingId, amount, openedOn, today, at)
    case ArchiveAccount(id) => Accounts.Archived(db, id)
    case CorrectOpening(id, amount) => Accounts.OpeningCorrected(db, id, amount)
    case Reconcile(id, adjustmentId, balance, today, at) =>
      Accounts.Reconciled(db, id, adjustmentId, balance, today, at)
    case CreateRecord(id, record, today, at) => Transactions.Created(db, id, record, today, at)
    case UpdateRecord(id, record, today) => Transactions.Updated(db, id, record, today)
    case RemoveRecord(id) => Transactions.Removed(db, id)
    case CreateTransfer(transfer, outgoing, incoming, draft, today, at) =>
      Transfers.Created(db, transfer, outgoing, incoming, draft, today, at)
    case UpdateTransfer(transfer, draft, today) => Transfers.Updated(db, transfer, draft, today)
    case RemoveTransfer(transfer) => Transfers.Removed(db, transfer)
    case Move(move) => Moves.Moved(db, move)
    case CreateGroup(id) => Categories.GroupCreated(db, id)
    case CreateCategory(id, group) => Categories.Created(db, id, group)
    case Regroup(id, group, account) => Categories.Regrouped(db, id, group, account)
    case HideCategory(id, now) => Categories.Hidden(db, id, now)
    case UnhideCategory(id) => Categories.Unhidden(db, id)
    case HideGroup(id, now) => Categories.GroupHidden(db, id, now)
    case UnhideGroup(id) => Categories.GroupUnhidden(db, id)
  }

  ghost function Step(db: Db, c: Command): Db {
    After(db, Does(db, c))
  }

  /** A moment later than every marker written so far. */
  predicate LaterThanMarkers(db: Db, now: int) {
    && (forall c | c in db.categories && db.categories[c].hiddenAt.Some? :: db.categories[c].hiddenAt.value < now)
    && (forall g | g in db.groups && db.groups[g].hiddenAt.Some? :: db.groups[g].hiddenAt.value < now)
  }

  /** What the database and the clock supply: identifiers nobody carries yet and moments that move on. */
  predicate Supplied(db: Db, c: Command) {
    match c
    case CreateAccount(id, openingId, _, _, _, _) => id !in db.accounts && openingId !in db.txns
    case Reconcile(_, adjustmentId, _, _, _) => adjustmentId !in db.txns
    case CreateRecord(id, _, _, _) => id !in db.txns
    case CreateTransfer(transfer, outgoing, incoming, _, _, _) =>
      && outgoing !in db.txns && incoming !in db.txns && outgoing != incoming
      && Transfers.Legs(db.txns, transfer) == {}
    case CreateGroup(id) => id !in db.groups
    case CreateCategory(id, _) => id !in db.categories
    case HideCategory(_, now) => LaterThanMarkers(db, now)
    case HideGroup(_, now) => LaterThanMarkers(db, now)
    case _ => true
  }

  /** The states a run goes through: each command is executed on the state the previous one left. */
  ghost predicate IsRun(states: seq<Db>, commands: seq<Command>) {
    && |states| == |commands| + 1
    && forall i {:trigger commands[i]} | 0 <= i < |commands| ::
         Supplied(states[i], commands[i]) && states[i + 1] == Step(states[i], commands[i])
  }

  ghost predicate Reachable(db: Db) {
    exists states, commands :: IsRun(states, commands) && states[0] == EMPTY && states[|commands|] == db
  }

  // ---- what holds in every state ----

  ghost predicate References(db: Db) {
    && (forall id | id in db.txns :: db.txns[id].account in db.accounts)
    && (forall id | id in db.txns && db.txns[id].category.Some? :: db.txns[id].category.value in db.categories)
    && (forall k | k in db.assignments :: k.category in db.categories)
    && (forall c | c in db.categories :: db.categories[c].group in db.groups)
  }

  ghost predicate ArchivedAreEmpty(db: Db) {
    forall a | a in db.accounts && db.accounts[a].archived :: Balance(db, a) == 0
  }

  /** What a row of each kind carries. */
  predicate Shaped(t: Txn) {
    && (t.kind == EXPENSE ==> t.category.Some? && t.amount < 0)
    && (t.kind == INCOME ==> t.system || t.amount > 0)
    && (t.kind == ADJUSTMENT ==> t.category.None? && t.amount != 0)
    && (t.kind == TRANSFER <==> t.transfer.Some?)
    && (t.transfer.Some? ==> t.category.None? && !t.system)
    && (t.system ==> t.kind == INCOME && t.category.None?)
  }

  ghost predicate AllShaped(db: Db) {
    forall id | id in db.txns :: Shaped(db.txns[id])
  }

  /** Two legs mirror each other: the same day, two accounts, one amount leaving and arriving. */
  predicate Mirrored(rows: map<Id, Txn>, legs: set<Id>, p: Transfers.Pair) {
    && Transfers.IsPairOf(rows, legs, p)
    && rows[p.outgoing].amount == -rows[p.incoming].amount
    && rows[p.outgoing].date == rows[p.incoming].date
    && rows[p.outgoing].account != rows[p.incoming].account
  }

  ghost predicate Whole(rows: map<Id, Txn>, transfer: Id) {
    Transfers.Legs(rows, transfer) != {} ==> exists p :: Mirrored(rows, Transfers.Legs(rows, transfer), p)
  }

  ghost predicate TransfersPaired(db: Db) {
    forall x :: Whole(db.txns, x)
  }

  ghost predicate OneOpeningEach(db: Db) {
    forall a | a in db.accounts :: exists id :: Accounts.Openings(db.txns, a) == {id}
  }

  ghost predicate HiddenGroupsHideAll(db: Db) {
    forall c | c in db.categories && db.categories[c].group in db.groups
               && db.groups[db.categories[c].group].hiddenAt.Some? :: db.categories[c].hiddenAt.Some?
  }

  ghost predicate Sound(db: Db) {
    && References(db)
    && ArchivedAreEmpty(db)
    && AllShaped(db)
    && TransfersPaired(db)
    && OneOpeningEach(db)
    && HiddenGroupsHideAll(db)
  }
}
