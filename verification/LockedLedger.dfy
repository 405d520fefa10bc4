/** The rows the lock protocol works on are the ledger's: its accounts with their balances, its categories with what they hold. */
module LockedLedger {
  import opened Common
  import opened Ledger
  import opened Store
  import opened Runs
  import opened Effects
  import opened Sums
  import Accounts
  import Transactions
  import Transfers
  import Moves
  import Categories
  import Soundness
  import Hiding
  import Locks

  ghost function AccountRows(db: Db): map<Id, Locks.Row> {
    map a | a in db.accounts :: Locks.Row(db.accounts[a].archived, Balance(db, a))
  }

  ghost function CategoryRows(db: Db): map<Id, Locks.Row> {
    map c | c in db.categories :: Locks.Row(db.categories[c].hiddenAt.Some?, AvailableAllTime(db, c))
  }

  /** The accounts a write locks. */
  function LockedAccounts(c: Command): set<Id> {
    match c
    case CorrectOpening(id, _) => {id}
    case Reconcile(id, _, _, _, _) => {id}
    case CreateRecord(_, d, _, _) => {d.account}
    case CreateTransfer(_, _, _, d, _, _) => {d.from, d.to}
    case _ => {}
  }

  predicate PaysAccounts(c: Command) {
    c.CorrectOpening? || c.Reconcile? || c.CreateRecord? || c.CreateTransfer?
  }

  lemma KeepsAccounts(db: Db, c: Command)
    requires PaysAccounts(c)
    ensures Step(db, c).accounts == db.accounts
  {
  }

  lemma OthersUnpaid(db: Db, c: Command, a: Id)
    requires PaysAccounts(c) && a !in LockedAccounts(c)
    ensures AccountEffect(db, c, a) == 0
  {
  }

  lemma AccountsPaid(db: Db, after: Db, deltas: map<Id, int>)
    requires after.accounts == db.accounts
    requires forall a | a in db.accounts :: Balance(after, a) == Balance(db, a) + (if a in deltas then deltas[a] else 0)
    ensures AccountRows(after) == Locks.Paid(AccountRows(db), deltas)
  {
    var rows, paid := AccountRows(after), Locks.Paid(AccountRows(db), deltas);
    forall a | a in db.accounts
      ensures rows[a] == paid[a]
    {
      assert Balance(after, a) == Balance(db, a) + (if a in deltas then deltas[a] else 0);
    }
    assert rows.Keys == paid.Keys;
  }

  ghost function Deltas(db: Db, c: Command): map<Id, int> {
    map a | a in LockedAccounts(c) :: AccountEffect(db, c, a)
  }

  /** A record, a transfer, a reconciliation or a corrected opening pays into the rows it locked and into no other. */
  lemma WritesPay(db: Db, c: Command)
    requires Sound(db) && Supplied(db, c) && Does(db, c).Writes? && PaysAccounts(c)
    ensures AccountRows(Step(db, c)) == Locks.Paid(AccountRows(db), Deltas(db, c))
  {
    var deltas, after := Deltas(db, c), Step(db, c);
    forall a
      ensures Balance(after, a) == Balance(db, a) + (if a in deltas then deltas[a] else 0)
    {
      StepEffect(db, c, a, None);
      if a !in LockedAccounts(c) {
        OthersUnpaid(db, c, a);
      }
    }
    KeepsAccounts(db, c);
    AccountsPaid(db, after, deltas);
  }

  lemma ArchiveCloses(db: Db, id: Id)
    requires Accounts.Archived(db, id).Writes?
    ensures AccountRows(Step(db, ArchiveAccount(id))) == Locks.Closed(AccountRows(db), [id])
    ensures Balance(db, id) == 0
  {
    assert id in [id];
    forall a
      ensures Balance(Step(db, ArchiveAccount(id)), a) == Balance(db, a)
    {
    }
  }

  function Sides(d: Moves.Draft): set<Id> {
    (if d.from.Some? then {d.from.value} else {}) + (if d.to.Some? then {d.to.value} else {})
  }

  lemma CategoriesPaid(db: Db, after: Db, deltas: map<Id, int>)
    requires after.categories == db.categories
    requires forall c | c in db.categories ::
        AvailableAllTime(after, c) == AvailableAllTime(db, c) + (if c in deltas then deltas[c] else 0)
    ensures CategoryRows(after) == Locks.Paid(CategoryRows(db), deltas)
  {
    var rows, paid := CategoryRows(after), Locks.Paid(CategoryRows(db), deltas);
    forall c | c in db.categories
      ensures rows[c] == paid[c]
    {
      assert AvailableAllTime(after, c) == AvailableAllTime(db, c) + (if c in deltas then deltas[c] else 0);
    }
    assert rows.Keys == paid.Keys;
  }

  ghost function SideDeltas(db: Db, d: Moves.Draft): map<Id, int> {
    map c | c in Sides(d) :: EnvelopeEffect(db, Move(d), Some(c))
  }

  lemma MovePays(db: Db, d: Moves.Draft)
    requires Moves.Moved(db, d).Writes?
    ensures CategoryRows(Step(db, Move(d))) == Locks.Paid(CategoryRows(db), SideDeltas(db, d))
  {
    var deltas, after := SideDeltas(db, d), Step(db, Move(d));
    forall c
      ensures AvailableAllTime(after, c) == AvailableAllTime(db, c) + (if c in deltas then deltas[c] else 0)
    {
      MoveEffect(db, Move(d), 0, Some(c));
      assert Held(after, Some(c)) == AvailableAllTime(after, c);
    }
    CategoriesPaid(db, after, deltas);
  }

  lemma HideCloses(db: Db, id: Id, now: int)
    requires Categories.Hidden(db, id, now).Writes?
    ensures CategoryRows(Step(db, HideCategory(id, now))) == Locks.Closed(CategoryRows(db), [id])
  {
    assert id in [id];
    forall c
      ensures AvailableAllTime(Step(db, HideCategory(id, now)), c) == AvailableAllTime(db, c)
    {
    }
  }

  lemma GroupHideCloses(db: Db, id: Id, now: int, inside: seq<Id>)
    requires Categories.GroupHidden(db, id, now).Writes?
    requires forall c :: c in inside <==> c in Categories.Inside(db.categories, id)
    ensures CategoryRows(Step(db, HideGroup(id, now))) == Locks.Closed(CategoryRows(db), inside)
  {
    forall c
      ensures AvailableAllTime(Step(db, HideGroup(id, now)), c) == AvailableAllTime(db, c)
    {
    }
  }

  // ---- a history of the locks as a run of the ledger ----

  lemma AccountsOpened(db: Db, after: Db, id: Id, amount: int, openedOn: Date)
    requires after.accounts == db.accounts[id := Account(openedOn, false)] && id !in db.accounts && Balance(after, id) == amount
    requires forall a | a in db.accounts :: Balance(after, a) == Balance(db, a)
    ensures AccountRows(after) == AccountRows(db)[id := Locks.Row(false, amount)]
  {
    assert AccountRows(after).Keys == AccountRows(db).Keys + {id};
  }

  lemma OpeningEffect(db: Db, c: Command, a: Id)
    requires Sound(db) && Supplied(db, c) && c.CreateAccount?
    ensures Balance(Step(db, c), a) == Balance(db, a) + (if a == c.id then c.amount else 0)
  {
    StepEffect(db, c, a, None);
  }

  /** An account begins with its opening, of whatever amount, written with it. */
  lemma CreateOpens(db: Db, c: Command)
    requires Sound(db) && Supplied(db, c) && c.CreateAccount?
    ensures AccountRows(Step(db, c)) == AccountRows(db)[c.id := Locks.Row(false, c.amount)]
  {
    NoRowsNoBalance(db, c.id);
    forall a
      ensures Balance(Step(db, c), a) == Balance(db, a) + (if a == c.id then c.amount else 0)
    {
      OpeningEffect(db, c, a);
    }
    AccountsOpened(db, Step(db, c), c.id, c.amount, c.openedOn);
  }

  lemma NoRowsNoBalance(db: Db, a: Id)
    requires References(db) && a !in db.accounts
    ensures Balance(db, a) == 0
  {
    SumZero(Column(db.txns, EVERY.(account := Some(a))));
  }

  /** The commands that lock accounts one by one, as the protocol has them. */
  predicate LocksAccounts(c: Command) {
    PaysAccounts(c) || c.ArchiveAccount?
  }

  function InLockOrder(a: Id, b: Id): seq<Id> {
    if a < b then [a, b] else if b < a then [b, a] else [a]
  }

  function JobOf(c: Command): Locks.Job
    requires LocksAccounts(c)
  {
    match c
    case ArchiveAccount(id) => Locks.Close([id], false)
    case CorrectOpening(id, amount) => Locks.Settle(id, amount)
    case Reconcile(id, _, balance, _, _) => Locks.Settle(id, balance)
    case CreateRecord(_, d, _, _) =>
      Locks.Pay([d.account], map[d.account := Transactions.SignedAmount(d.kind, d.amount)], Locks.Shared)
    case CreateTransfer(_, _, _, d, _, _) =>
      Locks.Pay(InLockOrder(d.from, d.to), map a | a in {d.from, d.to} :: Swing(a, d), Locks.Shared)
  }

  /** A command locks each of its accounts once, in ascending order, and pays into no other. */
  lemma JobIsProper(c: Command)
    requires LocksAccounts(c)
    ensures Locks.Proper(JobOf(c))
    ensures PaysAccounts(c) ==> forall a :: a in Locks.Wanted(JobOf(c)) <==> a in LockedAccounts(c)
  {
  }

  /** What was judged of the accounts under their locks still holds when the process commits. */
  lemma GuardsHoldAtCommit(w: Locks.World, p: Id, db: Db, c: Command, wanted: seq<Id>)
    requires Locks.Possible(w) && Locks.Enabled(w, Locks.Commit(p))
    requires LocksAccounts(c) && w.processes[p].job == JobOf(c) && AccountRows(db) == w.rows
    requires forall a | a in wanted :: a in Locks.Wanted(JobOf(c))
    ensures Accounts.RefusalOfAccounts(db, wanted) == None
    ensures c.ArchiveAccount? ==> Balance(db, c.id) == 0
  {
    forall a | a in Locks.Wanted(JobOf(c))
      ensures a in db.accounts && !db.accounts[a].archived && (c.ArchiveAccount? ==> Balance(db, a) == 0)
    {
      Locks.JudgedIsStillSo(w, p, a);
      assert w.rows[a] == AccountRows(db)[a];
    }
    assert c.ArchiveAccount? ==> c.id in [c.id];
  }

  /** What a command is judged by besides its accounts, at the moment it commits. */
  predicate OtherGuards(db: Db, c: Command) {
    match c
    case CorrectOpening(id, _) => Accounts.Movements(db.txns, id) == {}
    case CreateRecord(_, d, today, _) =>
      && (d.category.Some? ==> d.category.value in db.categories)
      && (d.account in db.accounts ==>
            Transactions.RefuseDraft(d, db.accounts[d.account].openedOn,
              if d.category.Some? then Some(db.categories[d.category.value]) else None, d.category != None, today) == None)
    case CreateTransfer(_, _, _, d, today, _) =>
      d.from in db.accounts && d.to in db.accounts ==>
        Transfers.RefuseTransfer(d, db.accounts[d.from].openedOn, db.accounts[d.to].openedOn, today) == None
    case _ => true
  }

  lemma RecordGoesThrough(db: Db, c: Command)
    requires c.CreateRecord? && OtherGuards(db, c) && Accounts.RefusalOfAccounts(db, [c.record.account] + []) == None
    ensures Does(db, c).Writes?
  {
    assert c.record.account in [c.record.account] + [];
  }

  lemma TransferGoesThrough(db: Db, c: Command)
    requires c.CreateTransfer? && OtherGuards(db, c)
    requires Accounts.RefusalOfAccounts(db, [] + [c.draft.from, c.draft.to]) == None
    ensures Does(db, c).Writes?
  {
    assert c.draft.from in [] + [c.draft.from, c.draft.to] && c.draft.to in [] + [c.draft.from, c.draft.to];
  }

  lemma OpeningGoesThrough(db: Db, c: Command)
    requires Sound(db) && c.CorrectOpening? && OtherGuards(db, c) && Accounts.RefusalOfAccounts(db, [c.id]) == None
    ensures Does(db, c).Writes?
  {
    assert c.id in [c.id];
  }

  /** A process that commits would not be refused by the ledger as it is then, so judging early lost nothing. */
  lemma CommitGoesThrough(w: Locks.World, p: Id, db: Db, c: Command)
    requires Locks.Possible(w) && Locks.Enabled(w, Locks.Commit(p)) && Sound(db)
    requires LocksAccounts(c) && w.processes[p].job == JobOf(c) && AccountRows(db) == w.rows && OtherGuards(db, c)
    ensures Does(db, c).Writes?
  {
    match c
    case ArchiveAccount(id) => GuardsHoldAtCommit(w, p, db, c, [id]);
    case CorrectOpening(id, _) =>
      GuardsHoldAtCommit(w, p, db, c, [id]);
      OpeningGoesThrough(db, c);
    case Reconcile(id, _, _, _, _) => GuardsHoldAtCommit(w, p, db, c, [id]);
    case CreateRecord(_, d, _, _) =>
      GuardsHoldAtCommit(w, p, db, c, [d.account] + []);
      RecordGoesThrough(db, c);
    case CreateTransfer(_, _, _, d, _, _) =>
      GuardsHoldAtCommit(w, p, db, c, [] + [d.from, d.to]);
      TransferGoesThrough(db, c);
  }

  /** What a process has written by the time it commits is what the command pays. */
  lemma CommitDeltas(w: Locks.World, p: Id, db: Db, c: Command)
    requires Locks.Possible(w) && Locks.Enabled(w, Locks.Commit(p))
    requires PaysAccounts(c) && w.processes[p].job == JobOf(c) && AccountRows(db) == w.rows
    ensures w.processes[p].phase == Locks.Wrote(Deltas(db, c), false)
  {
    Locks.PossibleIsKept(w);
    assert Locks.Current(w.rows, w.processes[p]);
    DeltasAreWritten(db, c, w.processes[p]);
  }

  lemma DeltasAreWritten(db: Db, c: Command, it: Locks.Process)
    requires PaysAccounts(c) && it.job == JobOf(c) && it.phase.Wrote? && Locks.Current(AccountRows(db), it)
    ensures it.phase == Locks.Wrote(Deltas(db, c), false)
  {
    if it.job.Settle? {
      assert AccountRows(db)[it.job.id].held == Balance(db, it.job.id);
    }
    assert it.phase.deltas == Deltas(db, c);
  }

  /** The commit of a process and the command executed in one go leave the same accounts with the same balances. */
  lemma CommitIsStep(w: Locks.World, p: Id, db: Db, c: Command)
    requires Locks.Possible(w) && Locks.Enabled(w, Locks.Commit(p)) && Sound(db) && Supplied(db, c)
    requires LocksAccounts(c) && w.processes[p].job == JobOf(c) && AccountRows(db) == w.rows && OtherGuards(db, c)
    ensures AccountRows(Step(db, c)) == Locks.Next(w, Locks.Commit(p)).rows
  {
    CommitGoesThrough(w, p, db, c);
    if c.ArchiveAccount? {
      ArchiveCloses(db, c.id);
      CommitCloses(w, p, c.id);
    } else {
      WritesPay(db, c);
      CommitDeltas(w, p, db, c);
      CommitPays(w, p, Deltas(db, c));
    }
  }

  lemma CommitPays(w: Locks.World, p: Id, deltas: map<Id, int>)
    requires Locks.Enabled(w, Locks.Commit(p)) && w.processes[p].phase == Locks.Wrote(deltas, false)
    ensures Locks.Next(w, Locks.Commit(p)).rows == Locks.Paid(w.rows, deltas)
  {
  }

  lemma CommitCloses(w: Locks.World, p: Id, id: Id)
    requires Locks.Possible(w) && Locks.Enabled(w, Locks.Commit(p)) && w.processes[p].job == Locks.Close([id], false)
    ensures Locks.Next(w, Locks.Commit(p)).rows == Locks.Closed(w.rows, [id])
  {
    Locks.PossibleIsKept(w);
    assert Locks.Current(w.rows, w.processes[p]);
    assert Locks.Paid(w.rows, map[]) == w.rows;
  }

  /** Plans, groups and categories: nothing of theirs changes an account or a record. */
  predicate LeavesAccounts(c: Command) {
    || c.Move? || c.CreateGroup? || c.CreateCategory? || c.Regroup? || c.HideCategory? || c.UnhideCategory?
    || c.HideGroup? || c.UnhideGroup?
  }

  lemma AccountsLeft(db: Db, c: Command)
    requires LeavesAccounts(c)
    ensures AccountRows(Step(db, c)) == AccountRows(db)
  {
    assert Step(db, c).accounts == db.accounts && Step(db, c).txns == db.txns;
  }

  /** The command the ledger executes at an event: when an account is created, and when a process commits. */
  ghost predicate Executes(db: Db, after: Db, w: Locks.World, e: Locks.Event, c: Command) {
    && Supplied(db, c) && after == Step(db, c)
    && match e
       case Create(a, held) => c.CreateAccount? && c.id == a && c.amount == held
       case Commit(p) => LocksAccounts(c) && p in w.processes && w.processes[p].job == JobOf(c) && OtherGuards(db, c)
       case _ => LeavesAccounts(c)
  }

  /** The ledger moves only where the protocol creates and commits, or by a command that leaves the accounts. */
  ghost predicate Carries(dbs: seq<Db>, commands: seq<Option<Command>>, worlds: seq<Locks.World>, events: seq<Locks.Event>) {
    && |dbs| == |worlds| == |events| + 1 && |commands| == |events| && dbs[0] == EMPTY
    && forall i {:trigger events[i]} | 0 <= i < |events| ::
         match commands[i]
         case Some(c) => Executes(dbs[i], dbs[i + 1], worlds[i], events[i], c)
         case None => !events[i].Create? && !events[i].Commit? && dbs[i + 1] == dbs[i]
  }

  lemma EventIsStep(db: Db, after: Db, w: Locks.World, e: Locks.Event, c: Command)
    requires Locks.Possible(w) && Locks.Enabled(w, e) && Sound(db) && AccountRows(db) == w.rows
    requires Executes(db, after, w, e, c)
    ensures AccountRows(after) == Locks.Next(w, e).rows
  {
    if e.Create? {
      CreateOpens(db, c);
    } else if e.Commit? {
      CommitIsStep(w, e.p, db, c);
    } else {
      AccountsLeft(db, c);
      OthersKeepRows(w, e);
    }
  }

  lemma OthersKeepRows(w: Locks.World, e: Locks.Event)
    requires Locks.Enabled(w, e) && !e.Create? && !e.Commit?
    ensures Locks.Next(w, e).rows == w.rows
  {
  }

  /**
   However the steps of archiving, reconciling, correcting, records and transfers interleave, the accounts are at
   every moment those of a run of the ledger that executes whole commands one after another, in commit order.
   */
  lemma {:induction false} InterleavingIsARun(dbs: seq<Db>, commands: seq<Option<Command>>, worlds: seq<Locks.World>,
                                              events: seq<Locks.Event>, i: nat)
    requires Locks.IsHistory(worlds, events) && Carries(dbs, commands, worlds, events) && i < |dbs|
    ensures Reachable(dbs[i]) && AccountRows(dbs[i]) == worlds[i].rows
  {
    if i == 0 {
      EmptyRun();
    } else {
      var w, e := worlds[i - 1], events[i - 1];
      InterleavingIsARun(dbs, commands, worlds, events, i - 1);
      assert Locks.Enabled(w, e) && worlds[i - 1 + 1] == Locks.Next(w, e);
      if commands[i - 1].None? {
        OthersKeepRows(w, e);
      } else {
        PrefixIsPossible(worlds, events, i - 1);
        ReachableEvent(dbs[i - 1], dbs[i], w, e, commands[i - 1].value);
      }
    }
  }

  lemma ReachableEvent(db: Db, after: Db, w: Locks.World, e: Locks.Event, c: Command)
    requires Locks.Possible(w) && Locks.Enabled(w, e) && Reachable(db) && AccountRows(db) == w.rows
    requires Executes(db, after, w, e, c)
    ensures Reachable(after) && AccountRows(after) == Locks.Next(w, e).rows
  {
    Soundness.ReachableIsSound(db);
    EventIsStep(db, after, w, e, c);
    Hiding.ReachableNext(db, c);
  }

  lemma EmptyRun()
    ensures Reachable(EMPTY) && AccountRows(EMPTY) == map[]
  {
    var commands: seq<Command> := [];
    assert IsRun([EMPTY], commands) && [EMPTY][0] == EMPTY && [EMPTY][|commands|] == EMPTY;
  }

  lemma PrefixIsPossible(worlds: seq<Locks.World>, events: seq<Locks.Event>, i: nat)
    requires Locks.IsHistory(worlds, events) && i < |worlds|
    ensures Locks.Possible(worlds[i])
  {
    var ws, es := worlds[..i + 1], events[..i];
    forall k | 0 <= k < |es|
      ensures Locks.Enabled(ws[k], es[k]) && ws[k + 1] == Locks.Next(ws[k], es[k])
    {
      assert worlds[k + 1] == Locks.Next(worlds[k], events[k]);
    }
    assert Locks.IsHistory(ws, es) && ws[|es|] == worlds[i];
  }
}
