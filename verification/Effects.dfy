/** What one operation moves: on every account, in every envelope and in the total, and what undoes it. */
module Effects {
  import opened Common
  import opened Ledger
  import opened Store
  import opened Runs
  import opened Soundness
  import opened Conservation
  import opened Sums
  import Accounts
  import Transactions
  import Transfers
  import Moves

  function OnAccount(t: Txn, a: Id): int {
    if t.account == a then t.amount else 0
  }

  function InEnvelope(t: Txn, e: Envelope): int {
    if t.category == e then t.amount else 0
  }

  /** The legs a transfer has now, as they weigh on one account. */
  ghost function LegsOn(db: Db, transfer: Id, a: Id): int {
    match Transfers.PairOf(db.txns, Transfers.Legs(db.txns, transfer))
    case None => 0
    case Some(p) => OnAccount(db.txns[p.outgoing], a) + OnAccount(db.txns[p.incoming], a)
  }

  function Swing(a: Id, d: Transfers.Draft): int {
    (if a == d.to then d.amount else 0) - (if a == d.from then d.amount else 0)
  }

  /** What a command that goes through adds to the balance of an account. */
  ghost function AccountEffect(db: Db, c: Command, a: Id): int {
    match c
    case CreateAccount(id, _, amount, _, _, _) => if a == id then amount else 0
    case CorrectOpening(id, amount) => if a == id then amount - Balance(db, id) else 0
    case Reconcile(id, _, balance, _, _) => if a == id then balance - Balance(db, id) else 0
    case CreateRecord(_, d, _, _) => if a == d.account then Transactions.SignedAmount(d.kind, d.amount) else 0
    case UpdateRecord(id, d, _) =>
      (if a == d.account then Transactions.SignedAmount(d.kind, d.amount) else 0)
      - (if id in db.txns then OnAccount(db.txns[id], a) else 0)
    case RemoveRecord(id) => if id in db.txns then -OnAccount(db.txns[id], a) else 0
    case CreateTransfer(_, _, _, d, _, _) => Swing(a, d)
    case UpdateTransfer(x, d, _) => Swing(a, d) - LegsOn(db, x, a)
    case RemoveTransfer(x) => -LegsOn(db, x, a)
    case _ => 0
  }

  /** What it adds to an envelope; the pool is one of them. */
  ghost function EnvelopeEffect(db: Db, c: Command, e: Envelope): int {
    match c
    case CreateAccount(_, _, amount, _, _, _) => if e == None then amount else 0
    case CorrectOpening(id, amount) => if e == None then amount - Balance(db, id) else 0
    case Reconcile(id, _, balance, _, _) => if e == None then balance - Balance(db, id) else 0
    case CreateRecord(_, d, _, _) => if e == d.category then Transactions.SignedAmount(d.kind, d.amount) else 0
    case UpdateRecord(id, d, _) =>
      (if e == d.category then Transactions.SignedAmount(d.kind, d.amount) else 0)
      - (if id in db.txns then InEnvelope(db.txns[id], e) else 0)
    case RemoveRecord(id) => if id in db.txns then -InEnvelope(db.txns[id], e) else 0
    case Move(d) => (if e == d.to then d.amount else 0) - (if e == d.from then d.amount else 0)
    case _ => 0
  }

  /** What it adds to the total of the open accounts: only records and corrections add anything. */
  ghost function TotalEffect(db: Db, c: Command): int {
    match c
    case CreateAccount(_, _, amount, _, _, _) => amount
    case CorrectOpening(id, amount) => amount - Balance(db, id)
    case Reconcile(id, _, balance, _, _) => balance - Balance(db, id)
    case CreateRecord(_, d, _, _) => Transactions.SignedAmount(d.kind, d.amount)
    case UpdateRecord(id, d, _) =>
      Transactions.SignedAmount(d.kind, d.amount) - (if id in db.txns then db.txns[id].amount else 0)
    case RemoveRecord(id) => if id in db.txns then -db.txns[id].amount else 0
    case _ => 0
  }

  // ---- one row ----

  lemma PutRow(db: Db, id: Id, t: Txn, a: Id, e: Envelope)
    ensures Balance(db.(txns := db.txns[id := t]), a)
         == Balance(db, a) + OnAccount(t, a) - (if id in db.txns then OnAccount(db.txns[id], a) else 0)
    ensures Held(db.(txns := db.txns[id := t]), e)
         == Held(db, e) + InEnvelope(t, e) - (if id in db.txns then InEnvelope(db.txns[id], e) else 0)
    ensures Total(db.txns[id := t], EVERY) == Total(db.txns, EVERY) + t.amount - (if id in db.txns then db.txns[id].amount else 0)
  {
    TotalPut(db.txns, id, t, EVERY);
    TotalPut(db.txns, id, t, EVERY.(account := Some(a)));
    TotalPut(db.txns, id, t, EVERY.(category := Some(e)));
  }

  lemma DropRow(db: Db, id: Id, a: Id, e: Envelope)
    requires id in db.txns
    ensures Balance(db.(txns := db.txns - {id}), a) == Balance(db, a) - OnAccount(db.txns[id], a)
    ensures Held(db.(txns := db.txns - {id}), e) == Held(db, e) - InEnvelope(db.txns[id], e)
    ensures Total(db.txns - {id}, EVERY) == Total(db.txns, EVERY) - db.txns[id].amount
  {
    TotalDrop(db.txns, id, EVERY);
    TotalDrop(db.txns, id, EVERY.(account := Some(a)));
    TotalDrop(db.txns, id, EVERY.(category := Some(e)));
  }

  /** An assignment row takes from the pool what it gives its category. */
  lemma LayRow(db: Db, side: Envelope, month: Month, delta: int, a: Id, e: Envelope)
    ensures var after := db.(assignments := Moves.Laid(db.assignments, side, month, delta));
            && Balance(after, a) == Balance(db, a)
            && Held(after, e) == Held(db, e) + (if side.None? then 0 else if e == side then delta else if e.None? then -delta else 0)
  {
    if side.Some? {
      var s := Slots(if e.Some? then Some(e.value) else None, None, None);
      AssignedUpserted(db.assignments, Slot(side.value, month), delta, s);
    }
  }

  // ---- one operation ----

  /** Openings are the whole balance of an account nothing else has touched. */
  lemma OnlyOpening(db: Db, id: Id, opening: Id)
    requires Accounts.Movements(db.txns, id) == {} && Accounts.Openings(db.txns, id) == {opening}
    ensures opening in db.txns && Balance(db, id) == db.txns[opening].amount
  {
    var column := Column(db.txns, EVERY.(account := Some(id)));
    assert opening in Accounts.Openings(db.txns, id);
    forall k | k in column && k != opening
      ensures column[k] == 0
    {
      assert k !in Accounts.Openings(db.txns, id) && k !in Accounts.Movements(db.txns, id);
    }
    SumPick(column, opening);
    SumZero(column - {opening});
  }

  lemma PairEffect(db: Db, p: Transfers.Pair, o: Txn, i: Txn, a: Id, e: Envelope)
    requires p.outgoing != p.incoming
    ensures var after := db.(txns := db.txns[p.outgoing := o][p.incoming := i]);
            && Balance(after, a) == Balance(db, a) + OnAccount(o, a) + OnAccount(i, a)
                 - (if p.outgoing in db.txns then OnAccount(db.txns[p.outgoing], a) else 0)
                 - (if p.incoming in db.txns then OnAccount(db.txns[p.incoming], a) else 0)
            && Held(after, e) == Held(db, e) + InEnvelope(o, e) + InEnvelope(i, e)
                 - (if p.outgoing in db.txns then InEnvelope(db.txns[p.outgoing], e) else 0)
                 - (if p.incoming in db.txns then InEnvelope(db.txns[p.incoming], e) else 0)
            && Total(after.txns, EVERY) == Total(db.txns, EVERY) + o.amount + i.amount
                 - (if p.outgoing in db.txns then db.txns[p.outgoing].amount else 0)
                 - (if p.incoming in db.txns then db.txns[p.incoming].amount else 0)
  {
    var half := db.(txns := db.txns[p.outgoing := o]);
    PutRow(db, p.outgoing, o, a, e);
    PutRow(half, p.incoming, i, a, e);
  }

  lemma DropPairEffect(db: Db, p: Transfers.Pair, a: Id, e: Envelope)
    requires p.outgoing in db.txns && p.incoming in db.txns && p.outgoing != p.incoming
    ensures var o, i := db.txns[p.outgoing], db.txns[p.incoming];
            var after := db.(txns := db.txns - {p.outgoing, p.incoming});
            && Balance(after, a) == Balance(db, a) - OnAccount(o, a) - OnAccount(i, a)
            && Held(after, e) == Held(db, e) - InEnvelope(o, e) - InEnvelope(i, e)
            && Total(after.txns, EVERY) == Total(db.txns, EVERY) - o.amount - i.amount
  {
    var half := db.(txns := db.txns - {p.outgoing});
    DropRow(db, p.outgoing, a, e);
    DropRow(half, p.incoming, a, e);
    assert half.txns - {p.incoming} == db.txns - {p.outgoing, p.incoming};
    assert half.(txns := half.txns - {p.incoming}) == db.(txns := db.txns - {p.outgoing, p.incoming});
  }

  ghost predicate AsAnnounced(db: Db, after: Db, c: Command, a: Id, e: Envelope) {
    && Balance(after, a) == Balance(db, a) + AccountEffect(db, c, a)
    && Held(after, e) == Held(db, e) + EnvelopeEffect(db, c, e)
    && Total(after.txns, EVERY) == Total(db.txns, EVERY) + TotalEffect(db, c)
  }

  lemma CreateTransferEffect(db: Db, c: Command, a: Id, e: Envelope)
    requires c.CreateTransfer? && Supplied(db, c) && Does(db, c).Writes?
    ensures AsAnnounced(db, Step(db, c), c, a, e)
  {
    var d := c.draft;
    UsableTransfer(db, d, [], c.today);
    var o := Transfers.Leg(c.transfer, d.from, -(d.amount as int), d.date, c.at);
    var i := Transfers.Leg(c.transfer, d.to, d.amount, d.date, c.at);
    assert Step(db, c) == db.(txns := db.txns[c.outgoing := o][c.incoming := i]);
    PairEffect(db, Transfers.Pair(c.outgoing, c.incoming), o, i, a, e);
  }

  lemma UpdateTransferEffect(db: Db, c: Command, p: Transfers.Pair, a: Id, e: Envelope)
    requires c.UpdateTransfer? && Does(db, c).Writes?
    requires Transfers.PairOf(db.txns, Transfers.Legs(db.txns, c.transfer)) == Some(p)
    requires p.outgoing in db.txns && p.incoming in db.txns && p.outgoing != p.incoming
    requires db.txns[p.outgoing].category.None? && db.txns[p.incoming].category.None?
    requires OnAccount(db.txns[p.outgoing], a) + OnAccount(db.txns[p.incoming], a) == LegsOn(db, c.transfer, a)
    requires db.txns[p.outgoing].amount == -db.txns[p.incoming].amount
    ensures AsAnnounced(db, Step(db, c), c, a, e)
  {
    var d, o, i := c.draft, db.txns[p.outgoing], db.txns[p.incoming];
    UsableTransfer(db, d, [o.account, i.account], c.today);
    var o' := Transfers.Relegged(o, d.from, -(d.amount as int), d.date);
    var i' := Transfers.Relegged(i, d.to, d.amount, d.date);
    assert Step(db, c) == db.(txns := db.txns[p.outgoing := o'][p.incoming := i']);
    PairEffect(db, p, o', i', a, e);
  }

  lemma RemoveTransferEffect(db: Db, c: Command, p: Transfers.Pair, a: Id, e: Envelope)
    requires c.RemoveTransfer? && Does(db, c).Writes?
    requires Transfers.PairOf(db.txns, Transfers.Legs(db.txns, c.transfer)) == Some(p)
    requires Transfers.Legs(db.txns, c.transfer) == {p.outgoing, p.incoming}
    requires p.outgoing in db.txns && p.incoming in db.txns && p.outgoing != p.incoming
    requires db.txns[p.outgoing].category.None? && db.txns[p.incoming].category.None?
    requires db.txns[p.outgoing].amount == -db.txns[p.incoming].amount
    ensures AsAnnounced(db, Step(db, c), c, a, e)
  {
    DropPairEffect(db, p, a, e);
    assert Step(db, c) == db.(txns := db.txns - {p.outgoing, p.incoming});
  }

  lemma TransferEffect(db: Db, c: Command, a: Id, e: Envelope)
    requires Sound(db) && Supplied(db, c) && Does(db, c).Writes?
    requires c.UpdateTransfer? || c.RemoveTransfer?
    ensures AsAnnounced(db, Step(db, c), c, a, e)
  {
    var p := FoundPair(db, c.transfer);
    assert Shaped(db.txns[p.outgoing]) && Shaped(db.txns[p.incoming]) by {
      assert p.outgoing in Transfers.Legs(db.txns, c.transfer) && p.incoming in Transfers.Legs(db.txns, c.transfer);
    }
    if c.UpdateTransfer? {
      UpdateTransferEffect(db, c, p, a, e);
    } else {
      RemoveTransferEffect(db, c, p, a, e);
    }
  }

  lemma OpeningOf(db: Db, id: Id) returns (opening: Id)
    requires Sound(db) && id in db.accounts
    ensures Accounts.Openings(db.txns, id) == {opening} && opening in db.txns
    ensures db.txns[opening].account == id && db.txns[opening].category.None?
  {
    opening :| Accounts.Openings(db.txns, id) == {opening};
    assert opening in Accounts.Openings(db.txns, id);
    assert Shaped(db.txns[opening]);
  }

  lemma CorrectOpeningEffect(db: Db, c: Command, opening: Id, a: Id, e: Envelope)
    requires c.CorrectOpening? && Does(db, c).Writes?
    requires Accounts.Openings(db.txns, c.id) == {opening} && opening in db.txns
    requires db.txns[opening].account == c.id && db.txns[opening].category.None?
    ensures AsAnnounced(db, Step(db, c), c, a, e)
  {
    OnlyOpening(db, c.id, opening);
    assert Step(db, c) == db.(txns := db.txns[opening := db.txns[opening].(amount := c.amount)]);
    PutRow(db, opening, db.txns[opening].(amount := c.amount), a, e);
  }

  lemma CreateAccountEffect(db: Db, c: Command, a: Id, e: Envelope)
    requires c.CreateAccount? && Supplied(db, c)
    ensures AsAnnounced(db, Step(db, c), c, a, e)
  {
    PutRow(db, c.openingId, Accounts.Opening(c.id, c.amount, c.today, c.at), a, e);
  }

  lemma ReconcileEffect(db: Db, c: Command, a: Id, e: Envelope)
    requires c.Reconcile? && Supplied(db, c) && Does(db, c).Writes?
    ensures AsAnnounced(db, Step(db, c), c, a, e)
  {
    var difference := c.balance - Balance(db, c.id);
    if difference != 0 {
      assert Step(db, c) == db.(txns := db.txns[c.adjustmentId := Accounts.Adjustment(c.id, difference, c.today, c.at)]);
      PutRow(db, c.adjustmentId, Accounts.Adjustment(c.id, difference, c.today, c.at), a, e);
    }
  }

  lemma CreateRecordEffect(db: Db, c: Command, a: Id, e: Envelope)
    requires c.CreateRecord? && Supplied(db, c) && Does(db, c).Writes?
    ensures AsAnnounced(db, Step(db, c), c, a, e)
  {
    PutRow(db, c.id, Transactions.Row(c.record, c.at), a, e);
  }

  lemma UpdateRecordEffect(db: Db, c: Command, a: Id, e: Envelope)
    requires c.UpdateRecord? && Does(db, c).Writes?
    ensures AsAnnounced(db, Step(db, c), c, a, e)
  {
    PutRow(db, c.id, Transactions.Row(c.record, db.txns[c.id].createdAt), a, e);
  }

  lemma RemoveRecordEffect(db: Db, c: Command, a: Id, e: Envelope)
    requires c.RemoveRecord? && Does(db, c).Writes?
    ensures AsAnnounced(db, Step(db, c), c, a, e)
  {
    DropRow(db, c.id, a, e);
  }

  lemma LayBoth(db: Db, d: Moves.Draft, a: Id, e: Envelope)
    requires d.from != d.to
    ensures var half := Moves.Laid(db.assignments, d.from, d.month, -(d.amount as int));
            var after := db.(assignments := Moves.Laid(half, d.to, d.month, d.amount));
            && Balance(after, a) == Balance(db, a)
            && Held(after, e) == Held(db, e) + (if e == d.to then d.amount else 0) - (if e == d.from then d.amount else 0)
  {
    var half := db.(assignments := Moves.Laid(db.assignments, d.from, d.month, -(d.amount as int)));
    LayRow(db, d.from, d.month, -(d.amount as int), a, e);
    LayRow(half, d.to, d.month, d.amount, a, e);
  }

  lemma MoveEffect(db: Db, c: Command, a: Id, e: Envelope)
    requires c.Move? && Does(db, c).Writes?
    ensures AsAnnounced(db, Step(db, c), c, a, e)
  {
    var d := c.move;
    LayBoth(db, d, a, e);
    var half := Moves.Laid(db.assignments, d.from, d.month, -(d.amount as int));
    assert Step(db, c) == db.(assignments := Moves.Laid(half, d.to, d.month, d.amount));
  }

  lemma OtherEffect(db: Db, c: Command, a: Id, e: Envelope)
    requires c.ArchiveAccount? || c.CreateGroup? || c.CreateCategory? || c.Regroup? || c.HideCategory? || c.UnhideCategory?
          || c.HideGroup? || c.UnhideGroup?
    ensures AsAnnounced(db, Step(db, c), c, a, e)
  {
    assert Step(db, c).txns == db.txns && Step(db, c).assignments == db.assignments;
  }

  lemma EffectOfStep(db: Db, c: Command, a: Id, e: Envelope)
    requires Sound(db) && Supplied(db, c) && Does(db, c).Writes?
    ensures AsAnnounced(db, Step(db, c), c, a, e)
  {
    match c
    case CreateAccount(_, _, _, _, _, _) => CreateAccountEffect(db, c, a, e);
    case CorrectOpening(id, _) =>
      assert id in [id];
      var opening := OpeningOf(db, id);
      CorrectOpeningEffect(db, c, opening, a, e);
    case Reconcile(_, _, _, _, _) => ReconcileEffect(db, c, a, e);
    case CreateRecord(_, _, _, _) => CreateRecordEffect(db, c, a, e);
    case UpdateRecord(_, _, _) => UpdateRecordEffect(db, c, a, e);
    case RemoveRecord(_) => RemoveRecordEffect(db, c, a, e);
    case CreateTransfer(_, _, _, _, _, _) => CreateTransferEffect(db, c, a, e);
    case UpdateTransfer(_, _, _) => TransferEffect(db, c, a, e);
    case RemoveTransfer(_) => TransferEffect(db, c, a, e);
    case Move(_) => MoveEffect(db, c, a, e);
    case _ => OtherEffect(db, c, a, e);
  }

  /** Each operation that goes through moves exactly these amounts: on every account and in every envelope. */
  lemma StepEffect(db: Db, c: Command, a: Id, e: Envelope)
    requires Sound(db) && Supplied(db, c) && Does(db, c).Writes?
    ensures Balance(Step(db, c), a) == Balance(db, a) + AccountEffect(db, c, a)
    ensures Held(Step(db, c), e) == Held(db, e) + EnvelopeEffect(db, c, e)
  {
    EffectOfStep(db, c, a, e);
  }

  lemma WholeTotal(db: Db)
    requires Sound(db)
    ensures OpenTotal(db) == Total(db.txns, EVERY)
  {
    BalancesAddUp(db);
    assert Column(db.txns, EVERY) == Amounts(db.txns);
  }

  /** No move, transfer, hide or archive changes what the open accounts hold together. */
  lemma TotalMovesByRecordsOnly(db: Db, c: Command)
    requires Reachable(db) && Supplied(db, c)
    ensures OpenTotal(Step(db, c)) == OpenTotal(db) + (if Does(db, c).Writes? then TotalEffect(db, c) else 0)
  {
    ReachableIsSound(db);
    StepKeeps(db, c);
    if Does(db, c).Writes? {
      EffectOfStep(db, c, 0, None);
      WholeTotal(db);
      WholeTotal(Step(db, c));
    }
  }

  // ---- what undoes what ----

  /** Removing what was just recorded gives back the very tables there were before. */
  lemma RemoveUndoesCreate(db: Db, id: Id, d: Transactions.Draft, today: Date, at: int)
    requires id !in db.txns && Transactions.Created(db, id, d, today, at).Writes?
    ensures Step(Step(db, CreateRecord(id, d, today, at)), RemoveRecord(id)) == db
  {
    UsableRecord(db, d, None, [], today, at);
    var after := Step(db, CreateRecord(id, d, today, at));
    assert Accounts.RefusalOfAccounts(after, [after.txns[id].account]) == None;
    assert after.txns - {id} == db.txns;
  }

  lemma NewPair(db: Db, x: Id, o: Id, i: Id, d: Transfers.Draft, today: Date, at: int)
    requires Supplied(db, CreateTransfer(x, o, i, d, today, at)) && Transfers.Created(db, x, o, i, d, today, at).Writes?
    ensures var after := Step(db, CreateTransfer(x, o, i, d, today, at));
            && after == db.(txns := after.txns) && o in after.txns && i in after.txns
            && after.txns == db.txns[o := after.txns[o]][i := after.txns[i]]
            && after.txns[o].account == d.from && after.txns[i].account == d.to && Open(db, d.from) && Open(db, d.to)
            && Transfers.Legs(after.txns, x) == {o, i}
            && Transfers.PairOf(after.txns, {o, i}) == Some(Transfers.Pair(o, i))
  {
    UsableTransfer(db, d, [], today);
    var after := Step(db, CreateTransfer(x, o, i, d, today, at));
    assert forall id | id in db.txns :: id !in Transfers.Legs(db.txns, x);
    assert Transfers.Legs(after.txns, x) == {o, i};
    assert Transfers.IsPairOf(after.txns, {o, i}, Transfers.Pair(o, i));
    var p :| Transfers.IsPairOf(after.txns, {o, i}, p) && Transfers.PairOf(after.txns, {o, i}) == Some(p);
    Transfers.PairIsUnique(after.txns, {o, i}, p, Transfers.Pair(o, i));
  }

  lemma RemoveUndoesTransfer(db: Db, x: Id, o: Id, i: Id, d: Transfers.Draft, today: Date, at: int)
    requires Supplied(db, CreateTransfer(x, o, i, d, today, at))
    requires Transfers.Created(db, x, o, i, d, today, at).Writes?
    ensures Step(Step(db, CreateTransfer(x, o, i, d, today, at)), RemoveTransfer(x)) == db
  {
    var after := Step(db, CreateTransfer(x, o, i, d, today, at));
    NewPair(db, x, o, i, d, today, at);
    assert Accounts.RefusalOfAccounts(after, [d.from, d.to]) == None;
    assert after.txns - {o, i} == db.txns;
  }

  /** An account that was reconciled needs no second correction: repeating it writes nothing. */
  lemma ReconcilingTwiceWritesOnce(db: Db, id: Id, first: Id, second: Id, balance: int, today: Date, at: int)
    requires first !in db.txns && Accounts.Reconciled(db, id, first, balance, today, at).Writes?
    ensures var after := Step(db, Reconcile(id, first, balance, today, at));
            Balance(after, id) == balance && Step(after, Reconcile(id, second, balance, today, at)) == after
  {
    ReconcileEffect(db, Reconcile(id, first, balance, today, at), id, None);
  }
}
