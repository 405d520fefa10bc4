/** Every operation keeps every invariant, so every reachable state is sound and no "impossible" error is ever raised. */
module Soundness {
  import opened Common
  import opened Ledger
  import opened Store
  import opened Runs
  import Accounts
  import Transactions
  import Transfers
  import Moves

  // ---- rows that are neither a leg nor an opening ----

  predicate Plain(t: Txn) {
    t.transfer.None? && !t.system
  }

  lemma AllOpen(db: Db, wanted: seq<Id>)
    requires Accounts.RefusalOfAccounts(db, wanted) == None
    ensures forall a | a in wanted :: Open(db, a)
  {
  }

  /** Writing a row moves the balance of no account but those it names, before and after. */
  lemma BalancesElsewhere(db: Db, id: Id, t: Txn, a: Id)
    requires t.account != a && (id in db.txns ==> db.txns[id].account != a)
    ensures Balance(db.(txns := db.txns[id := t]), a) == Balance(db, a)
  {
    TotalPut(db.txns, id, t, EVERY.(account := Some(a)));
  }

  lemma PutKeepsArchivedEmpty(db: Db, id: Id, t: Txn)
    requires ArchivedAreEmpty(db)
    requires Open(db, t.account) && (id in db.txns ==> Open(db, db.txns[id].account))
    ensures ArchivedAreEmpty(db.(txns := db.txns[id := t]))
  {
    forall a | a in db.accounts && db.accounts[a].archived
      ensures Balance(db.(txns := db.txns[id := t]), a) == 0
    {
      BalancesElsewhere(db, id, t, a);
    }
  }

  lemma DropKeepsArchivedEmpty(db: Db, id: Id)
    requires ArchivedAreEmpty(db)
    requires id in db.txns && Open(db, db.txns[id].account)
    ensures ArchivedAreEmpty(db.(txns := db.txns - {id}))
  {
    forall a | a in db.accounts && db.accounts[a].archived
      ensures Balance(db.(txns := db.txns - {id}), a) == 0
    {
      TotalDrop(db.txns, id, EVERY.(account := Some(a)));
    }
  }

  /** Rows that agree on every leg of a transfer agree on whether it is whole. */
  lemma WholeAsBefore(rows: map<Id, Txn>, after: map<Id, Txn>, x: Id)
    requires Whole(rows, x)
    requires Transfers.Legs(after, x) == Transfers.Legs(rows, x)
    requires forall id | id in Transfers.Legs(rows, x) :: after[id] == rows[id]
    ensures Whole(after, x)
  {
    var legs := Transfers.Legs(rows, x);
    if legs != {} {
      var p :| Mirrored(rows, legs, p);
      assert p.outgoing in legs && p.incoming in legs;
      assert Mirrored(after, legs, p);
    }
  }

  /** A row that is no leg, put in or in the place of another that was none, leaves every transfer as it was. */
  lemma PutKeepsPairs(db: Db, id: Id, t: Txn)
    requires TransfersPaired(db) && t.transfer.None? && (id in db.txns ==> db.txns[id].transfer.None?)
    ensures TransfersPaired(db.(txns := db.txns[id := t]))
  {
    var after := db.txns[id := t];
    forall x
      ensures Whole(after, x)
    {
      assert Whole(db.txns, x);
      assert Transfers.Legs(after, x) == Transfers.Legs(db.txns, x);
      WholeAsBefore(db.txns, after, x);
    }
  }

  lemma PutKeepsOpenings(db: Db, id: Id, t: Txn)
    requires OneOpeningEach(db) && !t.system && (id in db.txns ==> !db.txns[id].system)
    ensures OneOpeningEach(db.(txns := db.txns[id := t]))
  {
    forall a | a in db.accounts
      ensures exists o :: Accounts.Openings(db.txns[id := t], a) == {o}
    {
      assert Accounts.Openings(db.txns[id := t], a) == Accounts.Openings(db.txns, a);
    }
  }

  lemma PutKeepsReferences(db: Db, id: Id, t: Txn)
    requires References(db) && AllShaped(db) && Shaped(t)
    requires t.account in db.accounts && (t.category.Some? ==> t.category.value in db.categories)
    ensures References(db.(txns := db.txns[id := t])) && AllShaped(db.(txns := db.txns[id := t]))
  {
  }

  lemma PutPlain(db: Db, id: Id, t: Txn)
    requires Sound(db) && Plain(t) && Shaped(t)
    requires Open(db, t.account) && (t.category.Some? ==> t.category.value in db.categories)
    requires id in db.txns ==> Plain(db.txns[id]) && Open(db, db.txns[id].account)
    ensures Sound(db.(txns := db.txns[id := t]))
  {
    PutKeepsArchivedEmpty(db, id, t);
    PutKeepsPairs(db, id, t);
    PutKeepsOpenings(db, id, t);
    PutKeepsReferences(db, id, t);
  }

  lemma DropKeepsPairs(db: Db, id: Id)
    requires TransfersPaired(db) && id in db.txns && db.txns[id].transfer.None?
    ensures TransfersPaired(db.(txns := db.txns - {id}))
  {
    var after := db.txns - {id};
    forall x
      ensures Whole(after, x)
    {
      assert Whole(db.txns, x);
      assert Transfers.Legs(after, x) == Transfers.Legs(db.txns, x);
      WholeAsBefore(db.txns, after, x);
    }
  }

  lemma DropPlain(db: Db, id: Id)
    requires Sound(db)
    requires id in db.txns && Plain(db.txns[id]) && Open(db, db.txns[id].account)
    ensures Sound(db.(txns := db.txns - {id}))
  {
    DropKeepsArchivedEmpty(db, id);
    DropKeepsPairs(db, id);
    forall a | a in db.accounts
      ensures exists o :: Accounts.Openings(db.txns - {id}, a) == {o}
    {
      assert Accounts.Openings(db.txns - {id}, a) == Accounts.Openings(db.txns, a);
    }
  }

  // ---- accounts ----

  lemma OpenedKeepsArchivedEmpty(db: Db, id: Id, openingId: Id, account: Account, opening: Txn)
    requires ArchivedAreEmpty(db) && id !in db.accounts && openingId !in db.txns && opening.account == id && !account.archived
    ensures ArchivedAreEmpty(db.(accounts := db.accounts[id := account], txns := db.txns[openingId := opening]))
  {
    var after := db.(accounts := db.accounts[id := account], txns := db.txns[openingId := opening]);
    forall a | a in after.accounts && after.accounts[a].archived
      ensures Balance(after, a) == 0
    {
      assert Balance(db, a) == 0;
      TotalPut(db.txns, openingId, opening, EVERY.(account := Some(a)));
    }
  }

  lemma OpenedHasItsOpening(db: Db, id: Id, openingId: Id, account: Account, opening: Txn)
    requires OneOpeningEach(db) && References(db) && id !in db.accounts && openingId !in db.txns
    requires opening.account == id && opening.system
    ensures OneOpeningEach(db.(accounts := db.accounts[id := account], txns := db.txns[openingId := opening]))
  {
    var txns := db.txns[openingId := opening];
    forall a | a in db.accounts || a == id
      ensures exists o :: Accounts.Openings(txns, a) == {o}
    {
      if a == id {
        assert Accounts.Openings(txns, a) == {openingId};
      } else {
        assert Accounts.Openings(txns, a) == Accounts.Openings(db.txns, a);
      }
    }
  }

  lemma CreateAccountKeeps(db: Db, id: Id, openingId: Id, amount: int, openedOn: Date, today: Date, at: int)
    requires Sound(db) && id !in db.accounts && openingId !in db.txns
    ensures Sound(After(db, Accounts.Created(db, id, openingId, amount, openedOn, today, at)))
  {
    var opening := Accounts.Opening(id, amount, today, at);
    OpenedKeepsArchivedEmpty(db, id, openingId, Account(openedOn, false), opening);
    OpenedHasItsOpening(db, id, openingId, Account(openedOn, false), opening);
    PutKeepsPairs(db, openingId, opening);
  }

  lemma MarkArchivedKeeps(db: Db, id: Id)
    requires Sound(db) && id in db.accounts && Balance(db, id) == 0
    ensures Sound(db.(accounts := db.accounts[id := db.accounts[id].(archived := true)]))
  {
    var after := db.(accounts := db.accounts[id := db.accounts[id].(archived := true)]);
    forall a | a in after.accounts && after.accounts[a].archived
      ensures Balance(after, a) == 0
    {
      assert Balance(after, a) == Balance(db, a);
    }
    forall x
      ensures Whole(after.txns, x)
    {
      assert Whole(db.txns, x);
    }
    forall a | a in after.accounts
      ensures exists o :: Accounts.Openings(after.txns, a) == {o}
    {
      assert a in db.accounts;
    }
  }

  lemma ArchiveKeeps(db: Db, id: Id)
    requires Sound(db)
    ensures Sound(After(db, Accounts.Archived(db, id)))
  {
    if Accounts.Archived(db, id).Writes? {
      assert id in [id];
      MarkArchivedKeeps(db, id);
    }
  }

  lemma CorrectOpeningKeeps(db: Db, id: Id, amount: int)
    requires Sound(db)
    ensures Sound(After(db, Accounts.OpeningCorrected(db, id, amount)))
  {
    var outcome := Accounts.OpeningCorrected(db, id, amount);
    if outcome.Writes? {
      AllOpen(db, [id]);
      assert id in [id];
      var opening :| Accounts.Openings(db.txns, id) == {opening};
      assert opening in Accounts.Openings(db.txns, id);
      assert outcome.db == db.(txns := db.txns[opening := db.txns[opening].(amount := amount)]);
      PutKeepsArchivedEmpty(db, opening, db.txns[opening].(amount := amount));
      forall x
        ensures Whole(outcome.db.txns, x)
      {
        assert Transfers.Legs(outcome.db.txns, x) == Transfers.Legs(db.txns, x);
        WholeAsBefore(db.txns, outcome.db.txns, x);
      }
      forall a | a in db.accounts
        ensures exists o :: Accounts.Openings(outcome.db.txns, a) == {o}
      {
        assert Accounts.Openings(outcome.db.txns, a) == Accounts.Openings(db.txns, a);
      }
    }
  }

  lemma ReconcileKeeps(db: Db, id: Id, adjustmentId: Id, balance: int, today: Date, at: int)
    requires Sound(db) && adjustmentId !in db.txns
    ensures Sound(After(db, Accounts.Reconciled(db, id, adjustmentId, balance, today, at)))
  {
    if Accounts.RefusalOfAccounts(db, [id]) == None {
      AllOpen(db, [id]);
      assert id in [id];
      var difference := balance - Balance(db, id);
      if difference != 0 {
        PutPlain(db, adjustmentId, Accounts.Adjustment(id, difference, today, at));
      }
    }
  }

  // ---- records ----

  lemma UsableRecord(db: Db, d: Transactions.Draft, heldCategory: Option<Id>, alsoHeld: seq<Id>, today: Date, at: int)
    requires Transactions.RefuseUnusable(db, d, heldCategory, alsoHeld, today) == None
    ensures Open(db, d.account) && forall a | a in alsoHeld :: Open(db, a)
    ensures d.category.Some? ==> d.category.value in db.categories
    ensures Plain(Transactions.Row(d, at)) && Shaped(Transactions.Row(d, at))
  {
    var wanted := [d.account] + alsoHeld;
    AllOpen(db, wanted);
    assert d.account in wanted;
    assert forall a | a in alsoHeld :: a in wanted;
  }

  lemma CreateRecordKeeps(db: Db, id: Id, d: Transactions.Draft, today: Date, at: int)
    requires Sound(db) && id !in db.txns
    ensures Sound(After(db, Transactions.Created(db, id, d, today, at)))
  {
    if Transactions.RefuseUnusable(db, d, None, [], today) == None {
      UsableRecord(db, d, None, [], today, at);
      PutPlain(db, id, Transactions.Row(d, at));
    }
  }

  lemma UpdateRecordKeeps(db: Db, id: Id, d: Transactions.Draft, today: Date)
    requires Sound(db)
    ensures Sound(After(db, Transactions.Updated(db, id, d, today)))
  {
    if Transactions.Updated(db, id, d, today).Writes? {
      var current := db.txns[id];
      UsableRecord(db, d, current.category, [current.account], today, current.createdAt);
      assert current.account in [current.account];
      PutPlain(db, id, Transactions.Row(d, current.createdAt));
    }
  }

  lemma RemoveRecordKeeps(db: Db, id: Id)
    requires Sound(db)
    ensures Sound(After(db, Transactions.Removed(db, id)))
  {
    if Transactions.Removed(db, id).Writes? {
      AllOpen(db, [db.txns[id].account]);
      assert db.txns[id].account in [db.txns[id].account];
      DropPlain(db, id);
    }
  }

  // ---- transfers ----

  lemma UsableTransfer(db: Db, d: Transfers.Draft, alsoHeld: seq<Id>, today: Date)
    requires Transfers.RefuseUnusable(db, d, alsoHeld, today) == None
    ensures Open(db, d.from) && Open(db, d.to) && d.from != d.to && forall a | a in alsoHeld :: Open(db, a)
  {
    var wanted := alsoHeld + [d.from, d.to];
    AllOpen(db, wanted);
    assert d.from in wanted && d.to in wanted;
    assert forall a | a in alsoHeld :: a in wanted;
  }

  /** After differs from before in the legs of one transfer at most. */
  ghost predicate OnlyLegsDiffer(rows: map<Id, Txn>, after: map<Id, Txn>, transfer: Id) {
    && (forall id | id in rows && rows[id].transfer != Some(transfer) :: id in after && after[id] == rows[id])
    && (forall id | id in after && after[id].transfer != Some(transfer) :: id in rows && after[id] == rows[id])
  }

  lemma OtherPairsKept(db: Db, after: map<Id, Txn>, transfer: Id)
    requires TransfersPaired(db) && OnlyLegsDiffer(db.txns, after, transfer) && Whole(after, transfer)
    ensures TransfersPaired(db.(txns := after))
  {
    forall x
      ensures Whole(after, x)
    {
      if x != transfer {
        assert Whole(db.txns, x);
        assert Transfers.Legs(after, x) == Transfers.Legs(db.txns, x);
        WholeAsBefore(db.txns, after, x);
      }
    }
  }

  lemma LegsAreNoOpenings(db: Db, after: map<Id, Txn>, transfer: Id)
    requires OneOpeningEach(db) && OnlyLegsDiffer(db.txns, after, transfer)
    requires AllShaped(db) && AllShaped(db.(txns := after))
    ensures OneOpeningEach(db.(txns := after))
  {
    assert forall id | id in db.txns && db.txns[id].system :: Shaped(db.txns[id]) && db.txns[id].transfer.None?;
    assert forall id | id in after && after[id].system :: Shaped(after[id]) && after[id].transfer.None?;
    forall a | a in db.accounts
      ensures exists o :: Accounts.Openings(after, a) == {o}
    {
      assert Accounts.Openings(after, a) == Accounts.Openings(db.txns, a);
    }
  }

  lemma LegsKeepReferences(db: Db, after: map<Id, Txn>, transfer: Id)
    requires References(db) && AllShaped(db) && OnlyLegsDiffer(db.txns, after, transfer)
    requires forall id | id in Transfers.Legs(after, transfer) :: Shaped(after[id]) && after[id].account in db.accounts
    ensures References(db.(txns := after)) && AllShaped(db.(txns := after))
  {
    forall id | id in after
      ensures Shaped(after[id]) && after[id].account in db.accounts
      ensures after[id].category.Some? ==> after[id].category.value in db.categories
    {
      assert after[id].transfer == Some(transfer) ==> id in Transfers.Legs(after, transfer);
    }
  }

  /** The legs of one transfer before and after, with every other row left alone. */
  lemma LegsReplaced(db: Db, after: map<Id, Txn>, transfer: Id)
    requires Sound(db) && OnlyLegsDiffer(db.txns, after, transfer) && Whole(after, transfer)
    requires forall id | id in Transfers.Legs(after, transfer) :: Shaped(after[id]) && after[id].account in db.accounts
    requires ArchivedAreEmpty(db.(txns := after))
    ensures Sound(db.(txns := after))
  {
    OtherPairsKept(db, after, transfer);
    LegsKeepReferences(db, after, transfer);
    LegsAreNoOpenings(db, after, transfer);
  }

  /** Two rows written one after the other, both on open accounts. */
  lemma TwoPutsKeepArchivedEmpty(db: Db, id: Id, t: Txn, id': Id, t': Txn)
    requires ArchivedAreEmpty(db) && id != id'
    requires Open(db, t.account) && (id in db.txns ==> Open(db, db.txns[id].account))
    requires Open(db, t'.account) && (id' in db.txns ==> Open(db, db.txns[id'].account))
    ensures ArchivedAreEmpty(db.(txns := db.txns[id := t][id' := t']))
  {
    PutKeepsArchivedEmpty(db, id, t);
    var half := db.(txns := db.txns[id := t]);
    PutKeepsArchivedEmpty(half, id', t');
    assert half.(txns := half.txns[id' := t']) == db.(txns := db.txns[id := t][id' := t']);
  }

  lemma PairIsWhole(rows: map<Id, Txn>, transfer: Id, p: Transfers.Pair, o: Txn, i: Txn)
    requires p.outgoing != p.incoming && Transfers.Legs(rows, transfer) <= {p.outgoing, p.incoming}
    requires forall id | id in {p.outgoing, p.incoming} && id in rows :: id in Transfers.Legs(rows, transfer)
    requires o.transfer == i.transfer == Some(transfer)
    requires o.amount == -i.amount < 0 && o.date == i.date && o.account != i.account
    ensures var after := rows[p.outgoing := o][p.incoming := i];
            && Transfers.Legs(after, transfer) == {p.outgoing, p.incoming} && Whole(after, transfer)
            && OnlyLegsDiffer(rows, after, transfer)
  {
    var after := rows[p.outgoing := o][p.incoming := i];
    assert forall id | id in rows && rows[id].transfer == Some(transfer) :: id in Transfers.Legs(rows, transfer);
    assert Transfers.Legs(after, transfer) == {p.outgoing, p.incoming};
    assert Mirrored(after, {p.outgoing, p.incoming}, p);
  }

  /** Writing a whole pair, whether its two rows are new or the ones the transfer already had. */
  lemma WritePair(db: Db, transfer: Id, p: Transfers.Pair, o: Txn, i: Txn)
    requires Sound(db) && p.outgoing != p.incoming
    requires Transfers.Legs(db.txns, transfer) <= {p.outgoing, p.incoming}
    requires forall id | id in {p.outgoing, p.incoming} && id in db.txns ::
        id in Transfers.Legs(db.txns, transfer) && Open(db, db.txns[id].account)
    requires Shaped(o) && Shaped(i) && o.transfer == i.transfer == Some(transfer)
    requires o.amount == -i.amount < 0 && o.date == i.date && o.account != i.account
    requires Open(db, o.account) && Open(db, i.account)
    ensures Sound(db.(txns := db.txns[p.outgoing := o][p.incoming := i]))
  {
    var after := db.txns[p.outgoing := o][p.incoming := i];
    TwoPutsKeepArchivedEmpty(db, p.outgoing, o, p.incoming, i);
    PairIsWhole(db.txns, transfer, p, o, i);
    LegsReplaced(db, after, transfer);
  }

  lemma CreateTransferKeeps(db: Db, transfer: Id, outgoing: Id, incoming: Id, d: Transfers.Draft, today: Date, at: int)
    requires Sound(db) && outgoing !in db.txns && incoming !in db.txns && outgoing != incoming
    requires Transfers.Legs(db.txns, transfer) == {}
    ensures Sound(After(db, Transfers.Created(db, transfer, outgoing, incoming, d, today, at)))
  {
    if Transfers.RefuseUnusable(db, d, [], today) == None {
      UsableTransfer(db, d, [], today);
      var o := Transfers.Leg(transfer, d.from, -(d.amount as int), d.date, at);
      var i := Transfers.Leg(transfer, d.to, d.amount, d.date, at);
      assert Transfers.Created(db, transfer, outgoing, incoming, d, today, at)
          == Writes(db.(txns := db.txns[outgoing := o][incoming := i]));
      WritePair(db, transfer, Transfers.Pair(outgoing, incoming), o, i);
    }
  }

  /** In a sound state the rows of a transfer are a pair, and the pair the code finds is the mirrored one. */
  lemma FoundPair(db: Db, transfer: Id) returns (p: Transfers.Pair)
    requires Sound(db) && Transfers.Legs(db.txns, transfer) != {}
    ensures Transfers.PairOf(db.txns, Transfers.Legs(db.txns, transfer)) == Some(p)
    ensures Mirrored(db.txns, Transfers.Legs(db.txns, transfer), p)
    ensures p.outgoing != p.incoming
  {
    var legs := Transfers.Legs(db.txns, transfer);
    assert Whole(db.txns, transfer);
    p :| Mirrored(db.txns, legs, p);
    var q :| Transfers.IsPairOf(db.txns, legs, q) && Transfers.PairOf(db.txns, legs) == Some(q);
    Transfers.PairIsUnique(db.txns, legs, p, q);
  }

  lemma UpdateTransferKeeps(db: Db, transfer: Id, d: Transfers.Draft, today: Date)
    requires Sound(db)
    ensures Sound(After(db, Transfers.Updated(db, transfer, d, today)))
  {
    var legs := Transfers.Legs(db.txns, transfer);
    if legs != {} {
      var p := FoundPair(db, transfer);
      var o, i := db.txns[p.outgoing], db.txns[p.incoming];
      if Transfers.RefuseUnusable(db, d, [o.account, i.account], today) == None {
        UsableTransfer(db, d, [o.account, i.account], today);
        assert o.account in [o.account, i.account] && i.account in [o.account, i.account];
        assert p.outgoing in legs && p.incoming in legs;
        assert Shaped(o) && Shaped(i);
        var o' := Transfers.Relegged(o, d.from, -(d.amount as int), d.date);
        var i' := Transfers.Relegged(i, d.to, d.amount, d.date);
        assert Transfers.Updated(db, transfer, d, today)
            == Writes(db.(txns := db.txns[p.outgoing := o'][p.incoming := i']));
        WritePair(db, transfer, p, o', i');
      }
    }
  }

  lemma RemoveTransferKeeps(db: Db, transfer: Id)
    requires Sound(db)
    ensures Sound(After(db, Transfers.Removed(db, transfer)))
  {
    var legs := Transfers.Legs(db.txns, transfer);
    if legs != {} {
      var p := FoundPair(db, transfer);
      var o, i := db.txns[p.outgoing], db.txns[p.incoming];
      if Accounts.RefusalOfAccounts(db, [o.account, i.account]) == None {
        AllOpen(db, [o.account, i.account]);
        assert o.account in [o.account, i.account] && i.account in [o.account, i.account];
        var half := db.(txns := db.txns - {p.outgoing});
        DropKeepsArchivedEmpty(db, p.outgoing);
        DropKeepsArchivedEmpty(half, p.incoming);
        var after := half.txns - {p.incoming};
        assert after == db.txns - legs;
        assert Transfers.Legs(after, transfer) == {};
        LegsReplaced(db, after, transfer);
      }
    }
  }

  // ---- envelopes ----

  lemma MoveKeeps(db: Db, d: Moves.Draft)
    requires Sound(db)
    ensures Sound(After(db, Moves.Moved(db, d)))
  {
    var outcome := Moves.Moved(db, d);
    if outcome.Writes? {
      var moves := Moves.InLockOrder(d);
      Moves.NoRefusal(db, moves);
      assert d.from.Some? ==> Moves.CategoryMove(d.from.value, -(d.amount as int)) in moves;
      assert d.to.Some? ==> Moves.CategoryMove(d.to.value, d.amount) in moves;
      SameTxns(db, outcome.db);
    }
  }

  lemma SameTxns(db: Db, after: Db)
    requires Sound(db)
    requires after.txns == db.txns && after.accounts == db.accounts
    ensures ArchivedAreEmpty(after) && AllShaped(after) && TransfersPaired(after) && OneOpeningEach(after)
  {
    forall a | a in after.accounts
      ensures Balance(after, a) == Balance(db, a)
    {
    }
  }

  /** Operations on categories and groups: they only have to keep the references and the hidden groups. */
  lemma RegroupingKeeps(db: Db, after: Db)
    requires Sound(db)
    requires after.txns == db.txns && after.accounts == db.accounts && after.assignments == db.assignments
    requires db.categories.Keys <= after.categories.Keys
    requires forall c | c in after.categories :: after.categories[c].group in after.groups
    requires HiddenGroupsHideAll(after)
    ensures Sound(after)
  {
    SameTxns(db, after);
  }

  predicate OnCategories(c: Command) {
    || c.CreateGroup? || c.CreateCategory? || c.Regroup? || c.HideCategory? || c.UnhideCategory? || c.HideGroup?
    || c.UnhideGroup?
  }

  lemma GroupsKept(db: Db, c: Command)
    requires (forall x | x in db.categories :: db.categories[x].group in db.groups) && HiddenGroupsHideAll(db)
    requires OnCategories(c) && Supplied(db, c) && Does(db, c).Writes?
    ensures var after := Does(db, c).db;
            && after == db.(groups := after.groups, categories := after.categories)
            && db.categories.Keys <= after.categories.Keys
            && (forall x | x in after.categories :: after.categories[x].group in after.groups)
            && HiddenGroupsHideAll(after)
  {
  }

  lemma CategoryStepKeeps(db: Db, c: Command)
    requires Sound(db) && Supplied(db, c) && OnCategories(c)
    ensures Sound(Step(db, c))
  {
    if Does(db, c).Writes? {
      GroupsKept(db, c);
      RegroupingKeeps(db, Does(db, c).db);
    }
  }

  // ---- runs ----

  /** One step of any kind keeps the whole invariant. */
  lemma StepKeeps(db: Db, c: Command)
    requires Sound(db) && Supplied(db, c)
    ensures Sound(Step(db, c))
  {
    match c
    case CreateAccount(id, openingId, amount, openedOn, today, at) =>
      CreateAccountKeeps(db, id, openingId, amount, openedOn, today, at);
    case ArchiveAccount(id) => ArchiveKeeps(db, id);
    case CorrectOpening(id, amount) => CorrectOpeningKeeps(db, id, amount);
    case Reconcile(id, adjustmentId, balance, today, at) => ReconcileKeeps(db, id, adjustmentId, balance, today, at);
    case CreateRecord(id, record, today, at) => CreateRecordKeeps(db, id, record, today, at);
    case UpdateRecord(id, record, today) => UpdateRecordKeeps(db, id, record, today);
    case RemoveRecord(id) => RemoveRecordKeeps(db, id);
    case CreateTransfer(transfer, outgoing, incoming, draft, today, at) =>
      CreateTransferKeeps(db, transfer, outgoing, incoming, draft, today, at);
    case UpdateTransfer(transfer, draft, today) => UpdateTransferKeeps(db, transfer, draft, today);
    case RemoveTransfer(transfer) => RemoveTransferKeeps(db, transfer);
    case Move(move) => MoveKeeps(db, move);
    case _ => CategoryStepKeeps(db, c);
  }

  lemma {:induction false} RunKeeps(states: seq<Db>, commands: seq<Command>, i: nat)
    requires IsRun(states, commands) && Sound(states[0]) && i < |states|
    ensures Sound(states[i])
  {
    if i > 0 {
      RunKeeps(states, commands, i - 1);
      StepKeeps(states[i - 1], commands[i - 1]);
      assert states[i - 1 + 1] == Step(states[i - 1], commands[i - 1]);
    }
  }

  lemma ReachableIsSound(db: Db)
    requires Reachable(db)
    ensures Sound(db)
  {
    var states, commands :| IsRun(states, commands) && states[0] == EMPTY && states[|commands|] == db;
    forall x
      ensures Whole(EMPTY.txns, x)
    {
      assert Transfers.Legs(EMPTY.txns, x) == {};
    }
    RunKeeps(states, commands, |commands|);
  }

  lemma OpeningNeverMissing(db: Db, id: Id, amount: int)
    requires OneOpeningEach(db)
    ensures !AnswerOf(Accounts.OpeningCorrected(db, id, amount)).Broken?
  {
    if Accounts.RefusalOfAccounts(db, [id]) == None {
      assert id in [id];
      var o :| Accounts.Openings(db.txns, id) == {o};
    }
  }

  lemma PairNeverBroken(db: Db, transfer: Id, draft: Transfers.Draft, today: Date)
    requires Sound(db)
    ensures !AnswerOf(Transfers.Updated(db, transfer, draft, today)).Broken? && !AnswerOf(Transfers.Removed(db, transfer)).Broken?
  {
    if Transfers.Legs(db.txns, transfer) != {} {
      var p := FoundPair(db, transfer);
    }
  }

  lemma OthersNeverBreak(db: Db, c: Command)
    requires !c.CorrectOpening? && !c.UpdateTransfer? && !c.RemoveTransfer?
    ensures !AnswerOf(Does(db, c)).Broken?
  {
  }

  /** No command can make a reachable state raise one of the errors the code holds to be impossible. */
  lemma NothingBreaks(db: Db, c: Command)
    requires Reachable(db)
    ensures !AnswerOf(Does(db, c)).Broken?
  {
    ReachableIsSound(db);
    match c
    case CorrectOpening(id, amount) => OpeningNeverMissing(db, id, amount);
    case UpdateTransfer(transfer, draft, today) => PairNeverBroken(db, transfer, draft, today);
    case RemoveTransfer(transfer) => PairNeverBroken(db, transfer, Transfers.Draft(0, 0, 1, Date(0, 1)), Date(0, 1));
    case _ => OthersNeverBreak(db, c);
  }
}
