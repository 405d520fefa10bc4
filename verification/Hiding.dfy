/** Hiding and unhiding over whole runs: what comes back, and when a hidden envelope can hold money. */
module Hiding {
  import opened Common
  import opened Ledger
  import opened Store
  import opened Runs
  import opened Soundness
  import opened Effects
  import opened Sums
  import Accounts
  import Transactions
  import Moves
  import Categories

  // ---- a group hidden and later unhidden ----

  /** The marker a category carries while the group it stood in is hidden. */
  function UnderTheGroup(before: Category, now: int): Option<int> {
    if before.hiddenAt.None? then Some(now) else before.hiddenAt
  }

  /** Between the two: the group is hidden, whoever is in it was in it, and carries the group's marker or its own. */
  ghost predicate KeptAway(before: Db, db: Db, g: Id, now: int) {
    && g in db.groups && db.groups[g].hiddenAt == Some(now)
    && forall c | c in db.categories && db.categories[c].group == g ::
         && c in before.categories && before.categories[c].group == g
         && before.categories[c].hiddenAt != Some(now)
         && db.categories[c].hiddenAt == UnderTheGroup(before.categories[c], now)
  }

  lemma StaysAway(before: Db, db: Db, c: Command, g: Id, now: int)
    requires KeptAway(before, db, g, now) && Supplied(db, c) && c != UnhideGroup(g)
    ensures KeptAway(before, Step(db, c), g, now)
  {
    if c.HideGroup? || c.UnhideGroup? {
      OtherGroupMarked(db, c, g);
    } else if OnCategories(c) {
      OneMarked(before, db, c, g, now);
    } else {
      NoneMarked(db, c);
    }
  }

  lemma NoneMarked(db: Db, c: Command)
    requires !OnCategories(c)
    ensures Step(db, c).categories == db.categories && Step(db, c).groups == db.groups
  {
  }

  /** Hiding or unhiding another group leaves this one and whoever is in it alone; hiding this one again is refused. */
  lemma OtherGroupMarked(db: Db, c: Command, g: Id)
    requires g in db.groups && db.groups[g].hiddenAt.Some? && (c.HideGroup? || (c.UnhideGroup? && c.id != g))
    ensures var after := Step(db, c);
            && g in after.groups && after.groups[g] == db.groups[g] && after.categories.Keys == db.categories.Keys
            && forall k | k in after.categories :: after.categories[k].group == db.categories[k].group
                 && (after.categories[k].group == g ==> after.categories[k] == db.categories[k])
  {
  }

  lemma OneMarked(before: Db, db: Db, c: Command, g: Id, now: int)
    requires KeptAway(before, db, g, now) && Supplied(db, c) && OnCategories(c) && !c.HideGroup? && !c.UnhideGroup?
    ensures KeptAway(before, Step(db, c), g, now)
  {
  }

  lemma {:induction false} StaysAwayThroughout(states: seq<Db>, commands: seq<Command>, g: Id, now: int, i: nat)
    requires IsRun(states, commands) && 0 < |commands|
    requires commands[0] == HideGroup(g, now) && Does(states[0], commands[0]).Writes?
    requires forall j | 0 < j < |commands| - 1 :: commands[j] != UnhideGroup(g)
    requires 1 <= i < |commands|
    ensures KeptAway(states[0], states[i], g, now)
  {
    if i == 1 {
      assert states[0 + 1] == Step(states[0], commands[0]);
    } else {
      StaysAwayThroughout(states, commands, g, now, i - 1);
      assert states[i - 1 + 1] == Step(states[i - 1], commands[i - 1]);
      StaysAway(states[0], states[i - 1], commands[i - 1], g, now);
    }
  }

  /**
   Whatever happens in between, unhiding a group gives every category still in it the marker it had before the
   group was hidden: the ones the hide took come back, one hidden on its own stays hidden, and no other category
   changes.
   */
  lemma UnhideGivesBack(states: seq<Db>, commands: seq<Command>, g: Id, now: int, c: Id)
    requires IsRun(states, commands) && 2 <= |commands|
    requires commands[0] == HideGroup(g, now) && Does(states[0], commands[0]).Writes?
    requires forall j | 0 < j < |commands| - 1 :: commands[j] != UnhideGroup(g)
    requires commands[|commands| - 1] == UnhideGroup(g)
    requires c in states[|commands| - 1].categories
    ensures var first, last, final := states[0], states[|commands| - 1], states[|commands|];
            && c in final.categories
            && g in final.groups && final.groups[g].hiddenAt.None?
            && (if last.categories[c].group == g
                then c in first.categories && first.categories[c].group == g
                     && final.categories[c] == first.categories[c]
                else final.categories[c] == last.categories[c])
  {
    var n := |commands| - 1;
    StaysAwayThroughout(states, commands, g, now, n);
    assert states[n + 1] == Step(states[n], commands[n]);
  }

  // ---- hidden envelopes and money ----

  ghost predicate HiddenAreEmpty(db: Db) {
    forall c | c in db.categories && db.categories[c].hiddenAt.Some? :: AvailableAllTime(db, c) == 0
  }

  predicate InHidden(db: Db, t: Txn) {
    t.category.Some? && t.category.value in db.categories && db.categories[t.category.value].hiddenAt.Some?
  }

  /**
   A record already in a hidden category is removed, or edited into another amount or category, with its account open
   and the edit in order.
   */
  ghost predicate Disturbs(db: Db, c: Command) {
    && (c.RemoveRecord? || c.UpdateRecord?)
    && c.id in db.txns && InHidden(db, db.txns[c.id])
    && var row := db.txns[c.id];
       && Transactions.RefuseTarget(row) == None
       && (c.RemoveRecord? ==> Accounts.RefusalOfAccounts(db, [row.account]) == None)
       && (c.UpdateRecord? ==>
             && Transactions.RefuseUnusable(db, c.record, row.category, [row.account], c.today) == None
             && (c.record.category != row.category
                 || Transactions.SignedAmount(c.record.kind, c.record.amount) != row.amount))
  }

  lemma HidingNeedsNothingHeld(db: Db, ids: set<Id>, c: Id)
    requires Categories.RefusalOfHolding(db, ids) == None && c in ids
    ensures AvailableAllTime(db, c) == 0
  {
    assert c !in Categories.StillHolding(db, ids);
  }

  /** A category that is hidden after the step and was visible before it holds nothing. */
  lemma NewlyHidden(db: Db, c: Command, k: Id)
    requires Supplied(db, c) && Does(db, c).Writes?
    requires k in Step(db, c).categories && Step(db, c).categories[k].hiddenAt.Some?
    requires k !in db.categories || db.categories[k].hiddenAt.None?
    ensures k in db.categories && AvailableAllTime(db, k) == 0 && (c.HideCategory? || c.HideGroup?)
  {
    if c.HideCategory? {
      HidingNeedsNothingHeld(db, {c.id}, k);
    } else if c.HideGroup? {
      assert k in Categories.Inside(db.categories, c.id);
      HidingNeedsNothingHeld(db, Categories.Inside(db.categories, c.id), k);
    }
  }

  /** No step but a disturbing one adds anything to an envelope that is hidden. */
  lemma HiddenUntouched(db: Db, c: Command, k: Id)
    requires References(db) && Does(db, c).Writes? && !Disturbs(db, c)
    requires k in db.categories && db.categories[k].hiddenAt.Some?
    ensures EnvelopeEffect(db, c, Some(k)) == 0
  {
    if c.Move? {
      var d := c.move;
      Moves.NoRefusal(db, Moves.InLockOrder(d));
      assert d.from == Some(k) ==> Moves.CategoryMove(k, -(d.amount as int)) in Moves.InLockOrder(d);
      assert d.to == Some(k) ==> Moves.CategoryMove(k, d.amount) in Moves.InLockOrder(d);
    }
  }

  lemma DisturbedIsHeld(db: Db, c: Command)
    requires Sound(db) && Supplied(db, c) && HiddenAreEmpty(db) && Disturbs(db, c)
    ensures !HiddenAreEmpty(Step(db, c))
  {
    var row := db.txns[c.id];
    var k := row.category.value;
    assert Shaped(row);
    StepEffect(db, c, 0, Some(k));
    assert Step(db, c).categories == db.categories;
    assert AvailableAllTime(db, k) == 0;
    if c.UpdateRecord? {
      assert c.record.category != Some(k) ==> row.amount != 0;
    }
    assert AvailableAllTime(Step(db, c), k) != 0;
  }

  /**
   A hidden category is hidden empty, but a record already in it can still be edited or removed. Those are the
   only steps that put money into a hidden envelope, and each of them does.
   */
  lemma HiddenStayEmpty(db: Db, c: Command)
    requires Sound(db) && Supplied(db, c) && HiddenAreEmpty(db)
    ensures HiddenAreEmpty(Step(db, c)) <==> !Disturbs(db, c)
  {
    if Disturbs(db, c) {
      DisturbedIsHeld(db, c);
    } else if Does(db, c).Writes? {
      var after := Step(db, c);
      forall k | k in after.categories && after.categories[k].hiddenAt.Some?
        ensures AvailableAllTime(after, k) == 0
      {
        StepEffect(db, c, 0, Some(k));
        if k in db.categories && db.categories[k].hiddenAt.Some? {
          HiddenUntouched(db, c, k);
        } else {
          NewlyHidden(db, c, k);
        }
        assert Held(after, Some(k)) == 0;
      }
    }
  }

  lemma ReachableNext(db: Db, c: Command)
    requires Reachable(db) && Supplied(db, c)
    ensures Reachable(Step(db, c))
  {
    var states, commands :| IsRun(states, commands) && states[0] == EMPTY && states[|commands|] == db;
    var states', commands' := states + [Step(db, c)], commands + [c];
    forall i | 0 <= i < |commands'|
      ensures Supplied(states'[i], commands'[i]) && states'[i + 1] == Step(states'[i], commands'[i])
    {
      if i < |commands| {
        assert states[i + 1] == Step(states[i], commands[i]);
      }
    }
    assert IsRun(states', commands');
  }

  // ---- a run that ends with money in a hidden envelope ----

  const DAY := Date(0, 1)

  const EXPENSE_OF_FIVE := Transactions.Draft(1, Some(1), EXPENSE, 5, DAY, None)

  const FIVE_FROM_THE_POOL := Moves.Draft(None, Some(1), 5, 0)

  /** A group with one category and an account, as three commands leave them. */
  lemma SetUp() returns (db: Db)
    ensures Reachable(db)
    ensures db.accounts == map[1 := Account(DAY, false)] && db.groups == map[1 := Group(None)]
    ensures db.categories == map[1 := Category(1, None)] && db.assignments == map[] && db.txns.Keys == {1}
    ensures Held(db, Some(1)) == 0
  {
    var commands: seq<Command> := [];
    assert IsRun([EMPTY], commands) && [EMPTY][0] == EMPTY && [EMPTY][|commands|] == EMPTY;
    assert Reachable(EMPTY);
    var one := Step(EMPTY, CreateGroup(1));
    ReachableNext(EMPTY, CreateGroup(1));
    var two := Step(one, CreateCategory(1, 1));
    ReachableNext(one, CreateCategory(1, 1));
    db := WithAccount(two);
  }

  lemma WithAccount(two: Db) returns (db: Db)
    requires Reachable(two) && two.accounts == map[] && two.txns == map[] && two.assignments == map[]
    ensures Reachable(db) && db.accounts == map[1 := Account(DAY, false)] && db.txns.Keys == {1}
    ensures db == two.(accounts := db.accounts, txns := db.txns) && Held(db, Some(1)) == 0
  {
    var create, opening := CreateAccount(1, 1, 100, DAY, DAY, 0), Accounts.Opening(1, 100, DAY, 0);
    db := two.(accounts := two.accounts[1 := Account(DAY, false)], txns := two.txns[1 := opening]);
    assert Step(two, create) == db;
    ReachableNext(two, create);
    HoldsNothing(two, 1);
    PutRow(two, 1, opening, 0, Some(1));
    assert Held(db, Some(1)) == Held(two.(txns := two.txns[1 := opening]), Some(1));
  }

  lemma HoldsNothing(db: Db, c: Id)
    requires db.txns == map[] && db.assignments == map[]
    ensures Held(db, Some(c)) == 0
  {
    SumZero(Column(db.txns, EVERY.(category := Some(Some(c)))));
    SumZero(AssignedColumn(db.assignments, Slots(Some(c), None, None)));
  }

  lemma Spending(start: Db) returns (db: Db)
    requires Reachable(start) && start.accounts == map[1 := Account(DAY, false)] && start.groups == map[1 := Group(None)]
    requires start.categories == map[1 := Category(1, None)] && start.txns.Keys == {1} && Held(start, Some(1)) == 0
    ensures Reachable(db) && db == start.(txns := start.txns[2 := Transactions.Row(EXPENSE_OF_FIVE, 0)])
    ensures Held(db, Some(1)) == -5
  {
    var record := CreateRecord(2, EXPENSE_OF_FIVE, DAY, 0);
    assert Transactions.RefuseUnusable(start, EXPENSE_OF_FIVE, None, [], DAY) == None;
    db := Step(start, record);
    ReachableNext(start, record);
    CreateRecordEffect(start, record, 0, Some(1));
  }

  lemma MoveGoesThrough(spent: Db)
    requires spent.categories == map[1 := Category(1, None)]
    ensures Does(spent, Move(FIVE_FROM_THE_POOL)) == Writes(spent.(assignments := Moves.Laid(spent.assignments, Some(1), 0, 5)))
  {
    assert Moves.InLockOrder(FIVE_FROM_THE_POOL) == [Moves.CategoryMove(1, 5)];
    Moves.NoRefusal(spent, [Moves.CategoryMove(1, 5)]);
  }

  lemma Covering(spent: Db) returns (db: Db)
    requires Reachable(spent) && spent.categories == map[1 := Category(1, None)] && Held(spent, Some(1)) == -5
    ensures Reachable(db) && db == spent.(assignments := db.assignments) && Held(db, Some(1)) == 0
  {
    MoveGoesThrough(spent);
    db := spent.(assignments := Moves.Laid(spent.assignments, Some(1), 0, 5));
    ReachableNext(spent, Move(FIVE_FROM_THE_POOL));
    LayRow(spent, Some(1), 0, 5, 0, Some(1));
  }

  lemma HidingIt(covered: Db) returns (db: Db)
    requires Reachable(covered) && covered.categories == map[1 := Category(1, None)] && Held(covered, Some(1)) == 0
    requires covered.groups == map[1 := Group(None)]
    ensures Reachable(db) && db == covered.(categories := map[1 := Category(1, Some(0))]) && HiddenAreEmpty(db)
  {
    assert Categories.StillHolding(covered, {1}) == {};
    db := Step(covered, HideCategory(1, 0));
    ReachableNext(covered, HideCategory(1, 0));
    assert covered.categories[1 := Category(1, Some(0))] == map[1 := Category(1, Some(0))];
    OtherEffect(covered, HideCategory(1, 0), 0, Some(1));
  }

  /** Spent, covered, hidden, and then the expense is removed: the hidden category holds what covered it. */
  lemma HiddenCanComeToHoldMoney() returns (db: Db, c: Command)
    ensures Reachable(db) && Supplied(db, c) && HiddenAreEmpty(db)
    ensures !HiddenAreEmpty(Step(db, c))
  {
    var start := SetUp();
    var spent := Spending(start);
    var covered := Covering(spent);
    db := HidingIt(covered);
    c := RemoveRecord(2);
    ReachableIsSound(db);
    assert Accounts.RefusalOfAccounts(db, [1]) == None;
    HiddenStayEmpty(db, c);
  }
}
