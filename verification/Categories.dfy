/** Categories and their groups: creating and moving them, hiding and unhiding one or a whole group. */
module Categories {
  import opened Common
  import opened Ledger
  import opened Store
  import opened Accounts

  /** The refusal of a group a category is about to enter: it has to exist and to be shown. */
  function RefusalOfGroup(db: Db, group: Id): Option<Refusal> {
    if group !in db.groups then Some(UNKNOWN_GROUP)
    else if db.groups[group].hiddenAt.Some? then Some(GROUP_HIDDEN)
    else None
  }

  function GroupCreated(db: Db, id: Id): Outcome {
    Writes(db.(groups := db.groups[id := Group(None)]))
  }

  function Created(db: Db, id: Id, group: Id): Outcome {
    match RefusalOfGroup(db, group)
    case Some(reason) => Stops(Refused(reason))
    case None => Writes(db.(categories := db.categories[id := Category(group, None)]))
  }

  /**
   The part of an update that moves a category to another group; its hidden marker travels with it. The account, if
   there is one, is a default account other than the one the category has, and it has to be open.
   */
  function Regrouped(db: Db, id: Id, group: Id, account: Option<Id>): Outcome {
    if id !in db.categories then Stops(Refused(UNKNOWN_CATEGORY))
    else
      match (if account.Some? then RefusalOfAccounts(db, [account.value]) else None)
      case Some(reason) => Stops(Refused(reason))
      case None =>
        if group == db.categories[id].group then Writes(db)
        else
          match RefusalOfGroup(db, group)
          case Some(reason) => Stops(Refused(reason))
          case None => Writes(db.(categories := db.categories[id := db.categories[id].(group := group)]))
  }

  /** The categories among these that hold money over every month, in either direction of the sign. */
  ghost function StillHolding(db: Db, ids: set<Id>): set<Id> {
    set c | c in ids && AvailableAllTime(db, c) != 0
  }

  ghost function RefusalOfHolding(db: Db, ids: set<Id>): Option<Refusal> {
    if StillHolding(db, ids) == {} then None
    else
      HasLeast(StillHolding(db, ids));
      var c :| Least(StillHolding(db, ids), c);
      Some(AVAILABLE_NOT_ZERO(c, AvailableAllTime(db, c)))
  }

  ghost function Hidden(db: Db, id: Id, now: int): Outcome {
    if id !in db.categories then Stops(Refused(UNKNOWN_CATEGORY))
    else if db.categories[id].hiddenAt.Some? then Stops(Refused(ALREADY_HIDDEN))
    else
      match RefusalOfHolding(db, {id})
      case Some(reason) => Stops(Refused(reason))
      case None => Writes(db.(categories := db.categories[id := db.categories[id].(hiddenAt := Some(now))]))
  }

  function Unhidden(db: Db, id: Id): Outcome {
    if id !in db.categories then Stops(Refused(UNKNOWN_CATEGORY))
    else
      match RefusalOfGroup(db, db.categories[id].group)
      case Some(reason) => Stops(Refused(reason))
      case None => Writes(db.(categories := db.categories[id := db.categories[id].(hiddenAt := None)]))
  }

  function Inside(rows: map<Id, Category>, group: Id): set<Id> {
    set c | c in rows && rows[c].group == group
  }

  /** Those of a group carrying one marker. */
  function Marked(rows: map<Id, Category>, group: Id, hiddenAt: Option<int>): set<Id> {
    set c | c in rows && rows[c].group == group && rows[c].hiddenAt == hiddenAt
  }

  function Remarked(rows: map<Id, Category>, ids: set<Id>, hiddenAt: Option<int>): map<Id, Category> {
    map c | c in rows :: if c in ids then rows[c].(hiddenAt := hiddenAt) else rows[c]
  }

  ghost function GroupHidden(db: Db, id: Id, now: int): Outcome {
    if id !in db.groups then Stops(Refused(UNKNOWN_GROUP))
    else if db.groups[id].hiddenAt.Some? then Stops(Refused(ALREADY_HIDDEN))
    else
      match RefusalOfHolding(db, Inside(db.categories, id))
      case Some(reason) => Stops(Refused(reason))
      case None =>
        Writes(db.(categories := Remarked(db.categories, Marked(db.categories, id, None), Some(now)),
                   groups := db.groups[id := Group(Some(now))]))
  }

  function GroupUnhidden(db: Db, id: Id): Outcome {
    if id !in db.groups then Stops(Refused(UNKNOWN_GROUP))
    else
      Writes(db.(categories := Remarked(db.categories, Marked(db.categories, id, db.groups[id].hiddenAt), None),
                 groups := db.groups[id := Group(None)]))
  }

  // ---- the operations over the database ----

  method RefuseGroup(store: Database, group: Id) returns (refusal: Option<Refusal>)
    ensures refusal == RefusalOfGroup(store.State(), group)
  {
    if group !in store.groups {
      return Some(UNKNOWN_GROUP);
    }
    refusal := if store.groups[group].hiddenAt.Some? then Some(GROUP_HIDDEN) else None;
  }

  method CreateGroup(store: Database, id: Id) returns (answer: Answer)
    modifies store
    ensures answer == AnswerOf(GroupCreated(old(store.State()), id))
    ensures store.State() == After(old(store.State()), GroupCreated(old(store.State()), id))
  {
    store.groups := store.groups[id := Group(None)];
    answer := Done;
  }

  method Create(store: Database, id: Id, group: Id) returns (answer: Answer)
    modifies store
    ensures answer == AnswerOf(Created(old(store.State()), id, group))
    ensures store.State() == After(old(store.State()), Created(old(store.State()), id, group))
  {
    var blocked := RefuseGroup(store, group);
    if blocked.Some? {
      return Refused(blocked.value);
    }
    store.categories := store.categories[id := Category(group, None)];
    answer := Done;
  }

  method Regroup(store: Database, id: Id, group: Id, account: Option<Id>) returns (answer: Answer)
    modifies store
    ensures answer == AnswerOf(Regrouped(old(store.State()), id, group, account))
    ensures store.State() == After(old(store.State()), Regrouped(old(store.State()), id, group, account))
  {
    if id !in store.categories {
      return Refused(UNKNOWN_CATEGORY);
    }
    if account.Some? {
      var blocked := RefusalOfHeld(store, [account.value]);
      if blocked.Some? {
        return Refused(blocked.value);
      }
    }
    var moving := group != store.categories[id].group;
    if moving {
      var blocked := RefuseGroup(store, group);
      if blocked.Some? {
        return Refused(blocked.value);
      }
      store.categories := store.categories[id := store.categories[id].(group := group)];
    }
    answer := Done;
  }

  /** Scans what the categories hold in ascending id order and stops at the first that is not empty. */
  method RefuseWhatStillHoldsMoney(store: Database, ids: set<Id>) returns (refusal: Option<Refusal>)
    ensures refusal == RefusalOfHolding(store.State(), ids)
  {
    var held := store.AvailableOf(ids);
    var order := Sorted(ids);
    for i := 0 to |order|
      invariant forall j | 0 <= j < i :: AvailableAllTime(store.State(), order[j]) == 0
    {
      var c := order[i];
      if held[c] != 0 {
        ghost var holding := StillHolding(store.State(), ids);
        assert Least(holding, c) by {
          forall d | d in holding
            ensures c <= d
          {
            assert d in order;
          }
        }
        return Some(AVAILABLE_NOT_ZERO(c, held[c]));
      }
    }
    assert StillHolding(store.State(), ids) == {};
    refusal := None;
  }

  method Hide(store: Database, id: Id, now: int) returns (answer: Answer)
    modifies store
    ensures answer == AnswerOf(Hidden(old(store.State()), id, now))
    ensures store.State() == After(old(store.State()), Hidden(old(store.State()), id, now))
  {
    if id !in store.categories {
      return Refused(UNKNOWN_CATEGORY);
    }
    if store.categories[id].hiddenAt.Some? {
      return Refused(ALREADY_HIDDEN);
    }
    var blocked := RefuseWhatStillHoldsMoney(store, {id});
    if blocked.Some? {
      return Refused(blocked.value);
    }
    store.categories := store.categories[id := store.categories[id].(hiddenAt := Some(now))];
    answer := Done;
  }

  method Unhide(store: Database, id: Id) returns (answer: Answer)
    modifies store
    ensures answer == AnswerOf(Unhidden(old(store.State()), id))
    ensures store.State() == After(old(store.State()), Unhidden(old(store.State()), id))
  {
    if id !in store.categories {
      return Refused(UNKNOWN_CATEGORY);
    }
    var blocked := RefuseGroup(store, store.categories[id].group);
    if blocked.Some? {
      return Refused(blocked.value);
    }
    store.categories := store.categories[id := store.categories[id].(hiddenAt := None)];
    answer := Done;
  }

  /** Writes one marker to each of these rows, in ascending id order. */
  method Remark(store: Database, ids: set<Id>, hiddenAt: Option<int>)
    requires ids <= store.categories.Keys
    modifies store`categories
    ensures store.categories == Remarked(old(store.categories), ids, hiddenAt)
  {
    var order := Sorted(ids);
    for i := 0 to |order|
      invariant store.categories.Keys == old(store.categories).Keys
      invariant forall c | c in store.categories ::
          store.categories[c] == if c in order[..i] then old(store.categories)[c].(hiddenAt := hiddenAt) else old(store.categories)[c]
    {
      assert order[..i + 1] == order[..i] + [order[i]];
      store.categories := store.categories[order[i] := store.categories[order[i]].(hiddenAt := hiddenAt)];
    }
    assert order[..|order|] == order;
  }

  method HideGroup(store: Database, id: Id, now: int) returns (answer: Answer)
    modifies store
    ensures answer == AnswerOf(GroupHidden(old(store.State()), id, now))
    ensures store.State() == After(old(store.State()), GroupHidden(old(store.State()), id, now))
  {
    if id !in store.groups {
      return Refused(UNKNOWN_GROUP);
    }
    if store.groups[id].hiddenAt.Some? {
      return Refused(ALREADY_HIDDEN);
    }
    var blocked := RefuseWhatStillHoldsMoney(store, Inside(store.categories, id));
    if blocked.Some? {
      return Refused(blocked.value);
    }
    Remark(store, Marked(store.categories, id, None), Some(now));
    store.groups := store.groups[id := Group(Some(now))];
    answer := Done;
  }

  method UnhideGroup(store: Database, id: Id) returns (answer: Answer)
    modifies store
    ensures answer == AnswerOf(GroupUnhidden(old(store.State()), id))
    ensures store.State() == After(old(store.State()), GroupUnhidden(old(store.State()), id))
  {
    if id !in store.groups {
      return Refused(UNKNOWN_GROUP);
    }
    Remark(store, Marked(store.categories, id, store.groups[id].hiddenAt), None);
    store.groups := store.groups[id := Group(None)];
    answer := Done;
  }
}
