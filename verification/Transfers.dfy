/** Transfers: a pair of mirrored legs under one identifier, written, changed and removed together. */
module Transfers {
  import opened Common
  import opened Ledger
  import opened Store
  import opened Accounts

  datatype Draft = Draft(from: Id, to: Id, amount: Positive, date: Date)

  datatype Pair = Pair(outgoing: Id, incoming: Id)

  /** The rows carrying one transfer's identifier. */
  function Legs(rows: map<Id, Txn>, transfer: Id): set<Id> {
    set id | id in rows && rows[id].transfer == Some(transfer)
  }

  /** Two legs, one below zero and one above. */
  predicate IsPairOf(rows: map<Id, Txn>, legs: set<Id>, p: Pair) {
    && legs == {p.outgoing, p.incoming}
    && legs <= rows.Keys
    && rows[p.outgoing].amount < 0 < rows[p.incoming].amount
  }

  ghost function PairOf(rows: map<Id, Txn>, legs: set<Id>): Option<Pair> {
    if exists p :: IsPairOf(rows, legs, p) then
      var p :| IsPairOf(rows, legs, p);
      Some(p)
    else None
  }

  lemma PairIsUnique(rows: map<Id, Txn>, legs: set<Id>, p: Pair, q: Pair)
    requires IsPairOf(rows, legs, p) && IsPairOf(rows, legs, q)
    ensures p == q
  {
    assert q.outgoing in legs && q.incoming in legs;
  }

  /** A pair is found just when the rows are these two, the one below zero and the other above. */
  lemma FoundJustWhen(rows: map<Id, Txn>, legs: set<Id>, o: Id, i: Id)
    ensures PairOf(rows, legs) == Some(Pair(o, i)) <==>
              legs == {o, i} && o in rows && i in rows && rows[o].amount < 0 && 0 < rows[i].amount
  {
    if legs == {o, i} && o in rows && i in rows && rows[o].amount < 0 && 0 < rows[i].amount {
      assert IsPairOf(rows, legs, Pair(o, i));
      var p :| IsPairOf(rows, legs, p) && PairOf(rows, legs) == Some(p);
      PairIsUnique(rows, legs, p, Pair(o, i));
    }
  }

  function RefuseTransfer(d: Draft, fromOpened: Date, toOpened: Date, today: Date): Option<Refusal> {
    if d.from == d.to then Some(SAME_ACCOUNT)
    else if Earlier(today, d.date) then Some(DATE_IN_FUTURE)
    else if Earlier(d.date, if Earlier(toOpened, fromOpened) then fromOpened else toOpened) then Some(DATE_BEFORE_ACCOUNT)
    else None
  }

  /** Both ends of the draft, and any account already held, have to be open before the draft itself is judged. */
  function RefuseUnusable(db: Db, d: Draft, alsoHeld: seq<Id>, today: Date): Option<Refusal> {
    match RefusalOfAccounts(db, alsoHeld + [d.from, d.to])
    case Some(reason) => Some(reason)
    case None =>
      assert d.from in alsoHeld + [d.from, d.to] && d.to in alsoHeld + [d.from, d.to];
      RefuseTransfer(d, db.accounts[d.from].openedOn, db.accounts[d.to].openedOn, today)
  }

  function Leg(transfer: Id, account: Id, signed: int, date: Date, createdAt: int): Txn {
    Txn(account, None, date, signed, TRANSFER, Some(transfer), None, false, createdAt)
  }

  function Created(db: Db, transfer: Id, outgoing: Id, incoming: Id, d: Draft, today: Date, at: int): Outcome {
    match RefuseUnusable(db, d, [], today)
    case Some(reason) => Stops(Refused(reason))
    case None =>
      Writes(db.(txns := db.txns[outgoing := Leg(transfer, d.from, -(d.amount as int), d.date, at)]
                                [incoming := Leg(transfer, d.to, d.amount, d.date, at)]))
  }

  function Relegged(t: Txn, account: Id, signed: int, date: Date): Txn {
    t.(account := account, amount := signed, date := date)
  }

  ghost function Updated(db: Db, transfer: Id, d: Draft, today: Date): Outcome {
    var legs := Legs(db.txns, transfer);
    if legs == {} then Stops(Refused(UNKNOWN_TRANSFER))
    else
      match PairOf(db.txns, legs)
      case None => Stops(Broken(NOT_A_PAIR))
      case Some(p) =>
        var o, i := db.txns[p.outgoing], db.txns[p.incoming];
        match RefuseUnusable(db, d, [o.account, i.account], today)
        case Some(reason) => Stops(Refused(reason))
        case None =>
          Writes(db.(txns := db.txns[p.outgoing := Relegged(o, d.from, -(d.amount as int), d.date)]
                                    [p.incoming := Relegged(i, d.to, d.amount, d.date)]))
  }

  ghost function Removed(db: Db, transfer: Id): Outcome {
    var legs := Legs(db.txns, transfer);
    if legs == {} then Stops(Refused(UNKNOWN_TRANSFER))
    else
      match PairOf(db.txns, legs)
      case None => Stops(Broken(NOT_A_PAIR))
      case Some(p) =>
        match RefusalOfAccounts(db, [db.txns[p.outgoing].account, db.txns[p.incoming].account])
        case Some(reason) => Stops(Refused(reason))
        case None => Writes(db.(txns := db.txns - legs))
  }

  // ---- the operations over the database ----

  /** The leg below zero and the leg above it, or nothing when the rows are not a pair. */
  method FindPair(rows: map<Id, Txn>, legs: set<Id>) returns (pair: Option<Pair>)
    requires legs <= rows.Keys
    ensures pair == PairOf(rows, legs)
  {
    var outgoing: Option<Id>, incoming: Option<Id> := None, None;
    var left := legs;
    while left != {}
      invariant left <= legs
      invariant outgoing.Some? ==> outgoing.value in legs && rows[outgoing.value].amount < 0
      invariant incoming.Some? ==> incoming.value in legs && rows[incoming.value].amount > 0
      invariant outgoing.None? ==> forall id | id in legs - left :: rows[id].amount >= 0
      invariant incoming.None? ==> forall id | id in legs - left :: rows[id].amount <= 0
      decreases left
    {
      var id :| id in left;
      if outgoing.None? && rows[id].amount < 0 {
        outgoing := Some(id);
      }
      if incoming.None? && rows[id].amount > 0 {
        incoming := Some(id);
      }
      left := left - {id};
    }
    assert legs - left == legs;
    if |legs| != 2 || outgoing.None? || incoming.None? {
      NotAPair(rows, legs, outgoing, incoming);
      return None;
    }
    var p := Pair(outgoing.value, incoming.value);
    TwoOfTwo(legs, p.outgoing, p.incoming);
    assert IsPairOf(rows, legs, p);
    ghost var q :| IsPairOf(rows, legs, q) && PairOf(rows, legs) == Some(q);
    PairIsUnique(rows, legs, p, q);
    pair := Some(p);
  }

  lemma TwoOfTwo(s: set<Id>, x: Id, y: Id)
    requires |s| == 2 && x in s && y in s && x != y
    ensures s == {x, y}
  {
    assert |s - {x, y}| == 0;
  }

  lemma PairHasBothSides(rows: map<Id, Txn>, legs: set<Id>, p: Pair)
    requires IsPairOf(rows, legs, p)
    ensures |legs| == 2 && p.outgoing in legs && p.incoming in legs
  {
    assert p.outgoing != p.incoming;
  }

  lemma NotAPair(rows: map<Id, Txn>, legs: set<Id>, outgoing: Option<Id>, incoming: Option<Id>)
    requires legs <= rows.Keys
    requires outgoing.None? ==> forall id | id in legs :: rows[id].amount >= 0
    requires incoming.None? ==> forall id | id in legs :: rows[id].amount <= 0
    requires |legs| != 2 || outgoing.None? || incoming.None?
    ensures PairOf(rows, legs) == None
  {
    if p :| IsPairOf(rows, legs, p) {
      PairHasBothSides(rows, legs, p);
      assert false;
    }
  }

  /** The two legs in ascending id order, so two writes of one pair never wait for each other crosswise. */
  function InLegWriteOrder(p: Pair): (order: seq<Id>)
    ensures p.outgoing != p.incoming ==> Ascending(order)
    ensures forall id :: id in order <==> id == p.outgoing || id == p.incoming
  {
    if p.outgoing < p.incoming then [p.outgoing, p.incoming] else [p.incoming, p.outgoing]
  }

  method Create(store: Database, transfer: Id, outgoing: Id, incoming: Id, d: Draft, today: Date, at: int)
    returns (answer: Answer)
    modifies store
    ensures answer == AnswerOf(Created(old(store.State()), transfer, outgoing, incoming, d, today, at))
    ensures store.State() == After(old(store.State()), Created(old(store.State()), transfer, outgoing, incoming, d, today, at))
  {
    var blocked := RefuseWrite(store, d, [], today);
    if blocked.Some? {
      return Refused(blocked.value);
    }
    store.txns := store.txns[outgoing := Leg(transfer, d.from, -(d.amount as int), d.date, at)];
    store.txns := store.txns[incoming := Leg(transfer, d.to, d.amount, d.date, at)];
    answer := Done;
  }

  method RefuseWrite(store: Database, d: Draft, alsoHeld: seq<Id>, today: Date) returns (refusal: Option<Refusal>)
    ensures refusal == RefuseUnusable(store.State(), d, alsoHeld, today)
  {
    refusal := RefusalOfHeld(store, alsoHeld + [d.from, d.to]);
    if refusal.None? {
      assert d.from in alsoHeld + [d.from, d.to] && d.to in alsoHeld + [d.from, d.to];
      refusal := RefuseTransfer(d, store.accounts[d.from].openedOn, store.accounts[d.to].openedOn, today);
    }
  }

  /** Writes the legs one by one in id order; the rows end up as if both had been written at once. */
  method WriteLegs(store: Database, held: Pair, d: Draft)
    requires held.outgoing in store.txns && held.incoming in store.txns && held.outgoing != held.incoming
    modifies store`txns
    ensures store.txns == old(store.txns)[held.outgoing := Relegged(old(store.txns)[held.outgoing], d.from, -(d.amount as int), d.date)]
                                         [held.incoming := Relegged(old(store.txns)[held.incoming], d.to, d.amount, d.date)]
  {
    var wanted: map<Id, (Id, int)> :=
      map[held.outgoing := (d.from, -(d.amount as int)), held.incoming := (d.to, d.amount)];
    var order := InLegWriteOrder(held);
    for i := 0 to |order|
      invariant store.txns.Keys == old(store.txns).Keys
      invariant forall j | 0 <= j < i ::
          store.txns[order[j]] == Relegged(old(store.txns)[order[j]], wanted[order[j]].0, wanted[order[j]].1, d.date)
      invariant forall j | i <= j < |order| :: store.txns[order[j]] == old(store.txns)[order[j]]
      invariant forall id | id in store.txns && id !in wanted :: store.txns[id] == old(store.txns)[id]
    {
      var leg := order[i];
      var (account, signed) := wanted[leg];
      store.txns := store.txns[leg := Relegged(store.txns[leg], account, signed, d.date)];
    }
    assert held.outgoing in order && held.incoming in order;
  }

  /** The rows written back carry the same transfer and are a pair again. */
  lemma LegsStayAPair(before: map<Id, Txn>, after: map<Id, Txn>, transfer: Id, held: Pair, d: Draft)
    requires IsPairOf(before, Legs(before, transfer), held) && held.outgoing != held.incoming
    requires after == before[held.outgoing := Relegged(before[held.outgoing], d.from, -(d.amount as int), d.date)]
                            [held.incoming := Relegged(before[held.incoming], d.to, d.amount, d.date)]
    ensures Legs(after, transfer) == Legs(before, transfer)
    ensures PairOf(after, Legs(after, transfer)) == Some(held)
  {
    assert held.outgoing in Legs(before, transfer) && held.incoming in Legs(before, transfer);
    assert Legs(after, transfer) == Legs(before, transfer);
    assert IsPairOf(after, Legs(after, transfer), held);
    var p :| IsPairOf(after, Legs(after, transfer), p) && PairOf(after, Legs(after, transfer)) == Some(p);
    PairIsUnique(after, Legs(after, transfer), p, held);
  }

  method Update(store: Database, transfer: Id, d: Draft, today: Date) returns (answer: Answer)
    modifies store
    ensures answer == AnswerOf(Updated(old(store.State()), transfer, d, today))
    ensures store.State() == After(old(store.State()), Updated(old(store.State()), transfer, d, today))
  {
    var legs := Legs(store.txns, transfer);
    if legs == {} {
      return Refused(UNKNOWN_TRANSFER);
    }
    var pair := FindPair(store.txns, legs);
    if pair.None? {
      return Broken(NOT_A_PAIR);
    }
    var held := pair.value;
    assert IsPairOf(store.txns, legs, held);
    var blocked := RefuseWrite(store, d, [store.txns[held.outgoing].account, store.txns[held.incoming].account], today);
    if blocked.Some? {
      return Refused(blocked.value);
    }
    WriteLegs(store, held, d);
    LegsStayAPair(old(store.txns), store.txns, transfer, held, d);
    var written := FindPair(store.txns, legs);
    answer := if written.Some? then Done else Broken(NOT_A_PAIR);
  }

  method DropLegs(store: Database, held: Pair)
    modifies store`txns
    ensures store.txns == old(store.txns) - {held.outgoing, held.incoming}
  {
    var order := InLegWriteOrder(held);
    for i := 0 to |order|
      invariant forall id :: id in store.txns <==> id in old(store.txns) && forall j | 0 <= j < i :: order[j] != id
      invariant forall id | id in store.txns :: store.txns[id] == old(store.txns)[id]
    {
      store.txns := store.txns - {order[i]};
    }
    assert held.outgoing in order && held.incoming in order;
  }

  method Remove(store: Database, transfer: Id) returns (answer: Answer)
    modifies store
    ensures answer == AnswerOf(Removed(old(store.State()), transfer))
    ensures store.State() == After(old(store.State()), Removed(old(store.State()), transfer))
  {
    var legs := Legs(store.txns, transfer);
    if legs == {} {
      return Refused(UNKNOWN_TRANSFER);
    }
    var pair := FindPair(store.txns, legs);
    if pair.None? {
      return Broken(NOT_A_PAIR);
    }
    var held := pair.value;
    ghost var before := store.txns;
    assert IsPairOf(before, legs, held);
    var blocked := RefusalOfHeld(store, [store.txns[held.outgoing].account, store.txns[held.incoming].account]);
    if blocked.Some? {
      return Refused(blocked.value);
    }
    DropLegs(store, held);
    answer := Done;
  }
}
