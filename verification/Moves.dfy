/** Moving money between two envelopes of one month, where the pool is an envelope that is stored nowhere. */
module Moves {
  import opened Common
  import opened Ledger
  import opened Store

  datatype Draft = Draft(from: Envelope, to: Envelope, amount: Positive, month: Month)

  datatype CategoryMove = CategoryMove(category: Id, delta: int)

  function SideOf(e: Envelope, delta: int): seq<CategoryMove> {
    if e.None? then [] else [CategoryMove(e.value, delta)]
  }

  /** The category sides in ascending id order; the pool writes no row. */
  function InLockOrder(d: Draft): (moves: seq<CategoryMove>)
    ensures d.from != d.to ==> forall i, j | 0 <= i < j < |moves| :: moves[i].category < moves[j].category
    ensures forall move :: move in moves <==>
        || (d.from == Some(move.category) && move.delta == -(d.amount as int))
        || (d.to == Some(move.category) && move.delta == d.amount)
  {
    if d.from.Some? && d.to.Some? && d.to.value < d.from.value
    then SideOf(d.to, d.amount) + SideOf(d.from, -(d.amount as int))
    else SideOf(d.from, -(d.amount as int)) + SideOf(d.to, d.amount)
  }

  /** The first side, in lock order, that is missing or hidden. */
  function RefusalOfSides(db: Db, moves: seq<CategoryMove>): Option<Refusal> {
    if moves == [] then None
    else if moves[0].category !in db.categories then Some(UNKNOWN_CATEGORY)
    else if db.categories[moves[0].category].hiddenAt.Some? then Some(CATEGORY_HIDDEN)
    else RefusalOfSides(db, moves[1..])
  }

  function Laid(rows: map<Slot, int>, e: Envelope, month: Month, delta: int): map<Slot, int> {
    if e.None? then rows else Upserted(rows, Slot(e.value, month), delta)
  }

  function Moved(db: Db, d: Draft): Outcome {
    if d.from == d.to then Stops(Refused(SAME_ENVELOPE))
    else
      match RefusalOfSides(db, InLockOrder(d))
      case Some(reason) => Stops(Refused(reason))
      case None =>
        Writes(db.(assignments :=
          Laid(Laid(db.assignments, d.from, d.month, -(d.amount as int)), d.to, d.month, d.amount)))
  }

  lemma {:induction false} NoRefusal(db: Db, moves: seq<CategoryMove>)
    ensures RefusalOfSides(db, moves) == None <==>
        forall move | move in moves :: move.category in db.categories && db.categories[move.category].hiddenAt.None?
  {
    if moves != [] {
      NoRefusal(db, moves[1..]);
      assert forall move :: move in moves <==> move == moves[0] || move in moves[1..];
    }
  }

  function LaidInOrder(rows: map<Slot, int>, moves: seq<CategoryMove>, month: Month): map<Slot, int> {
    if moves == [] then rows
    else
      var last := moves[|moves| - 1];
      Upserted(LaidInOrder(rows, moves[..|moves| - 1], month), Slot(last.category, month), last.delta)
  }

  lemma {:induction false} LaidNext(rows: map<Slot, int>, moves: seq<CategoryMove>, i: nat, month: Month)
    requires i < |moves|
    ensures LaidInOrder(rows, moves[..i + 1], month)
         == Upserted(LaidInOrder(rows, moves[..i], month), Slot(moves[i].category, month), moves[i].delta)
  {
    assert moves[..i + 1][..i] == moves[..i];
  }

  lemma {:induction false} LaidOne(rows: map<Slot, int>, x: CategoryMove, month: Month)
    ensures LaidInOrder(rows, [x], month) == Upserted(rows, Slot(x.category, month), x.delta)
  {
    assert [x][..0] == [];
  }

  lemma {:induction false} LaidTwo(rows: map<Slot, int>, x: CategoryMove, y: CategoryMove, month: Month)
    ensures LaidInOrder(rows, [x, y], month)
         == Upserted(Upserted(rows, Slot(x.category, month), x.delta), Slot(y.category, month), y.delta)
  {
    assert [x, y][..1] == [x];
    LaidOne(rows, x, month);
  }

  lemma {:induction false} LaidEitherWay(rows: map<Slot, int>, x: CategoryMove, y: CategoryMove, month: Month)
    requires x.category != y.category
    ensures var both := Upserted(Upserted(rows, Slot(x.category, month), x.delta), Slot(y.category, month), y.delta);
            LaidInOrder(rows, [x, y], month) == both && LaidInOrder(rows, [y, x], month) == both
  {
    LaidTwo(rows, x, y, month);
    LaidTwo(rows, y, x, month);
    UpsertsCommute(rows, Slot(x.category, month), x.delta, Slot(y.category, month), y.delta);
  }

  lemma {:induction false} LaidInAnyOrder(rows: map<Slot, int>, d: Draft)
    requires d.from != d.to
    ensures LaidInOrder(rows, InLockOrder(d), d.month)
         == Laid(Laid(rows, d.from, d.month, -(d.amount as int)), d.to, d.month, d.amount)
  {
    if d.from.Some? && d.to.Some? {
      LaidEitherWay(rows, CategoryMove(d.from.value, -(d.amount as int)), CategoryMove(d.to.value, d.amount), d.month);
    } else if d.from.Some? {
      LaidOne(rows, CategoryMove(d.from.value, -(d.amount as int)), d.month);
      assert InLockOrder(d) == [CategoryMove(d.from.value, -(d.amount as int))];
    } else {
      LaidOne(rows, CategoryMove(d.to.value, d.amount), d.month);
      assert InLockOrder(d) == [CategoryMove(d.to.value, d.amount)];
    }
  }

  lemma UpsertsCommute(rows: map<Slot, int>, a: Slot, x: int, b: Slot, y: int)
    requires a != b
    ensures Upserted(Upserted(rows, a, x), b, y) == Upserted(Upserted(rows, b, y), a, x)
  {
  }

  method RefuseUnusableCategories(store: Database, moves: seq<CategoryMove>) returns (refusal: Option<Refusal>)
    ensures refusal == RefusalOfSides(store.State(), moves)
  {
    for i := 0 to |moves|
      invariant RefusalOfSides(store.State(), moves[i..]) == RefusalOfSides(store.State(), moves)
    {
      var category := moves[i].category;
      assert moves[i..][0] == moves[i] && moves[i..][1..] == moves[i + 1..];
      if category !in store.categories {
        return Some(UNKNOWN_CATEGORY);
      }
      if store.categories[category].hiddenAt.Some? {
        return Some(CATEGORY_HIDDEN);
      }
    }
    refusal := None;
  }

  method Upsert(store: Database, slot: Slot, delta: int)
    modifies store`assignments
    ensures store.assignments == Upserted(old(store.assignments), slot, delta)
  {
    if slot in store.assignments {
      store.assignments := store.assignments[slot := store.assignments[slot] + delta];
    } else {
      store.assignments := store.assignments[slot := delta];
    }
  }

  /** Upserts one row a side, in lock order; the order leaves no trace because the sides name two rows. */
  method WriteSides(store: Database, d: Draft)
    requires d.from != d.to
    modifies store`assignments
    ensures store.assignments ==
        Laid(Laid(old(store.assignments), d.from, d.month, -(d.amount as int)), d.to, d.month, d.amount)
  {
    var moves := InLockOrder(d);
    for i := 0 to |moves|
      invariant store.assignments == LaidInOrder(old(store.assignments), moves[..i], d.month)
    {
      var slot := Slot(moves[i].category, d.month);
      LaidNext(old(store.assignments), moves, i, d.month);
      Upsert(store, slot, moves[i].delta);
    }
    assert moves[..|moves|] == moves;
    LaidInAnyOrder(old(store.assignments), d);
  }

  method Move(store: Database, d: Draft) returns (answer: Answer)
    modifies store
    ensures answer == AnswerOf(Moved(old(store.State()), d))
    ensures store.State() == After(old(store.State()), Moved(old(store.State()), d))
  {
    if d.from == d.to {
      return Refused(SAME_ENVELOPE);
    }
    var blocked := RefuseUnusableCategories(store, InLockOrder(d));
    if blocked.Some? {
      return Refused(blocked.value);
    }
    WriteSides(store, d);
    answer := Done;
  }
}
