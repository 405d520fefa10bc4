/** The order categories are stored in against the order they are shown in, and how a reordering is written. */
module Orders {
  import opened Common

  predicate DistinctIds(ids: seq<Id>) {
    forall i, j | 0 <= i < j < |ids| :: ids[i] != ids[j]
  }

  function Members(ids: seq<Id>): set<Id> {
    set id | id in ids
  }

  // ---- dragging one out of the list and dropping it ----

  function Without(ids: seq<Id>, at: nat): seq<Id>
    requires at < |ids|
  {
    ids[..at] + ids[at + 1..]
  }

  function Put(rest: seq<Id>, at: nat, id: Id): seq<Id>
    requires at <= |rest|
  {
    rest[..at] + [id] + rest[at..]
  }

  /** None when either place lies outside the list. */
  function Reordered(ids: seq<Id>, from: int, to: int): Option<seq<Id>> {
    if from < 0 || to < 0 || from >= |ids| || to >= |ids| then None
    else Some(Put(Without(ids, from), to, ids[from]))
  }

  lemma PutIn(rest: seq<Id>, at: nat, id: Id)
    requires at <= |rest|
    ensures Put(rest, at, id)[at] == id && Without(Put(rest, at, id), at) == rest
    ensures multiset(Put(rest, at, id)) == multiset(rest) + multiset{id}
  {
    assert rest == rest[..at] + rest[at..];
  }

  lemma PutBack(ids: seq<Id>, at: nat)
    requires at < |ids|
    ensures Put(Without(ids, at), at, ids[at]) == ids
  {
    assert Without(ids, at)[..at] == ids[..at] && Without(ids, at)[at..] == ids[at + 1..];
  }

  /** The one dragged stands where it was dropped, all others as they stood to one another, and dragging it back undoes it. */
  lemma ReorderedMovesOne(ids: seq<Id>, from: nat, to: nat)
    requires from < |ids| && to < |ids|
    ensures var moved := Reordered(ids, from, to).value;
            && |moved| == |ids| && moved[to] == ids[from] && Without(moved, to) == Without(ids, from)
            && multiset(moved) == multiset(ids)
            && Reordered(moved, to, from) == Some(ids)
  {
    PutIn(Without(ids, from), to, ids[from]);
    PutBack(ids, from);
    PutIn(Without(ids, from), from, ids[from]);
  }

  // ---- shown and stored ----

  /** Those that are among the paid, or those that are not. */
  function Only(ids: seq<Id>, paid: set<Id>, among: bool): seq<Id> {
    if ids == [] then []
    else
      var front, last := Only(ids[..|ids| - 1], paid, among), ids[|ids| - 1];
      if (last in paid) == among then front + [last] else front
  }

  /** The open ones first, the paid ones under them. */
  function ShownOrder(ids: seq<Id>, paid: set<Id>): seq<Id> {
    Only(ids, paid, false) + Only(ids, paid, true)
  }

  predicate SameSet(stored: seq<Id>, shown: seq<Id>) {
    |stored| == |shown| && |Members(shown)| == |shown| && forall id | id in stored :: id in shown
  }

  /** Each place is given the next of its own kind; where there is none left, it keeps what it held. */
  function FilledAt(stored: seq<Id>, paid: set<Id>, shown: seq<Id>, i: nat): Id
    requires i < |stored|
  {
    var kind := stored[i] in paid;
    var taken, next := Only(shown, paid, kind), |Only(stored[..i], paid, kind)|;
    if next < |taken| then taken[next] else stored[i]
  }

  function Filled(stored: seq<Id>, paid: set<Id>, shown: seq<Id>): (filled: seq<Id>)
    ensures |filled| == |stored|
    ensures forall i | 0 <= i < |stored| :: filled[i] == FilledAt(stored, paid, shown, i)
  {
    seq(|stored|, i requires 0 <= i < |stored| => FilledAt(stored, paid, shown, i))
  }

  /** None when the shown order does not name what is stored. */
  function StoredOrder(stored: seq<Id>, paid: set<Id>, shown: seq<Id>): Option<seq<Id>> {
    if SameSet(stored, shown) then Some(Filled(stored, paid, shown)) else None
  }

  method StoreOrder(stored: seq<Id>, paid: set<Id>, shown: seq<Id>) returns (order: Option<seq<Id>>)
    ensures order == StoredOrder(stored, paid, shown)
  {
    if !SameSet(stored, shown) {
      return None;
    }
    var open, closed := Only(shown, paid, false), Only(shown, paid, true);
    var nextOpen, nextClosed := 0, 0;
    var filled := [];
    for i := 0 to |stored|
      invariant filled == Filled(stored, paid, shown)[..i]
      invariant nextOpen == |Only(stored[..i], paid, false)| && nextClosed == |Only(stored[..i], paid, true)|
    {
      var id := stored[i];
      assert stored[..i + 1][..i] == stored[..i];
      if id in paid {
        filled := filled + [if nextClosed < |closed| then closed[nextClosed] else id];
        nextClosed := nextClosed + 1;
      } else {
        filled := filled + [if nextOpen < |open| then open[nextOpen] else id];
        nextOpen := nextOpen + 1;
      }
    }
    assert Filled(stored, paid, shown)[..|stored|] == Filled(stored, paid, shown);
    order := Some(filled);
  }

  lemma {:induction false} OnlyOfBoth(a: seq<Id>, b: seq<Id>, paid: set<Id>, among: bool)
    ensures Only(a + b, paid, among) == Only(a, paid, among) + Only(b, paid, among)
  {
    if b == [] {
      assert a + b == a;
    } else {
      OnlyOfBoth(a, b[..|b| - 1], paid, among);
      assert (a + b)[..|a + b| - 1] == a + b[..|b| - 1];
    }
  }

  lemma {:induction false} OnlyIsOfItsKind(ids: seq<Id>, paid: set<Id>, among: bool)
    ensures forall id | id in Only(ids, paid, among) :: (id in paid) == among && id in ids
  {
    if ids != [] {
      OnlyIsOfItsKind(ids[..|ids| - 1], paid, among);
    }
  }

  lemma {:induction false} OnlyOfOneKind(ids: seq<Id>, paid: set<Id>, among: bool)
    requires forall id | id in ids :: (id in paid) == among
    ensures Only(ids, paid, among) == ids && Only(ids, paid, !among) == []
  {
    if ids != [] {
      var front := ids[..|ids| - 1];
      OnlyOfOneKind(front, paid, among);
      assert ids == front + [ids[|ids| - 1]];
    }
  }

  /** Sorting the shown ones into their kinds again changes nothing about either kind. */
  lemma {:induction false} OnlyOfShown(ids: seq<Id>, paid: set<Id>, among: bool)
    ensures Only(ShownOrder(ids, paid), paid, among) == Only(ids, paid, among)
  {
    var open, closed := Only(ids, paid, false), Only(ids, paid, true);
    OnlyOfBoth(open, closed, paid, among);
    OnlyIsOfItsKind(ids, paid, false);
    OnlyIsOfItsKind(ids, paid, true);
    OnlyOfOneKind(open, paid, false);
    OnlyOfOneKind(closed, paid, true);
    KindsApart(open, closed, paid, among);
  }

  lemma {:induction false} KindsApart(open: seq<Id>, closed: seq<Id>, paid: set<Id>, among: bool)
    requires Only(open, paid, false) == open && Only(open, paid, true) == []
    requires Only(closed, paid, true) == closed && Only(closed, paid, false) == []
    ensures Only(open, paid, among) + Only(closed, paid, among) == if among then closed else open
  {
    assert [] + closed == closed && open + [] == open;
  }

  lemma {:induction false} KindsAddUp(ids: seq<Id>, paid: set<Id>)
    ensures multiset(Only(ids, paid, false)) + multiset(Only(ids, paid, true)) == multiset(ids)
  {
    if ids != [] {
      KindsAddUp(ids[..|ids| - 1], paid);
      assert ids == ids[..|ids| - 1] + [ids[|ids| - 1]];
    }
  }

  lemma {:induction false} HowManyOnly(ids: seq<Id>, paid: set<Id>, among: bool, id: Id)
    ensures multiset(Only(ids, paid, among))[id] == if (id in paid) == among then multiset(ids)[id] else 0
  {
    if ids != [] {
      HowManyOnly(ids[..|ids| - 1], paid, among, id);
      assert ids == ids[..|ids| - 1] + [ids[|ids| - 1]];
    }
  }

  lemma {:induction false} AsManyOnly(a: seq<Id>, b: seq<Id>, paid: set<Id>, among: bool)
    requires multiset(a) == multiset(b)
    ensures |Only(a, paid, among)| == |Only(b, paid, among)|
  {
    forall id
      ensures multiset(Only(a, paid, among))[id] == multiset(Only(b, paid, among))[id]
    {
      HowManyOnly(a, paid, among, id);
      HowManyOnly(b, paid, among, id);
    }
    assert multiset(Only(a, paid, among)) == multiset(Only(b, paid, among));
    assert |multiset(Only(a, paid, among))| == |multiset(Only(b, paid, among))|;
  }

  lemma {:induction false} AsManyAsMembers(ids: seq<Id>)
    requires DistinctIds(ids)
    ensures |Members(ids)| == |ids|
  {
    if ids != [] {
      var front, last := ids[..|ids| - 1], ids[|ids| - 1];
      AsManyAsMembers(front);
      assert Members(ids) == Members(front) + {last} && last !in front;
    }
  }

  lemma {:induction false} FewerMembers(ids: seq<Id>)
    ensures |Members(ids)| <= |ids|
    ensures |Members(ids)| == |ids| ==> multiset(ids) == multiset(Members(ids))
  {
    if ids != [] {
      var front, last := ids[..|ids| - 1], ids[|ids| - 1];
      FewerMembers(front);
      assert Members(ids) == Members(front) + {last};
      assert ids == front + [last];
    }
  }

  lemma Within(a: set<Id>, b: set<Id>)
    requires a <= b && |a| == |b|
    ensures a == b
  {
    assert b == a + (b - a);
    assert |b| == |a| + |b - a|;
  }

  /** What is stored holds each of its own once, so a shown order that passes the check is a permutation of it. */
  lemma SameSetIsPermutation(stored: seq<Id>, shown: seq<Id>)
    requires DistinctIds(stored) && SameSet(stored, shown)
    ensures multiset(stored) == multiset(shown)
  {
    AsManyAsMembers(stored);
    FewerMembers(stored);
    FewerMembers(shown);
    Within(Members(stored), Members(shown));
  }

  lemma {:induction false} FilledKeepsKind(stored: seq<Id>, paid: set<Id>, shown: seq<Id>, i: nat)
    requires multiset(stored) == multiset(shown) && i < |stored|
    ensures Filled(stored, paid, shown)[i] in paid <==> stored[i] in paid
    ensures var among := stored[i] in paid;
            var next := |Only(stored[..i], paid, among)|;
            next < |Only(shown, paid, among)| && Filled(stored, paid, shown)[i] == Only(shown, paid, among)[next]
  {
    var among := stored[i] in paid;
    AsManyOnly(stored, shown, paid, among);
    OnlyAt(stored, paid, i);
    OnlyIsOfItsKind(shown, paid, among);
    assert Only(shown, paid, among)[|Only(stored[..i], paid, among)|] in Only(shown, paid, among);
  }

  lemma {:induction false} OneMore(ids: seq<Id>, paid: set<Id>, i: nat, among: bool)
    requires i < |ids|
    ensures Only(ids[..i + 1], paid, among) == Only(ids[..i], paid, among) + if (ids[i] in paid) == among then [ids[i]] else []
  {
    assert ids[..i + 1][..i] == ids[..i];
  }

  lemma {:induction false} FilledSoFar(stored: seq<Id>, paid: set<Id>, shown: seq<Id>, i: nat, among: bool)
    requires multiset(stored) == multiset(shown) && i <= |stored|
    ensures |Only(stored[..i], paid, among)| <= |Only(shown, paid, among)|
    ensures Only(Filled(stored, paid, shown)[..i], paid, among) == Only(shown, paid, among)[..|Only(stored[..i], paid, among)|]
  {
    if i > 0 {
      FilledSoFar(stored, paid, shown, i - 1, among);
      OneMore(stored, paid, i - 1, among);
      OneMore(Filled(stored, paid, shown), paid, i - 1, among);
      FilledKeepsKind(stored, paid, shown, i - 1);
      var next := |Only(stored[..i - 1], paid, among)|;
      if (stored[i - 1] in paid) == among {
        Longer(Only(shown, paid, among), next, Filled(stored, paid, shown)[i - 1]);
      }
    }
  }

  lemma Longer(ids: seq<Id>, n: nat, id: Id)
    requires n < |ids| && ids[n] == id
    ensures ids[..n] + [id] == ids[..n + 1]
  {
  }

  /**
   The order written holds what was stored and nothing else, leaves a paid one wherever a paid one stood, and is shown
   as it was dropped.
   */
  lemma StoredShowsAsShown(stored: seq<Id>, paid: set<Id>, shown: seq<Id>)
    requires DistinctIds(stored) && SameSet(stored, shown)
    ensures var order := StoredOrder(stored, paid, shown).value;
            && multiset(order) == multiset(stored)
            && (forall i | 0 <= i < |stored| :: order[i] in paid <==> stored[i] in paid)
            && ShownOrder(order, paid) == ShownOrder(shown, paid)
  {
    SameSetIsPermutation(stored, shown);
    var order := Filled(stored, paid, shown);
    assert order[..|stored|] == order && stored[..|stored|] == stored;
    forall among
      ensures Only(order, paid, among) == Only(shown, paid, among)
    {
      FilledSoFar(stored, paid, shown, |stored|, among);
      AsManyOnly(stored, shown, paid, among);
    }
    KindsAddUp(order, paid);
    KindsAddUp(shown, paid);
    forall i | 0 <= i < |stored|
      ensures order[i] in paid <==> stored[i] in paid
    {
      FilledKeepsKind(stored, paid, shown, i);
    }
  }

  /** A shown list that puts the open ones first comes back exactly. */
  lemma ShownComesBack(stored: seq<Id>, paid: set<Id>, shown: seq<Id>)
    requires DistinctIds(stored) && SameSet(stored, shown)
    ensures ShownOrder(StoredOrder(stored, paid, shown).value, paid) == shown <==> ShownOrder(shown, paid) == shown
  {
    StoredShowsAsShown(stored, paid, shown);
  }

  lemma {:induction false} OnlyAt(ids: seq<Id>, paid: set<Id>, i: nat)
    requires i < |ids|
    ensures var among := ids[i] in paid;
            |Only(ids[..i], paid, among)| < |Only(ids, paid, among)|
            && Only(ids, paid, among)[|Only(ids[..i], paid, among)|] == ids[i]
  {
    var among := ids[i] in paid;
    OneMore(ids, paid, i, among);
    OnlyOfBoth(ids[..i + 1], ids[i + 1..], paid, among);
    assert ids == ids[..i + 1] + ids[i + 1..];
  }

  /** Storing what is shown without having moved anything changes nothing. */
  lemma StoringUnmovedChangesNothing(stored: seq<Id>, paid: set<Id>)
    requires DistinctIds(stored)
    ensures StoredOrder(stored, paid, ShownOrder(stored, paid)) == Some(stored)
  {
    var shown := ShownOrder(stored, paid);
    KindsAddUp(stored, paid);
    assert multiset(shown) == multiset(stored);
    assert |multiset(shown)| == |multiset(stored)|;
    assert forall id :: id in shown <==> id in multiset(shown);
    assert forall id :: id in stored <==> id in multiset(stored);
    assert Members(shown) == Members(stored);
    AsManyAsMembers(stored);
    forall i | 0 <= i < |stored|
      ensures FilledAt(stored, paid, shown, i) == stored[i]
    {
      OnlyOfShown(stored, paid, stored[i] in paid);
      OnlyAt(stored, paid, i);
    }
    assert Filled(stored, paid, shown) == stored;
  }

  predicate Precedes(ids: seq<Id>, x: Id, y: Id) {
    exists p, q | 0 <= p < q < |ids| :: ids[p] == x && ids[q] == y
  }

  lemma PrecedesInMore(front: seq<Id>, back: seq<Id>, x: Id, y: Id)
    ensures Precedes(front, x, y) ==> Precedes(front + back, x, y)
    ensures Precedes(back, x, y) ==> Precedes(front + back, x, y)
    ensures x in front && y in back ==> Precedes(front + back, x, y)
  {
    if Precedes(front, x, y) {
      var p, q :| 0 <= p < q < |front| && front[p] == x && front[q] == y;
      assert (front + back)[p] == x && (front + back)[q] == y;
    }
    if Precedes(back, x, y) {
      var p, q :| 0 <= p < q < |back| && back[p] == x && back[q] == y;
      assert (front + back)[|front| + p] == x && (front + back)[|front| + q] == y;
    }
    if x in front && y in back {
      var p :| 0 <= p < |front| && front[p] == x;
      var q :| 0 <= q < |back| && back[q] == y;
      assert (front + back)[p] == x && (front + back)[|front| + q] == y;
    }
  }

  lemma {:induction false} OnlyKeepsOrder(ids: seq<Id>, paid: set<Id>, among: bool, a: nat, b: nat)
    requires a < b < |ids| && (ids[a] in paid) == among && (ids[b] in paid) == among
    ensures Precedes(Only(ids, paid, among), ids[a], ids[b])
  {
    var front, last := ids[..|ids| - 1], ids[|ids| - 1];
    if b < |front| {
      OnlyKeepsOrder(front, paid, among, a, b);
      PrecedesInMore(Only(front, paid, among), [last], ids[a], ids[b]);
    } else {
      HowManyOnly(front, paid, among, ids[a]);
      assert front[a] == ids[a];
      assert ids[a] in multiset(Only(front, paid, among));
      PrecedesInMore(Only(front, paid, among), [last], ids[a], ids[b]);
    }
  }

  /** What is shown is what is stored, the open ones before the paid, and each kind in the order it is stored in. */
  lemma ShownOpenFirst(ids: seq<Id>, paid: set<Id>, i: nat, j: nat)
    requires i < j < |ids|
    ensures multiset(ShownOrder(ids, paid)) == multiset(ids) && |ShownOrder(ids, paid)| == |ids|
    ensures ShownOrder(ids, paid)[i] in paid ==> ShownOrder(ids, paid)[j] in paid
    ensures (ids[i] in paid) == (ids[j] in paid) ==> Precedes(ShownOrder(ids, paid), ids[i], ids[j])
  {
    var open, closed := Only(ids, paid, false), Only(ids, paid, true);
    KindsAddUp(ids, paid);
    assert |multiset(ShownOrder(ids, paid))| == |multiset(ids)|;
    OnlyIsOfItsKind(ids, paid, false);
    OnlyIsOfItsKind(ids, paid, true);
    assert forall k | 0 <= k < |open| :: open[k] in open;
    assert forall k | 0 <= k < |closed| :: closed[k] in closed;
    if (ids[i] in paid) == (ids[j] in paid) {
      OnlyKeepsOrder(ids, paid, ids[i] in paid, i, j);
      PrecedesInMore(open, closed, ids[i], ids[j]);
    }
  }

  /** A dropped list is taken just when it holds what is stored, each once; a drag just when it stays within the list. */
  lemma DroppedIsTaken(stored: seq<Id>, paid: set<Id>, shown: seq<Id>, from: int, to: int)
    requires DistinctIds(stored)
    ensures StoredOrder(stored, paid, shown).Some? <==> multiset(shown) == multiset(stored)
    ensures Reordered(stored, from, to).Some? <==> 0 <= from < |stored| && 0 <= to < |stored|
  {
    if SameSet(stored, shown) {
      SameSetIsPermutation(stored, shown);
    }
    if multiset(shown) == multiset(stored) {
      assert |multiset(shown)| == |multiset(stored)|;
      assert forall id :: id in shown <==> id in multiset(shown);
      assert forall id :: id in stored <==> id in multiset(stored);
      assert Members(shown) == Members(stored);
      AsManyAsMembers(stored);
    }
  }

  // ---- the order a reordering writes ----

  datatype Row = Row(id: Id, sortOrder: int)

  function KeyOf(r: Row, byId: bool): int {
    if byId then r.id else r.sortOrder
  }

  /** A row goes behind those that do not come after it, so equal ones stay in the order they came in. */
  function Inserted(sorted: seq<Row>, r: Row, byId: bool): seq<Row> {
    if sorted == [] || KeyOf(sorted[|sorted| - 1], byId) <= KeyOf(r, byId) then sorted + [r]
    else Inserted(sorted[..|sorted| - 1], r, byId) + [sorted[|sorted| - 1]]
  }

  function Sorted(rows: seq<Row>, byId: bool): seq<Row> {
    if rows == [] then [] else Inserted(Sorted(rows[..|rows| - 1], byId), rows[|rows| - 1], byId)
  }

  predicate Ordered(rows: seq<Row>, byId: bool) {
    forall i, j | 0 <= i < j < |rows| :: KeyOf(rows[i], byId) <= KeyOf(rows[j], byId)
  }

  function IdsOf(rows: seq<Row>): (ids: seq<Id>)
    ensures |ids| == |rows| && forall i | 0 <= i < |rows| :: ids[i] == rows[i].id
  {
    seq(|rows|, i requires 0 <= i < |rows| => rows[i].id)
  }

  function Unnamed(held: seq<Row>, asked: seq<Id>): seq<Row> {
    if held == [] then []
    else
      var front, last := Unnamed(held[..|held| - 1], asked), held[|held| - 1];
      if last.id in asked then front else front + [last]
  }

  /** The named ones as asked, the rest behind them in the order they had. */
  function WholeOrder(asked: seq<Id>, held: seq<Row>): seq<Id> {
    asked + IdsOf(Sorted(Unnamed(held, asked), false))
  }

  function Numbered(ids: seq<Id>): (rows: seq<Row>)
    ensures |rows| == |ids| && forall i | 0 <= i < |ids| :: rows[i] == Row(ids[i], i)
  {
    seq(|ids|, i requires 0 <= i < |ids| => Row(ids[i], i))
  }

  function InWriteOrder(ids: seq<Id>): seq<Row> {
    Sorted(Numbered(ids), true)
  }

  lemma {:induction false} InsertedIsAdded(sorted: seq<Row>, r: Row, byId: bool)
    ensures multiset(Inserted(sorted, r, byId)) == multiset(sorted) + multiset{r}
    ensures |Inserted(sorted, r, byId)| == |sorted| + 1
  {
    if sorted != [] {
      InsertedIsAdded(sorted[..|sorted| - 1], r, byId);
      assert sorted == sorted[..|sorted| - 1] + [sorted[|sorted| - 1]];
    }
  }

  lemma IdsOfMore(rows: seq<Row>, r: Row)
    ensures IdsOf(rows + [r]) == IdsOf(rows) + [r.id]
  {
  }

  lemma {:induction false} IdIsAdded(sorted: seq<Row>, r: Row, byId: bool)
    ensures multiset(IdsOf(Inserted(sorted, r, byId))) == multiset(IdsOf(sorted)) + multiset{r.id}
  {
    if sorted == [] || KeyOf(sorted[|sorted| - 1], byId) <= KeyOf(r, byId) {
      IdsOfMore(sorted, r);
    } else {
      var front, last := sorted[..|sorted| - 1], sorted[|sorted| - 1];
      IdIsAdded(front, r, byId);
      IdsOfMore(Inserted(front, r, byId), last);
      IdsOfMore(front, last);
      assert sorted == front + [last];
    }
  }

  lemma AppendedKeepsOrder(rows: seq<Row>, last: Row, byId: bool)
    requires Ordered(rows, byId) && forall r | r in rows :: KeyOf(r, byId) <= KeyOf(last, byId)
    ensures Ordered(rows + [last], byId)
  {
  }

  lemma {:induction false} InsertedKeepsOrder(sorted: seq<Row>, r: Row, byId: bool)
    requires Ordered(sorted, byId)
    ensures Ordered(Inserted(sorted, r, byId), byId)
  {
    if sorted == [] || KeyOf(sorted[|sorted| - 1], byId) <= KeyOf(r, byId) {
      AppendedKeepsOrder(sorted, r, byId);
    } else {
      var front, last := sorted[..|sorted| - 1], sorted[|sorted| - 1];
      InsertedKeepsOrder(front, r, byId);
      InsertedIsAdded(front, r, byId);
      forall x | x in Inserted(front, r, byId)
        ensures KeyOf(x, byId) <= KeyOf(last, byId)
      {
        assert x in multiset(Inserted(front, r, byId));
        assert x in front || x == r;
      }
      AppendedKeepsOrder(Inserted(front, r, byId), last, byId);
    }
  }

  lemma {:induction false} SortedIsOrdered(rows: seq<Row>, byId: bool)
    ensures Ordered(Sorted(rows, byId), byId) && multiset(Sorted(rows, byId)) == multiset(rows)
    ensures multiset(IdsOf(Sorted(rows, byId))) == multiset(IdsOf(rows))
  {
    if rows != [] {
      var front, last := rows[..|rows| - 1], rows[|rows| - 1];
      SortedIsOrdered(front, byId);
      InsertedKeepsOrder(Sorted(front, byId), last, byId);
      InsertedIsAdded(Sorted(front, byId), last, byId);
      IdIsAdded(Sorted(front, byId), last, byId);
      IdsOfMore(front, last);
      assert rows == front + [last];
    }
  }

  /** The rows of one key. */
  function Having(rows: seq<Row>, key: int, byId: bool): seq<Row> {
    if rows == [] then []
    else
      var front, last := Having(rows[..|rows| - 1], key, byId), rows[|rows| - 1];
      if KeyOf(last, byId) == key then front + [last] else front
  }

  lemma {:induction false} HavingNone(rows: seq<Row>, key: int, byId: bool)
    requires forall r | r in rows :: KeyOf(r, byId) != key
    ensures Having(rows, key, byId) == []
  {
    if rows != [] {
      HavingNone(rows[..|rows| - 1], key, byId);
    }
  }

  lemma {:induction false} InsertedBehindItsEquals(sorted: seq<Row>, r: Row, key: int, byId: bool)
    requires Ordered(sorted, byId)
    ensures Having(Inserted(sorted, r, byId), key, byId)
         == Having(sorted, key, byId) + (if KeyOf(r, byId) == key then [r] else [])
  {
    if sorted == [] || KeyOf(sorted[|sorted| - 1], byId) <= KeyOf(r, byId) {
      assert (sorted + [r])[..|sorted|] == sorted;
    } else {
      var front, last := sorted[..|sorted| - 1], sorted[|sorted| - 1];
      InsertedBehindItsEquals(front, r, key, byId);
      InsertedIsAdded(front, r, byId);
      assert Inserted(sorted, r, byId)[..|sorted|] == Inserted(front, r, byId);
    }
  }

  /** Rows that compare equal stay in the order they were read in. */
  lemma {:induction false} SortedIsStable(rows: seq<Row>, key: int, byId: bool)
    ensures Having(Sorted(rows, byId), key, byId) == Having(rows, key, byId)
  {
    if rows != [] {
      var front, last := rows[..|rows| - 1], rows[|rows| - 1];
      SortedIsStable(front, key, byId);
      SortedIsOrdered(front, byId);
      InsertedBehindItsEquals(Sorted(front, byId), last, key, byId);
    }
  }

  lemma {:induction false} NamedAndUnnamed(held: seq<Row>, asked: seq<Id>, id: Id)
    ensures multiset(IdsOf(Unnamed(held, asked)))[id] == if id in asked then 0 else multiset(IdsOf(held))[id]
  {
    if held != [] {
      var front, last := held[..|held| - 1], held[|held| - 1];
      NamedAndUnnamed(front, asked, id);
      assert IdsOf(held) == IdsOf(front) + [last.id];
      assert IdsOf(Unnamed(front, asked) + [last]) == IdsOf(Unnamed(front, asked)) + [last.id];
    } else {
      assert IdsOf(held) == [];
    }
  }

  /** What a reordering may name: held ones, each once. */
  predicate Usable(asked: seq<Id>, held: seq<Row>) {
    DistinctIds(asked) && forall id | id in asked :: id in IdsOf(held)
  }

  lemma {:induction false} OnceEach(ids: seq<Id>, id: Id)
    requires DistinctIds(ids)
    ensures multiset(ids)[id] == if id in ids then 1 else 0
  {
    if ids != [] {
      var front, last := ids[..|ids| - 1], ids[|ids| - 1];
      OnceEach(front, id);
      assert ids == front + [last];
    }
  }

  lemma {:induction false} OnceEachIsDistinct(ids: seq<Id>)
    requires forall id :: multiset(ids)[id] <= 1
    ensures DistinctIds(ids)
  {
    forall i, j | 0 <= i < j < |ids|
      ensures ids[i] != ids[j]
    {
      assert ids == ids[..j] + [ids[j]] + ids[j + 1..];
      assert multiset(ids)[ids[j]] == multiset(ids[..j])[ids[j]] + 1 + multiset(ids[j + 1..])[ids[j]];
      assert ids[..j][i] in multiset(ids[..j]);
    }
  }

  /** The whole order is a permutation of what is held, the rest standing in the order it had. */
  lemma {:induction false} WholeOrderIsWhole(asked: seq<Id>, held: seq<Row>)
    requires Usable(asked, held) && DistinctIds(IdsOf(held))
    ensures multiset(WholeOrder(asked, held)) == multiset(IdsOf(held)) && DistinctIds(WholeOrder(asked, held))
    ensures asked <= WholeOrder(asked, held) && Ordered(Sorted(Unnamed(held, asked), false), false)
  {
    var rest := Unnamed(held, asked);
    SortedIsOrdered(rest, false);
    forall id
      ensures multiset(WholeOrder(asked, held))[id] == multiset(IdsOf(held))[id] <= 1
    {
      NamedAndUnnamed(held, asked, id);
      OnceEach(asked, id);
      OnceEach(IdsOf(held), id);
    }
    OnceEachIsDistinct(WholeOrder(asked, held));
  }

  // ---- the rest keep their order ----

  predicate Before(rows: seq<Row>, x: Row, y: Row) {
    exists p, q | 0 <= p < q < |rows| :: rows[p] == x && rows[q] == y
  }

  lemma BeforeInMore(front: seq<Row>, last: Row, x: Row, y: Row)
    ensures Before(front, x, y) ==> Before(front + [last], x, y)
    ensures x in front && y == last ==> Before(front + [last], x, y)
  {
    if Before(front, x, y) {
      var p, q :| 0 <= p < q < |front| && front[p] == x && front[q] == y;
      assert (front + [last])[p] == x && (front + [last])[q] == y;
    }
    if x in front && y == last {
      var p :| 0 <= p < |front| && front[p] == x;
      assert (front + [last])[p] == x && (front + [last])[|front|] == y;
    }
  }

  lemma {:induction false} InsertedKeepsBefore(sorted: seq<Row>, r: Row, byId: bool, x: Row, y: Row)
    requires Before(sorted, x, y)
    ensures Before(Inserted(sorted, r, byId), x, y)
  {
    if KeyOf(sorted[|sorted| - 1], byId) <= KeyOf(r, byId) {
      BeforeInMore(sorted, r, x, y);
    } else {
      var front, last := sorted[..|sorted| - 1], sorted[|sorted| - 1];
      var p, q :| 0 <= p < q < |sorted| && sorted[p] == x && sorted[q] == y;
      InsertedIsAdded(front, r, byId);
      assert front[p] == x;
      assert x in multiset(Inserted(front, r, byId));
      if q < |front| {
        assert front[q] == y;
        InsertedKeepsBefore(front, r, byId, x, y);
      }
      BeforeInMore(Inserted(front, r, byId), last, x, y);
    }
  }

  lemma {:induction false} InsertedBehind(sorted: seq<Row>, r: Row, byId: bool, x: Row)
    requires Ordered(sorted, byId) && x in sorted && KeyOf(x, byId) <= KeyOf(r, byId)
    ensures Before(Inserted(sorted, r, byId), x, r)
  {
    if KeyOf(sorted[|sorted| - 1], byId) <= KeyOf(r, byId) {
      BeforeInMore(sorted, r, x, r);
    } else {
      var front, last := sorted[..|sorted| - 1], sorted[|sorted| - 1];
      assert sorted == front + [last];
      InsertedBehind(front, r, byId, x);
      BeforeInMore(Inserted(front, r, byId), last, x, r);
    }
  }

  lemma {:induction false} InsertedAhead(sorted: seq<Row>, r: Row, byId: bool, y: Row)
    requires Ordered(sorted, byId) && y in sorted && KeyOf(r, byId) < KeyOf(y, byId)
    ensures Before(Inserted(sorted, r, byId), r, y)
  {
    var front, last := sorted[..|sorted| - 1], sorted[|sorted| - 1];
    assert sorted == front + [last];
    InsertedIsAdded(front, r, byId);
    assert r in multiset(Inserted(front, r, byId));
    if y in front {
      InsertedAhead(front, r, byId, y);
    }
    BeforeInMore(Inserted(front, r, byId), last, r, y);
  }

  lemma {:induction false} LastComesBehind(front: seq<Row>, last: Row, byId: bool, x: Row)
    requires x in front && KeyOf(x, byId) <= KeyOf(last, byId)
    ensures Before(Inserted(Sorted(front, byId), last, byId), x, last)
  {
    SortedIsOrdered(front, byId);
    assert x in multiset(Sorted(front, byId));
    InsertedBehind(Sorted(front, byId), last, byId, x);
  }

  lemma {:induction false} LastComesAhead(front: seq<Row>, last: Row, byId: bool, y: Row)
    requires y in front && KeyOf(last, byId) < KeyOf(y, byId)
    ensures Before(Inserted(Sorted(front, byId), last, byId), last, y)
  {
    SortedIsOrdered(front, byId);
    assert y in multiset(Sorted(front, byId));
    InsertedAhead(Sorted(front, byId), last, byId, y);
  }

  /** A row of a smaller key, or of the same key and read earlier, comes earlier. */
  lemma {:induction false} SortedKeepsBefore(rows: seq<Row>, byId: bool, i: nat, j: nat)
    requires i < |rows| && j < |rows|
    requires KeyOf(rows[i], byId) < KeyOf(rows[j], byId) || (KeyOf(rows[i], byId) == KeyOf(rows[j], byId) && i < j)
    ensures Before(Sorted(rows, byId), rows[i], rows[j])
  {
    var front, last := rows[..|rows| - 1], rows[|rows| - 1];
    if i < |front| && j < |front| {
      SortedKeepsBefore(front, byId, i, j);
      InsertedKeepsBefore(Sorted(front, byId), last, byId, rows[i], rows[j]);
    } else if i < |front| {
      assert front[i] == rows[i];
      LastComesBehind(front, last, byId, rows[i]);
    } else {
      assert front[j] == rows[j];
      LastComesAhead(front, last, byId, rows[j]);
    }
  }

  lemma {:induction false} UnnamedKeepsBefore(held: seq<Row>, asked: seq<Id>, i: nat) returns (k: nat)
    requires i < |held| && held[i].id !in asked
    ensures k < |Unnamed(held, asked)| && Unnamed(held, asked)[k] == held[i] && k == |Unnamed(held[..i], asked)|
  {
    var front := held[..|held| - 1];
    if i < |front| {
      k := UnnamedKeepsBefore(front, asked, i);
      assert front[..i] == held[..i];
    } else {
      k := |Unnamed(front, asked)|;
      assert held[..i] == front;
    }
  }

  lemma {:induction false} UnnamedGrows(held: seq<Row>, asked: seq<Id>, i: nat, j: nat)
    requires i < j <= |held| && held[i].id !in asked
    ensures |Unnamed(held[..i], asked)| < |Unnamed(held[..j], asked)|
    decreases j
  {
    assert held[..j][..j - 1] == held[..j - 1];
    if i < j - 1 {
      UnnamedGrows(held, asked, i, j - 1);
    }
  }

  /**
   Of two rows a reordering does not name, the one of the smaller place, or of the same place and read earlier, stands
   earlier in the whole order.
   */
  lemma UnnamedKeepTheirOrder(asked: seq<Id>, held: seq<Row>, i: nat, j: nat)
    requires i < |held| && j < |held| && held[i].id !in asked && held[j].id !in asked
    requires held[i].sortOrder < held[j].sortOrder || (held[i].sortOrder == held[j].sortOrder && i < j)
    ensures var whole := WholeOrder(asked, held);
            exists p, q | |asked| <= p < q < |whole| :: whole[p] == held[i].id && whole[q] == held[j].id
  {
    var rest, whole := Unnamed(held, asked), WholeOrder(asked, held);
    var a := UnnamedKeepsBefore(held, asked, i);
    var b := UnnamedKeepsBefore(held, asked, j);
    if i < j {
      UnnamedGrows(held, asked, i, j);
    }
    SortedKeepsBefore(rest, false, a, b);
    var sorted := Sorted(rest, false);
    var p, q :| 0 <= p < q < |sorted| && sorted[p] == held[i] && sorted[q] == held[j];
    assert whole[|asked| + p] == held[i].id && whole[|asked| + q] == held[j].id;
  }

  lemma WrittenOnce(ids: seq<Id>, i: nat, j: nat)
    requires DistinctIds(ids) && i < j < |InWriteOrder(ids)| == |ids|
    requires forall r :: r in InWriteOrder(ids) <==> 0 <= r.sortOrder < |ids| && ids[r.sortOrder] == r.id
    ensures InWriteOrder(ids)[i].id != InWriteOrder(ids)[j].id
  {
    var writes := InWriteOrder(ids);
    var x, y := writes[i], writes[j];
    assert x in writes && y in writes;
    if x.id == y.id {
      assert x == y;
      assert writes == writes[..j] + [y] + writes[j + 1..];
      assert writes[..j][i] in multiset(writes[..j]);
      NumberedOnce(ids, y);
      SortedIsOrdered(Numbered(ids), true);
    }
  }

  /** The writes name the ids in strictly ascending order, each with its place in the order, and every place once. */
  lemma WritesAreDense(ids: seq<Id>)
    requires DistinctIds(ids)
    ensures var writes := InWriteOrder(ids);
            && |writes| == |ids|
            && (forall i, j | 0 <= i < j < |writes| :: writes[i].id < writes[j].id)
            && (forall r :: r in writes <==> 0 <= r.sortOrder < |ids| && ids[r.sortOrder] == r.id)
  {
    var rows, writes := Numbered(ids), InWriteOrder(ids);
    SortedIsOrdered(rows, true);
    assert |multiset(writes)| == |multiset(rows)|;
    forall r
      ensures r in writes <==> 0 <= r.sortOrder < |ids| && ids[r.sortOrder] == r.id
    {
      assert r in writes <==> r in multiset(rows);
      if 0 <= r.sortOrder < |ids| && ids[r.sortOrder] == r.id {
        assert rows[r.sortOrder] == r;
      }
    }
    forall i, j | 0 <= i < j < |writes|
      ensures writes[i].id < writes[j].id
    {
      WrittenOnce(ids, i, j);
      assert KeyOf(writes[i], true) <= KeyOf(writes[j], true);
    }
  }

  lemma {:induction false} NumberedOnce(ids: seq<Id>, r: Row)
    ensures multiset(Numbered(ids))[r] <= 1
    ensures r in Numbered(ids) ==> r.sortOrder < |ids|
  {
    if ids == [] {
      assert Numbered(ids) == [];
    } else {
      var front := ids[..|ids| - 1];
      NumberedOnce(front, r);
      assert Numbered(ids) == Numbered(front) + [Row(ids[|ids| - 1], |ids| - 1)];
    }
  }

  // ---- the reordering over the table ----

  function Placed(places: map<Id, int>, writes: seq<Row>): map<Id, int> {
    if writes == [] then places
    else
      var last := writes[|writes| - 1];
      Placed(places, writes[..|writes| - 1])[last.id := last.sortOrder]
  }

  class Rows {
    var sortOrder: map<Id, int>

    /** Writes the places one row at a time; None when it names a row twice or one not held. */
    method Reorder(asked: seq<Id>, held: seq<Row>) returns (order: Option<seq<Id>>)
      modifies this
      ensures order == if Usable(asked, held) then Some(WholeOrder(asked, held)) else None
      ensures sortOrder == if order.None? then old(sortOrder) else Placed(old(sortOrder), InWriteOrder(order.value))
    {
      if !Usable(asked, held) {
        return None;
      }
      var whole := WholeOrder(asked, held);
      var writes := InWriteOrder(whole);
      for k := 0 to |writes|
        invariant sortOrder == Placed(old(sortOrder), writes[..k])
      {
        assert writes[..k + 1][..k] == writes[..k];
        sortOrder := sortOrder[writes[k].id := writes[k].sortOrder];
      }
      assert writes[..|writes|] == writes;
      order := Some(whole);
    }
  }

  lemma {:induction false} PlacedAt(places: map<Id, int>, writes: seq<Row>, id: Id)
    requires forall i, j | 0 <= i < j < |writes| :: writes[i].id != writes[j].id
    ensures id in Placed(places, writes) <==> id in places || id in IdsOf(writes)
    ensures forall r | r in writes && r.id == id :: Placed(places, writes)[id] == r.sortOrder
    ensures id in places && id !in IdsOf(writes) ==> Placed(places, writes)[id] == places[id]
  {
    if writes != [] {
      var front, last := writes[..|writes| - 1], writes[|writes| - 1];
      PlacedAt(places, front, id);
      assert IdsOf(writes) == IdsOf(front) + [last.id];
      assert id in IdsOf(writes) <==> id in IdsOf(front) || id == last.id;
    }
  }

  /** After a reordering the place of every id is its place in the order, and no other id has moved. */
  lemma {:induction false} ReorderingPlacesAll(places: map<Id, int>, ids: seq<Id>, id: Id)
    requires DistinctIds(ids)
    ensures var after := Placed(places, InWriteOrder(ids));
            && (id in after <==> id in places || id in ids)
            && (forall i | 0 <= i < |ids| && ids[i] == id :: after[id] == i)
            && (id in places && id !in ids ==> after[id] == places[id])
  {
    var writes := InWriteOrder(ids);
    WritesAreDense(ids);
    PlacedAt(places, writes, id);
    SortedIsOrdered(Numbered(ids), true);
    assert IdsOf(Numbered(ids)) == ids;
    assert id in IdsOf(writes) <==> id in multiset(ids);
    forall i | 0 <= i < |ids| && ids[i] == id
      ensures Placed(places, writes)[id] == i
    {
      assert Row(id, i) in writes;
    }
  }

  // ---- the view before the answer is there ----

  /** The held ones in the order asked for, unless some of them would be lost by it. */
  function Rearranged(held: seq<Id>, asked: seq<Id>): seq<Id> {
    var moved := Only(asked, Members(held), true);
    if |moved| == |held| then moved else held
  }

  /** An order that names each held one once is taken as it is; one that leaves some out is not taken at all. */
  lemma RearrangedLosesNone(held: seq<Id>, asked: seq<Id>)
    requires DistinctIds(held) && DistinctIds(asked)
    ensures multiset(Rearranged(held, asked)) == multiset(held)
    ensures multiset(asked) == multiset(held) ==> Rearranged(held, asked) == asked
    ensures (exists id | id in held :: id !in asked) ==> Rearranged(held, asked) == held
  {
    var moved := Only(asked, Members(held), true);
    OnlyIsOfItsKind(asked, Members(held), true);
    forall id
      ensures multiset(moved)[id] <= 1
    {
      HowManyOnly(asked, Members(held), true, id);
      OnceEach(asked, id);
    }
    OnceEachIsDistinct(moved);
    AsManyAsMembers(moved);
    AsManyAsMembers(held);
    FewerMembers(moved);
    FewerMembers(held);
    if |moved| == |held| {
      Within(Members(moved), Members(held));
      assert forall id | id in held :: id in Members(moved);
    }
    if multiset(asked) == multiset(held) {
      assert |multiset(asked)| == |multiset(held)|;
      forall id | id in asked
        ensures id in Members(held)
      {
        assert id in multiset(asked);
      }
      OnlyOfOneKind(asked, Members(held), true);
    }
  }

  predicate NamesHeld(asked: seq<Id>, held: seq<Row>, i: nat)
    requires i < |asked|
  {
    exists k | 0 <= k < |held| :: held[k].id == asked[i]
  }

  lemma HeldAreNamed(asked: seq<Id>, held: seq<Row>, i: nat)
    requires i < |asked|
    ensures asked[i] in IdsOf(held) <==> NamesHeld(asked, held, i)
  {
    var ids := IdsOf(held);
    if asked[i] in ids {
      var k :| 0 <= k < |ids| && ids[k] == asked[i];
      assert held[k].id == asked[i];
    }
    if NamesHeld(asked, held, i) {
      var k :| 0 <= k < |held| && held[k].id == asked[i];
      assert ids[k] == asked[i];
    }
  }

  /** A reordering is taken just when it names rows that are held, none of them twice. */
  lemma ReorderingIsTaken(asked: seq<Id>, held: seq<Row>)
    ensures Usable(asked, held) <==>
              && (forall i | 0 <= i < |asked| :: NamesHeld(asked, held, i))
              && (forall i, j | 0 <= i < j < |asked| :: asked[i] != asked[j])
  {
    forall i | 0 <= i < |asked|
      ensures asked[i] in IdsOf(held) <==> NamesHeld(asked, held, i)
    {
      HeldAreNamed(asked, held, i);
    }
    assert Usable(asked, held) ==> forall i | 0 <= i < |asked| :: asked[i] in IdsOf(held);
  }
}
