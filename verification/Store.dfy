/** The database a mutation writes to, what an operation answers, and the aggregate statements as loops over rows. */
module Store {
  import opened Common
  import opened Ledger
  import opened Sums

  datatype Refusal =
    | ACCOUNT_ARCHIVED
    | ALREADY_HIDDEN
    | AVAILABLE_NOT_ZERO(category: Id, available: int)
    | BALANCE_NOT_ZERO(balance: int)
    | CATEGORY_HIDDEN
    | CATEGORY_REQUIRED
    | DATE_BEFORE_ACCOUNT
    | DATE_IN_FUTURE
    | GROUP_HIDDEN
    | NOT_EDITABLE
    | OPENING_FROZEN
    | SAME_ACCOUNT
    | SAME_ENVELOPE
    | UNKNOWN_ACCOUNT
    | UNKNOWN_CATEGORY
    | UNKNOWN_GROUP
    | UNKNOWN_TRANSACTION
    | UNKNOWN_TRANSFER

  /** The errors the code raises for states it holds to be impossible. */
  datatype Fault = NOT_A_PAIR | NO_OPENING

  datatype Answer = Done | Refused(reason: Refusal) | Broken(fault: Fault)

  /** What an operation does to the tables: a refusal and a fault roll the transaction back. */
  datatype Outcome = Writes(db: Db) | Stops(answer: Answer)

  function AnswerOf(o: Outcome): Answer {
    match o
    case Writes(_) => Done
    case Stops(answer) => answer
  }

  function After(db: Db, o: Outcome): Db {
    match o
    case Writes(after) => after
    case Stops(_) => db
  }

  type Positive = n: int | n > 0 witness 1

  class Database {
    var accounts: map<Id, Account>
    var groups: map<Id, Group>
    var categories: map<Id, Category>
    var txns: map<Id, Txn>
    var assignments: map<Slot, int>

    constructor ()
      ensures State() == EMPTY
    {
      accounts, groups, categories, txns, assignments := map[], map[], map[], map[], map[];
    }

    function State(): Db
      reads this
    {
      Db(accounts, groups, categories, txns, assignments)
    }

    /** One account's balance, summed over its rows. */
    method BalanceOf(account: Id) returns (balance: int)
      ensures balance == Balance(State(), account)
    {
      balance := SumOfTxns(txns, EVERY.(account := Some(account)));
    }

    method HeldBy(category: Id) returns (held: int)
      ensures held == AvailableAllTime(State(), category)
    {
      var laid := SumOfAssignments(assignments, Slots(Some(category), None, None));
      var spent := SumOfTxns(txns, EVERY.(category := Some(Some(category))));
      held := laid + spent;
    }

    /** What each category holds over every month; a category without rows holds nothing. */
    method AvailableOf(ids: set<Id>) returns (held: map<Id, int>)
      ensures held.Keys == ids
      ensures forall c | c in ids :: held[c] == AvailableAllTime(State(), c)
    {
      held := map[];
      var left := ids;
      while left != {}
        invariant left <= ids && held.Keys == ids - left
        invariant forall c | c in held :: held[c] == AvailableAllTime(State(), c)
        decreases left
      {
        var c :| c in left;
        var one := HeldBy(c);
        held := held[c := one];
        left := left - {c};
      }
    }
  }

  method SumOfTxns(rows: map<Id, Txn>, w: Where) returns (total: int)
    ensures total == Total(rows, w)
  {
    total := 0;
    var left := rows;
    SumZero(Column(map[], w));
    while left != map[]
      invariant left.Keys <= rows.Keys
      invariant total + Total(left, w) == Total(rows, w)
      decreases |left.Keys|
    {
      var id :| id in left;
      TotalDrop(left, id, w);
      if Meets(left[id], w) {
        total := total + left[id].amount;
      }
      left := left - {id};
    }
  }

  method SumOfAssignments(rows: map<Slot, int>, s: Slots) returns (total: int)
    ensures total == AssignedTotal(rows, s)
  {
    total := 0;
    var left := rows;
    SumZero(AssignedColumn(map[], s));
    while left != map[]
      invariant left.Keys <= rows.Keys
      invariant total + AssignedTotal(left, s) == AssignedTotal(rows, s)
      decreases |left.Keys|
    {
      var k :| k in left;
      assert AssignedColumn(left - {k}, s) == AssignedColumn(left, s) - {k};
      SumDrop(AssignedColumn(left, s), k);
      if Covers(s, k) {
        total := total + left[k];
      }
      left := left - {k};
    }
  }

  /** Ids in ascending order, which is the order every lock and every row of one operation is taken in. */
  predicate Ascending(ids: seq<Id>) {
    forall i, j | 0 <= i < j < |ids| :: ids[i] < ids[j]
  }

  ghost predicate Least(s: set<Id>, x: Id) {
    x in s && forall y | y in s :: x <= y
  }

  lemma {:induction false} HasLeast(s: set<Id>)
    requires s != {}
    ensures exists x :: Least(s, x)
  {
    var x :| x in s;
    if !Least(s, x) {
      var less :| less in s && less < x;
      var smaller := set y | y in s && y < x;
      assert less in smaller;
      assert x !in smaller && smaller < s;
      HasLeast(smaller);
      var l :| Least(smaller, l);
      forall y | y in s
        ensures l <= y
      {
        assert y < x ==> y in smaller;
      }
      assert Least(s, l);
    }
  }

  method LeastOf(s: set<Id>) returns (least: Id)
    requires s != {}
    ensures Least(s, least)
  {
    least :| least in s;
    var left := s - {least};
    while left != {}
      invariant left <= s && least in s
      invariant forall y | y in s && y !in left :: least <= y
      decreases left
    {
      var y :| y in left;
      if y < least {
        least := y;
      }
      left := left - {y};
    }
  }

  method Sorted(s: set<Id>) returns (ids: seq<Id>)
    ensures Ascending(ids)
    ensures forall x :: x in ids <==> x in s
  {
    ids := [];
    var left := s;
    while left != {}
      invariant left <= s && Ascending(ids)
      invariant forall x :: x in ids <==> x in s - left
      invariant forall i, y | 0 <= i < |ids| && y in left :: ids[i] < y
      decreases left
    {
      var least := LeastOf(left);
      ids := ids + [least];
      left := left - {least};
    }
  }
}
