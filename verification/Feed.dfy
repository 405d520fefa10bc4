/** The feed of records: pages cut by a cursor, the totals of whole days, and the days they are shown under. */
module Feed {
  import opened Common
  import opened Ledger
  import opened Sums
  import opened Runs
  import opened Soundness
  import Transfers

  /** What places a record in the feed; all else it shows is found under its id. A cursor is one of these too. */
  datatype Record = Record(date: Date, createdAt: int, id: Id)

  datatype Query = Query(
    account: Option<Id>,
    category: Option<Id>,
    payee: Option<string>,
    kind: Option<TxnKind>,
    from: Option<Date>,
    to: Option<Date>)

  /** Without an account asked for, only the records of open ones are listed. */
  predicate Matches(db: Db, t: Txn, q: Query) {
    && (if q.account.Some? then t.account == q.account.value else Open(db, t.account))
    && (q.category.Some? ==> t.category == q.category)
    && (q.payee.Some? ==> t.payee == q.payee)
    && (q.kind.Some? ==> t.kind == q.kind.value)
    && (q.from.Some? ==> !Earlier(t.date, q.from.value))
    && (q.to.Some? ==> !Earlier(q.to.value, t.date))
  }

  function RecordOf(rows: map<Id, Txn>, id: Id): Record
    requires id in rows
  {
    Record(rows[id].date, rows[id].createdAt, id)
  }

  function Matching(db: Db, q: Query): set<Record> {
    set id | id in db.txns && Matches(db, db.txns[id], q) :: RecordOf(db.txns, id)
  }

  /** The condition the cursor turns into. */
  predicate Older(r: Record, cursor: Record) {
    && !Earlier(cursor.date, r.date)
    && (|| Earlier(r.date, cursor.date)
        || (r.date == cursor.date && r.createdAt < cursor.createdAt)
        || (r.date == cursor.date && r.createdAt == cursor.createdAt && r.id < cursor.id))
  }

  // ---- ORDER BY date DESC, created_at DESC, id DESC ----

  predicate Newest(s: set<Record>, r: Record) {
    r in s && forall o | o in s && o != r :: Older(o, r)
  }

  lemma {:induction false} HasNewest(s: set<Record>)
    requires s != {}
    ensures exists r :: Newest(s, r)
  {
    var x :| x in s;
    if s == {x} {
      assert Newest(s, x);
    } else {
      var rest := s - {x};
      assert rest != {};
      HasNewest(rest);
      var r :| Newest(rest, r);
      if Older(x, r) {
        assert Newest(s, r);
      } else {
        assert Older(r, x);
        forall o | o in s && o != x
          ensures Older(o, x)
        {
          assert o == r || Older(o, r);
        }
        assert Newest(s, x);
      }
    }
  }

  ghost function NewestFirst(s: set<Record>): seq<Record>
    decreases |s|
  {
    if s == {} then []
    else
      HasNewest(s);
      var r :| Newest(s, r);
      [r] + NewestFirst(s - {r})
  }

  predicate Descending(rs: seq<Record>) {
    forall i, j | 0 <= i < j < |rs| :: Older(rs[j], rs[i])
  }

  lemma NewestComesFirst(s: set<Record>) returns (r: Record)
    requires s != {}
    ensures Newest(s, r) && NewestFirst(s) == [r] + NewestFirst(s - {r})
  {
    HasNewest(s);
    r :| Newest(s, r) && NewestFirst(s) == [r] + NewestFirst(s - {r});
  }

  lemma DescendsFrom(s: set<Record>, r: Record, rest: seq<Record>)
    requires Newest(s, r) && Descending(rest) && forall o :: o in rest <==> o in s - {r}
    ensures Descending([r] + rest) && forall o :: o in [r] + rest <==> o in s
  {
    assert forall i | 0 <= i < |rest| :: rest[i] in rest;
  }

  lemma {:induction false} NewestFirstDescends(s: set<Record>)
    ensures Descending(NewestFirst(s))
    ensures forall r :: r in NewestFirst(s) <==> r in s
    ensures |NewestFirst(s)| == |s|
    decreases |s|
  {
    if s != {} {
      var r := NewestComesFirst(s);
      NewestFirstDescends(s - {r});
      DescendsFrom(s, r, NewestFirst(s - {r}));
    }
  }

  lemma HasOne(rs: seq<Record>)
    requires rs != []
    ensures exists r :: r in rs
  {
    assert rs[0] in rs;
  }

  lemma Nothing(rs: seq<Record>)
    requires forall r :: r !in rs
    ensures rs == []
  {
    if rs != [] {
      HasOne(rs);
    }
  }

  /** There is one way to list a set in that order. */
  lemma {:induction false} OneDescent(a: seq<Record>, b: seq<Record>)
    requires Descending(a) && Descending(b) && forall r :: r in a <==> r in b
    ensures a == b
  {
    if a == [] {
      Nothing(b);
    } else {
      assert a[0] in b;
      assert b != [] && b[0] in a;
      assert a[0] == b[0];
      forall r
        ensures r in a[1..] <==> r in b[1..]
      {
        assert r in a <==> r == a[0] || r in a[1..];
        assert r in b <==> r == b[0] || r in b[1..];
      }
      OneDescent(a[1..], b[1..]);
    }
  }

  // ---- pages ----

  datatype Day = Day(date: Date, total: int)

  datatype Page = Page(records: seq<Record>, days: seq<Day>, next: Option<Record>)

  function Wanted(db: Db, q: Query, cursor: Option<Record>): set<Record> {
    set r | r in Matching(db, q) && (cursor.Some? ==> Older(r, cursor.value))
  }

  function Take<T>(s: seq<T>, n: nat): seq<T> {
    if |s| <= n then s else s[..n]
  }

  /** The amounts a query adds up for one day. */
  ghost function DayColumn(db: Db, q: Query, date: Date): map<Id, int> {
    map id | id in db.txns :: if Matches(db, db.txns[id], q) && db.txns[id].date == date then db.txns[id].amount else 0
  }

  ghost function DayTotal(db: Db, q: Query, date: Date): int {
    Sum(DayColumn(db, q, date))
  }

  function Mark(date: Date): Record {
    Record(date, 0, 0)
  }

  ghost function LatestFirst(dates: set<Date>): seq<Date> {
    var marks := NewestFirst(set d | d in dates :: Mark(d));
    seq(|marks|, i requires 0 <= i < |marks| => marks[i].date)
  }

  function Between(q: Query, last: Date, first: Date): Query {
    q.(from := Some(last), to := Some(first))
  }

  /** One total a day between the last record of the page and the first; that range takes the place of the one asked for. */
  ghost function TotalsOf(db: Db, page: seq<Record>, q: Query): seq<Day> {
    if page == [] then []
    else
      var range := Between(q, page[|page| - 1].date, page[0].date);
      var dates := LatestFirst(set r | r in Matching(db, range) :: r.date);
      seq(|dates|, i requires 0 <= i < |dates| => Day(dates[i], DayTotal(db, range, dates[i])))
  }

  /** One more record than the page holds is read, only to know whether another page follows. */
  ghost function List(db: Db, q: Query, cursor: Option<Record>, limit: nat): Page
    requires limit > 0
  {
    var found := Take(NewestFirst(Wanted(db, q, cursor)), limit + 1);
    var page := Take(found, limit);
    Page(page, TotalsOf(db, page, q), if |found| > limit then Some(page[|page| - 1]) else None)
  }

  /** What is left to read behind the last record of a page is the rest of the same list. */
  lemma RestOfTheList(db: Db, q: Query, cursor: Option<Record>, k: nat)
    requires 0 < k <= |NewestFirst(Wanted(db, q, cursor))|
    ensures var all := NewestFirst(Wanted(db, q, cursor));
            NewestFirst(Wanted(db, q, Some(all[k - 1]))) == all[k..]
  {
    var all := NewestFirst(Wanted(db, q, cursor));
    var rest := Wanted(db, q, Some(all[k - 1]));
    NewestFirstDescends(Wanted(db, q, cursor));
    NewestFirstDescends(rest);
    assert all[k - 1] in Wanted(db, q, cursor);
    forall r
      ensures r in all[k..] <==> r in rest
    {
      BehindIsOlder(all, k, r);
      assert r in rest <==> r in Wanted(db, q, cursor) && Older(r, all[k - 1]);
    }
    OneDescent(all[k..], NewestFirst(rest));
  }

  lemma BehindIsOlder(all: seq<Record>, k: nat, r: Record)
    requires Descending(all) && 0 < k <= |all|
    ensures r in all[k..] <==> r in all && Older(r, all[k - 1])
  {
    if r in all && Older(r, all[k - 1]) {
      var i :| 0 <= i < |all| && all[i] == r;
      assert i >= k;
      assert all[k..][i - k] == r;
    }
  }

  lemma FirstPage(db: Db, q: Query, cursor: Option<Record>, limit: nat)
    requires limit > 0
    ensures var all, page := NewestFirst(Wanted(db, q, cursor)), List(db, q, cursor, limit);
            && page.records == Take(all, limit)
            && page.next == if |all| <= limit then None else Some(all[limit - 1])
  {
  }

  lemma FewerLeft(db: Db, q: Query, cursor: Option<Record>, limit: nat)
    requires limit > 0 && List(db, q, cursor, limit).next.Some?
    ensures |Wanted(db, q, List(db, q, cursor, limit).next)| < |Wanted(db, q, cursor)|
  {
    RestOfTheList(db, q, cursor, limit);
    NewestFirstDescends(Wanted(db, q, cursor));
    NewestFirstDescends(Wanted(db, q, List(db, q, cursor, limit).next));
  }

  /** Reading page after page, each from the cursor of the one before, until none is given. */
  ghost function Pages(db: Db, q: Query, cursor: Option<Record>, limit: nat): (pages: seq<Page>)
    requires limit > 0
    ensures pages != []
    decreases |Wanted(db, q, cursor)|
  {
    var page := List(db, q, cursor, limit);
    if page.next.None? then [page]
    else
      FewerLeft(db, q, cursor, limit);
      [page] + Pages(db, q, page.next, limit)
  }

  function RecordsOf(pages: seq<Page>): seq<Record> {
    if pages == [] then [] else pages[0].records + RecordsOf(pages[1..])
  }

  function DaysOf(pages: seq<Page>): seq<Day> {
    if pages == [] then [] else pages[0].days + DaysOf(pages[1..])
  }

  lemma {:induction false} FirstThenRest(page: Page, rest: seq<Page>)
    ensures RecordsOf([page] + rest) == page.records + RecordsOf(rest)
  {
    assert ([page] + rest)[1..] == rest;
  }

  /** The pages put end to end are the filtered list in its order, with no record twice and none left out. */
  lemma {:induction false} PagingIsExact(db: Db, q: Query, cursor: Option<Record>, limit: nat)
    requires limit > 0
    ensures RecordsOf(Pages(db, q, cursor, limit)) == NewestFirst(Wanted(db, q, cursor))
    decreases |Wanted(db, q, cursor)|
  {
    var all := NewestFirst(Wanted(db, q, cursor));
    var page := List(db, q, cursor, limit);
    FirstPage(db, q, cursor, limit);
    if page.next.None? {
      FirstThenRest(page, []);
      assert [page] + [] == [page];
    } else {
      FewerLeft(db, q, cursor, limit);
      PagingIsExact(db, q, page.next, limit);
      FirstThenRest(page, Pages(db, q, page.next, limit));
      PageThenRest(db, q, cursor, limit);
    }
  }

  /** What a page shows and what is left to read from its cursor are the list. */
  lemma PageThenRest(db: Db, q: Query, cursor: Option<Record>, limit: nat)
    requires limit > 0 && List(db, q, cursor, limit).next.Some?
    ensures var page := List(db, q, cursor, limit);
            page.records + NewestFirst(Wanted(db, q, page.next)) == NewestFirst(Wanted(db, q, cursor))
  {
    var all := NewestFirst(Wanted(db, q, cursor));
    FirstPage(db, q, cursor, limit);
    RestOfTheList(db, q, cursor, limit);
    assert all[..limit] + all[limit..] == all;
  }

  /** Every page is full except the last, and none but the only page of an empty list is empty. */
  lemma {:induction false} PagesAreFull(db: Db, q: Query, cursor: Option<Record>, limit: nat, i: nat)
    requires limit > 0 && i < |Pages(db, q, cursor, limit)|
    ensures var pages := Pages(db, q, cursor, limit);
            && (i < |pages| - 1 ==> |pages[i].records| == limit)
            && |pages[i].records| <= limit
            && (pages[i].records == [] ==> i == 0 && Wanted(db, q, cursor) == {})
    decreases |Wanted(db, q, cursor)|
  {
    var page := List(db, q, cursor, limit);
    FirstIsFull(db, q, cursor, limit);
    if page.next.Some? {
      FewerLeft(db, q, cursor, limit);
      if i > 0 {
        PagesAreFull(db, q, page.next, limit, i - 1);
      }
    }
  }

  lemma FirstIsFull(db: Db, q: Query, cursor: Option<Record>, limit: nat)
    requires limit > 0
    ensures var page := List(db, q, cursor, limit);
            && |page.records| <= limit && (page.next.Some? ==> |page.records| == limit && Wanted(db, q, page.next) != {})
            && (page.records == [] ==> Wanted(db, q, cursor) == {})
  {
    var page := List(db, q, cursor, limit);
    FirstPage(db, q, cursor, limit);
    NewestFirstDescends(Wanted(db, q, cursor));
    if page.next.Some? {
      RestOfTheList(db, q, cursor, limit);
      NewestFirstDescends(Wanted(db, q, page.next));
    }
  }

  // ---- totals ----

  lemma LatestFirstLists(dates: set<Date>)
    ensures forall d :: d in LatestFirst(dates) <==> d in dates
    ensures forall i, j | 0 <= i < j < |LatestFirst(dates)| :: Earlier(LatestFirst(dates)[j], LatestFirst(dates)[i])
  {
    var marks := set d | d in dates :: Mark(d);
    var listed := NewestFirst(marks);
    NewestFirstDescends(marks);
    forall d
      ensures d in LatestFirst(dates) <==> d in dates
    {
      if d in dates {
        assert Mark(d) in listed;
        var i :| 0 <= i < |listed| && listed[i] == Mark(d);
        assert LatestFirst(dates)[i] == d;
      }
      if d in LatestFirst(dates) {
        var i :| 0 <= i < |listed| && listed[i].date == d;
        assert listed[i] in marks;
      }
    }
    forall i, j | 0 <= i < j < |LatestFirst(dates)|
      ensures Earlier(LatestFirst(dates)[j], LatestFirst(dates)[i])
    {
      assert listed[i] in marks && listed[j] in marks && Older(listed[j], listed[i]);
    }
  }

  /** A list of totals, each that of a whole day as the query itself counts it. */
  ghost predicate WholeDays(db: Db, q: Query, days: seq<Day>) {
    forall i | 0 <= i < |days| :: days[i].total == DayTotal(db, q, days[i].date)
  }

  predicate Names(days: seq<Day>, date: Date) {
    exists i | 0 <= i < |days| :: days[i].date == date
  }

  lemma SameDay(db: Db, q: Query, range: Query, date: Date)
    requires forall t: Txn | t.date == date :: Matches(db, t, q) <==> Matches(db, t, range)
    ensures DayTotal(db, range, date) == DayTotal(db, q, date)
  {
    assert DayColumn(db, range, date) == DayColumn(db, q, date);
  }

  lemma DateInRange(db: Db, q: Query, last: Record, first: Record, t: Txn)
    requires last in Matching(db, q) && first in Matching(db, q)
    requires !Earlier(t.date, last.date) && !Earlier(first.date, t.date)
    ensures Matches(db, t, q) <==> Matches(db, t, Between(q, last.date, first.date))
  {
  }

  /** Although their range is the page's own, the totals of a page are those of whole days of the query, the cut ones too. */
  lemma TotalsAreWhole(db: Db, q: Query, page: seq<Record>, r: Record)
    requires Descending(page) && forall x | x in page :: x in Matching(db, q)
    ensures WholeDays(db, q, TotalsOf(db, page, q))
    ensures r in page ==> Names(TotalsOf(db, page, q), r.date)
  {
    if page != [] {
      var last, first := page[|page| - 1], page[0];
      var range := Between(q, last.date, first.date);
      var dates := set x | x in Matching(db, range) :: x.date;
      LatestFirstLists(dates);
      assert last in page && first in page;
      var days := TotalsOf(db, page, q);
      forall i | 0 <= i < |days|
        ensures days[i].total == DayTotal(db, q, days[i].date)
      {
        assert LatestFirst(dates)[i] in dates;
        var x :| x in Matching(db, range) && x.date == days[i].date;
        forall t: Txn | t.date == x.date
          ensures Matches(db, t, q) <==> Matches(db, t, range)
        {
          DateInRange(db, q, last, first, t);
        }
        SameDay(db, q, range, x.date);
      }
      if r in page {
        assert r in Matching(db, q);
        assert !Earlier(r.date, last.date) && !Earlier(first.date, r.date);
        DateInRange(db, q, last, first, db.txns[r.id]);
        assert RecordOf(db.txns, r.id) in Matching(db, range);
        assert r.date in LatestFirst(dates);
        var i :| 0 <= i < |LatestFirst(dates)| && LatestFirst(dates)[i] == r.date;
        assert days[i].date == r.date;
      }
    }
  }

  lemma {:induction false} DaysOfPages(db: Db, q: Query, pages: seq<Page>, r: Record)
    requires forall p | p in pages :: WholeDays(db, q, p.days) && (r in p.records ==> Names(p.days, r.date))
    ensures WholeDays(db, q, DaysOf(pages))
    ensures r in RecordsOf(pages) ==> Names(DaysOf(pages), r.date)
  {
    if pages != [] {
      DaysOfPages(db, q, pages[1..], r);
      assert pages[0] in pages;
      DaysOfBoth(db, q, pages[0].days, DaysOf(pages[1..]), r.date);
    }
  }

  lemma DaysOfBoth(db: Db, q: Query, a: seq<Day>, b: seq<Day>, date: Date)
    requires WholeDays(db, q, a) && WholeDays(db, q, b)
    ensures WholeDays(db, q, a + b) && (Names(a + b, date) <==> Names(a, date) || Names(b, date))
  {
    if Names(a, date) {
      var i :| 0 <= i < |a| && a[i].date == date;
      assert (a + b)[i].date == date;
    } else if Names(b, date) {
      var i :| 0 <= i < |b| && b[i].date == date;
      assert (a + b)[|a| + i].date == date;
    }
  }

  lemma {:induction false} EveryPageIsWhole(db: Db, q: Query, cursor: Option<Record>, limit: nat, p: Page, r: Record)
    requires limit > 0 && p in Pages(db, q, cursor, limit)
    ensures WholeDays(db, q, p.days) && (r in p.records ==> Names(p.days, r.date))
    decreases |Wanted(db, q, cursor)|
  {
    var page := List(db, q, cursor, limit);
    var all := NewestFirst(Wanted(db, q, cursor));
    NewestFirstDescends(Wanted(db, q, cursor));
    if p == page {
      assert forall x | x in p.records :: x in all;
      TotalsAreWhole(db, q, p.records, r);
    } else {
      FewerLeft(db, q, cursor, limit);
      EveryPageIsWhole(db, q, page.next, limit, p, r);
    }
  }

  // ---- the days of the screen ----

  datatype DayName = TODAY | YESTERDAY | UNNAMED

  datatype FeedDay = FeedDay(date: Date, name: DayName, total: int, records: seq<Record>)

  function NameOf(date: Date, today: Date, yesterday: Date): DayName {
    if date == today then TODAY else if date == yesterday then YESTERDAY else UNNAMED
  }

  function TotalFor(totals: seq<Day>, date: Date): int {
    if totals == [] then 0 else if totals[0].date == date then totals[0].total else TotalFor(totals[1..], date)
  }

  function Flattened(days: seq<FeedDay>): seq<Record> {
    if days == [] then [] else Flattened(days[..|days| - 1]) + days[|days| - 1].records
  }

  /** The records as runs of one date each. */
  predicate Grouped(days: seq<FeedDay>, records: seq<Record>, totals: seq<Day>, today: Date, yesterday: Date) {
    && Flattened(days) == records
    && (forall i | 0 <= i < |days| :: days[i].records != [] && forall r | r in days[i].records :: r.date == days[i].date)
    && (forall i | 0 <= i < |days| - 1 :: days[i].date != days[i + 1].date)
    && (forall i | 0 <= i < |days| :: days[i].total == TotalFor(totals, days[i].date))
    && (forall i | 0 <= i < |days| :: days[i].name == NameOf(days[i].date, today, yesterday))
  }

  lemma JoinsTheDay(days: seq<FeedDay>, records: seq<Record>, totals: seq<Day>, today: Date, yesterday: Date, r: Record)
    requires Grouped(days, records, totals, today, yesterday) && days != [] && days[|days| - 1].date == r.date
    ensures var last := days[|days| - 1];
            Grouped(days[|days| - 1 := last.(records := last.records + [r])], records + [r], totals, today, yesterday)
  {
    var last := days[|days| - 1];
    var after := days[|days| - 1 := last.(records := last.records + [r])];
    assert after[..|days| - 1] == days[..|days| - 1];
    assert Flattened(after) == records + [r];
  }

  lemma {:induction false} OpensADay(days: seq<FeedDay>, records: seq<Record>, totals: seq<Day>, today: Date, yesterday: Date, r: Record)
    requires Grouped(days, records, totals, today, yesterday) && (days == [] || days[|days| - 1].date != r.date)
    ensures Grouped(days + [FeedDay(r.date, NameOf(r.date, today, yesterday), TotalFor(totals, r.date), [r])], records + [r],
                    totals, today, yesterday)
  {
    var after := days + [FeedDay(r.date, NameOf(r.date, today, yesterday), TotalFor(totals, r.date), [r])];
    assert after[..|after| - 1] == days;
    assert Flattened(after) == records + [r];
  }

  method FeedDays(records: seq<Record>, totals: seq<Day>, today: Date, yesterday: Date) returns (days: seq<FeedDay>)
    ensures Grouped(days, records, totals, today, yesterday)
  {
    days := [];
    for i := 0 to |records|
      invariant Grouped(days, records[..i], totals, today, yesterday)
    {
      var record := records[i];
      assert records[..i + 1] == records[..i] + [record];
      if days != [] && days[|days| - 1].date == record.date {
        JoinsTheDay(days, records[..i], totals, today, yesterday, record);
        var open := days[|days| - 1];
        days := days[|days| - 1 := open.(records := open.records + [record])];
      } else {
        OpensADay(days, records[..i], totals, today, yesterday, record);
        days := days + [FeedDay(record.date, NameOf(record.date, today, yesterday), TotalFor(totals, record.date), [record])];
      }
    }
    assert records[..|records|] == records;
  }

  lemma {:induction false} InSomeDay(days: seq<FeedDay>, r: Record)
    requires r in Flattened(days)
    ensures exists i | 0 <= i < |days| :: r in days[i].records
  {
    if r !in days[|days| - 1].records {
      InSomeDay(days[..|days| - 1], r);
    }
  }

  lemma {:induction false} OfSomeDay(days: seq<FeedDay>, i: nat, r: Record)
    requires i < |days| && r in days[i].records
    ensures r in Flattened(days)
  {
    if i < |days| - 1 {
      OfSomeDay(days[..|days| - 1], i, r);
    }
  }

  /** Days made of records that never get newer never get later. */
  lemma {:induction false} DaysDescend(days: seq<FeedDay>, records: seq<Record>, totals: seq<Day>, today: Date, yesterday: Date)
    requires Grouped(days, records, totals, today, yesterday) && Descending(records)
    ensures forall i, j | 0 <= i < j < |days| :: Earlier(days[j].date, days[i].date)
  {
    if days != [] {
      var front, last := days[..|days| - 1], days[|days| - 1];
      var head := Flattened(front);
      assert records == head + last.records && head == records[..|head|];
      assert Grouped(front, head, totals, today, yesterday);
      DaysDescend(front, head, totals, today, yesterday);
      if front != [] {
        var prior := front[|front| - 1];
        OfSomeDay(front, |front| - 1, prior.records[0]);
        var k :| 0 <= k < |head| && head[k] == prior.records[0];
        assert Older(records[|head|], records[k]) && records[|head|] == last.records[0];
        assert last.records[0] in last.records && prior.records[0] in prior.records;
        assert prior.date != last.date;
      }
    }
  }

  lemma {:induction false} TotalForDay(db: Db, q: Query, totals: seq<Day>, date: Date)
    requires WholeDays(db, q, totals) && Names(totals, date)
    ensures TotalFor(totals, date) == DayTotal(db, q, date)
  {
    if totals[0].date != date {
      var i :| 0 <= i < |totals| && totals[i].date == date;
      assert totals[1..][i - 1].date == date;
      TotalForDay(db, q, totals[1..], date);
    }
  }

  /**
   However many pages are read, the feed shows each date once, the latest first, and under it the total of that whole
   day as the query counts it, even where the day's own records are cut by the end of a page.
   */
  lemma {:induction false} FeedShowsWholeDays(db: Db, q: Query, limit: nat, read: nat, days: seq<FeedDay>, today: Date, yesterday: Date, i: nat)
    requires limit > 0 && read <= |Pages(db, q, None, limit)|
    requires var pages := Pages(db, q, None, limit)[..read];
             Grouped(days, RecordsOf(pages), DaysOf(pages), today, yesterday)
    requires i < |days|
    ensures days[i].total == DayTotal(db, q, days[i].date)
    ensures forall j | i < j < |days| :: Earlier(days[j].date, days[i].date)
  {
    var pages := Pages(db, q, None, limit)[..read];
    var r := days[i].records[0];
    assert r in days[i].records;
    forall p | p in pages
      ensures WholeDays(db, q, p.days) && (r in p.records ==> Names(p.days, r.date))
    {
      EveryPageIsWhole(db, q, None, limit, p, r);
    }
    DaysOfPages(db, q, pages, r);
    OfSomeDay(days, i, r);
    TotalForDay(db, q, DaysOf(pages), r.date);
    ReadSoFar(db, q, limit, read);
    DaysDescend(days, RecordsOf(pages), DaysOf(pages), today, yesterday);
  }

  lemma {:induction false} RecordsOfBoth(a: seq<Page>, b: seq<Page>)
    ensures RecordsOf(a + b) == RecordsOf(a) + RecordsOf(b)
  {
    if a == [] {
      assert a + b == b;
    } else {
      assert (a + b)[1..] == a[1..] + b;
      RecordsOfBoth(a[1..], b);
    }
  }

  lemma {:induction false} ReadSoFar(db: Db, q: Query, limit: nat, read: nat)
    requires limit > 0 && read <= |Pages(db, q, None, limit)|
    ensures RecordsOf(Pages(db, q, None, limit)[..read]) <= NewestFirst(Matching(db, q))
    ensures Descending(RecordsOf(Pages(db, q, None, limit)[..read]))
  {
    var pages := Pages(db, q, None, limit);
    assert pages == pages[..read] + pages[read..];
    RecordsOfBoth(pages[..read], pages[read..]);
    PagingIsExact(db, q, None, limit);
    assert Wanted(db, q, None) == Matching(db, q);
    NewestFirstDescends(Matching(db, q));
  }

  /** Read to the end, a day of the feed holds every record of that date the query asks for, and only those. */
  lemma {:induction false} FeedHoldsWholeDays(db: Db, q: Query, limit: nat, days: seq<FeedDay>, today: Date, yesterday: Date, i: nat, r: Record)
    requires limit > 0 && i < |days|
    requires var pages := Pages(db, q, None, limit);
             Grouped(days, RecordsOf(pages), DaysOf(pages), today, yesterday)
    ensures r in days[i].records <==> r in Matching(db, q) && r.date == days[i].date
  {
    var pages := Pages(db, q, None, limit);
    assert pages[..|pages|] == pages;
    ReadSoFar(db, q, limit, |pages|);
    PagingIsExact(db, q, None, limit);
    assert Wanted(db, q, None) == Matching(db, q);
    NewestFirstDescends(Matching(db, q));
    if r in days[i].records {
      OfSomeDay(days, i, r);
    }
    if r in Matching(db, q) && r.date == days[i].date {
      InSomeDay(days, r);
      var j :| 0 <= j < |days| && r in days[j].records;
      DaysDescend(days, RecordsOf(pages), DaysOf(pages), today, yesterday);
      assert i == j;
    }
  }

  // ---- the other account of a transfer ----

  /** The first held row that shares the transfer and is not the row itself. */
  function CounterpartOf(rows: map<Id, Txn>, id: Id, held: seq<Id>): Option<Id>
    requires id in rows && forall h | h in held :: h in rows
  {
    if rows[id].transfer.None? || held == [] then None
    else if rows[held[0]].transfer == rows[id].transfer && held[0] != id then Some(rows[held[0]].account)
    else CounterpartOf(rows, id, held[1..])
  }

  /** What is held for a page: at least every row of every transfer one of whose legs the page shows, in whatever order. */
  ghost predicate HeldFor(rows: map<Id, Txn>, page: seq<Id>, held: seq<Id>) {
    && (forall h | h in held :: h in rows)
    && (forall p, h | p in page && p in rows && h in rows && rows[h].transfer.Some? ::
          rows[h].transfer == rows[p].transfer ==> h in held)
  }

  lemma {:induction false} FirstOfTheOthers(rows: map<Id, Txn>, id: Id, held: seq<Id>, other: Id)
    requires id in rows && rows[id].transfer.Some? && other in held && other != id
    requires forall h | h in held :: h in rows
    requires forall h | h in held && rows[h].transfer == rows[id].transfer :: h == id || h == other
    requires other in rows && rows[other].transfer == rows[id].transfer
    ensures CounterpartOf(rows, id, held) == Some(rows[other].account)
  {
    if !(rows[held[0]].transfer == rows[id].transfer && held[0] != id) {
      FirstOfTheOthers(rows, id, held[1..], other);
    }
  }

  /** A leg always names the account the money went to or came from; a record that is no leg names none. */
  lemma {:induction false} CounterpartIsTheOther(db: Db, id: Id, page: seq<Id>, held: seq<Id>)
    requires Sound(db) && id in page && id in db.txns && HeldFor(db.txns, page, held)
    ensures db.txns[id].transfer.None? ==> CounterpartOf(db.txns, id, held) == None
    ensures db.txns[id].transfer.Some? ==>
              exists other | other in Transfers.Legs(db.txns, db.txns[id].transfer.value) ::
                && other != id && db.txns[other].amount == -db.txns[id].amount
                && db.txns[other].account != db.txns[id].account
                && CounterpartOf(db.txns, id, held) == Some(db.txns[other].account)
  {
    if db.txns[id].transfer.Some? {
      var x := db.txns[id].transfer.value;
      var legs := Transfers.Legs(db.txns, x);
      assert id in legs;
      var p := FoundPair(db, x);
      var other := OtherLeg(db.txns, legs, p, id);
      assert other in held;
      assert forall h | h in held && db.txns[h].transfer == db.txns[id].transfer :: h in legs;
      FirstOfTheOthers(db.txns, id, held, other);
    }
  }

  lemma OtherLeg(rows: map<Id, Txn>, legs: set<Id>, p: Transfers.Pair, id: Id) returns (other: Id)
    requires Mirrored(rows, legs, p) && id in legs && p.outgoing != p.incoming
    ensures other in legs && other in rows && id in rows && other != id && legs == {id, other}
    ensures rows[other].amount == -rows[id].amount && rows[other].account != rows[id].account
  {
    other := if id == p.outgoing then p.incoming else p.outgoing;
  }

  // ---- told by the rows ----

  function DayNumber(d: Date): int {
    31 * d.month + d.day
  }

  /** Asked for: of the account named, or of any that is not archived, and of all else the query names. */
  predicate IsAskedFor(db: Db, id: Id, q: Query) {
    && id in db.txns
    && var t := db.txns[id];
       && (match q.account case Some(a) => t.account == a case None => t.account in db.accounts && !db.accounts[t.account].archived)
       && (match q.category case Some(c) => t.category == Some(c) case None => true)
       && (match q.payee case Some(p) => t.payee == Some(p) case None => true)
       && (match q.kind case Some(k) => t.kind == k case None => true)
       && (match q.from case Some(d) => DayNumber(d) <= DayNumber(t.date) case None => true)
       && (match q.to case Some(d) => DayNumber(t.date) <= DayNumber(d) case None => true)
  }

  predicate ComesAfter(r: Record, s: Record) {
    || DayNumber(r.date) < DayNumber(s.date)
    || (r.date == s.date && (r.createdAt < s.createdAt || (r.createdAt == s.createdAt && r.id < s.id)))
  }

  /** Read to the end, the pages list each record asked for and no other, the latest first. */
  lemma {:induction false} FeedLists(db: Db, q: Query, limit: nat, id: Id, i: nat, j: nat)
    requires limit > 0
    ensures var read := RecordsOf(Pages(db, q, None, limit));
            && (IsAskedFor(db, id, q) <==> exists r :: r in read && r.id == id)
            && (IsAskedFor(db, id, q) ==> Record(db.txns[id].date, db.txns[id].createdAt, id) in read)
            && (i < j < |read| ==> ComesAfter(read[j], read[i]))
  {
    PagingIsExact(db, q, None, limit);
    NewestFirstDescends(Wanted(db, q, None));
    var read := RecordsOf(Pages(db, q, None, limit));
    MatchesIsAskedFor(db, q, id);
    if IsAskedFor(db, id, q) {
      assert RecordOf(db.txns, id) in Matching(db, q);
      assert RecordOf(db.txns, id) in read;
    }
    if r :| r in read && r.id == id {
      assert r in Matching(db, q);
    }
    if i < j < |read| {
      assert Older(read[j], read[i]);
    }
  }

  lemma MatchesIsAskedFor(db: Db, q: Query, id: Id)
    ensures IsAskedFor(db, id, q) <==> id in db.txns && Matches(db, db.txns[id], q)
  {
  }

  function AmountsOf(db: Db, q: Query, date: Date): map<Id, int> {
    map id | id in db.txns && IsAskedFor(db, id, q) && db.txns[id].date == date :: db.txns[id].amount
  }

  /** A day's total is what the records of that day that are asked for add up to. */
  lemma DayTotalIs(db: Db, q: Query, date: Date)
    ensures DayTotal(db, q, date) == Sum(AmountsOf(db, q, date))
  {
    forall id
      ensures IsAskedFor(db, id, q) <==> id in db.txns && Matches(db, db.txns[id], q)
    {
      MatchesIsAskedFor(db, q, id);
    }
    SumIgnoresZeros(DayColumn(db, q, date), AmountsOf(db, q, date));
  }

  /** The day it is and the one before have names; no other has. */
  lemma DaysAreNamed(days: seq<FeedDay>, records: seq<Record>, totals: seq<Day>, today: Date, yesterday: Date, i: nat)
    requires Grouped(days, records, totals, today, yesterday) && i < |days|
    ensures days[i].name == TODAY <==> days[i].date == today
    ensures days[i].name == YESTERDAY <==> days[i].date == yesterday && yesterday != today
  {
  }
}
