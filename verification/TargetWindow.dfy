/** Which of a category's goals a month is read with, and which one a write works on. */
module TargetWindow {
  import opened Common
  import opened Ledger

  datatype Kind = REFILL_TO | CONTRIBUTE | BY_DATE | ACCUMULATE

  datatype Target = Target(
    id: Id,
    kind: Kind,
    amount: int,
    startMonth: Month,
    dueMonth: Option<Month>,
    endMonth: Option<Month>)

  predicate NotAfter(m: Month, last: Option<Month>) {
    last.Some? ==> m <= last.value
  }

  /** The months a goal is shown in. */
  predicate InWindow(t: Target, m: Month) {
    t.startMonth <= m && NotAfter(m, t.endMonth) && NotAfter(m, t.dueMonth)
  }

  /** The goals a write may work on: started, never closed, and not past their due month. */
  predicate IsLive(t: Target, m: Month) {
    t.startMonth <= m && t.endMonth.None? && NotAfter(m, t.dueMonth)
  }

  function LaterStarted(best: Option<Target>, t: Target): Option<Target> {
    if best.None? || best.value.startMonth < t.startMonth then Some(t) else best
  }

  /** The last started of the rows of one month, reduced from the first row to the last. */
  function ActiveInMonth(rows: seq<Target>, m: Month): Option<Target> {
    if rows == [] then None
    else
      var best, t := ActiveInMonth(rows[..|rows| - 1], m), rows[|rows| - 1];
      if InWindow(t, m) then LaterStarted(best, t) else best
  }

  function LiveTarget(rows: seq<Target>, m: Month): Option<Target> {
    if rows == [] then None
    else
      var best, t := LiveTarget(rows[..|rows| - 1], m), rows[|rows| - 1];
      if IsLive(t, m) then LaterStarted(best, t) else best
  }

  datatype TargetWrite = Create | Overwrite(id: Id) | Edit(id: Id) | CloseAndCreate(id: Id)

  function StartedIn(rows: seq<Target>, m: Month): Option<Target> {
    if rows == [] then None else if rows[0].startMonth == m then Some(rows[0]) else StartedIn(rows[1..], m)
  }

  function WriteFor(rows: seq<Target>, m: Month, kind: Kind): TargetWrite {
    match LiveTarget(rows, m)
    case Some(live) =>
      if live.startMonth == m || live.kind == kind then Edit(live.id) else CloseAndCreate(live.id)
    case None =>
      match StartedIn(rows, m)
      case Some(started) => Overwrite(started.id)
      case None => Create
  }

  // ---- the order the rows come in does not matter ----

  predicate DistinctStarts(rows: seq<Target>) {
    forall i, j | 0 <= i < j < |rows| :: rows[i].startMonth != rows[j].startMonth
  }

  /** ORDER BY start_month DESC and the first of it: what DISTINCT ON picks among the rows of a month. */
  predicate IsPick(rows: seq<Target>, m: Month, t: Target) {
    t in rows && InWindow(t, m) && forall u | u in rows && InWindow(u, m) :: u.startMonth <= t.startMonth
  }

  predicate IsLivePick(rows: seq<Target>, m: Month, t: Target) {
    t in rows && IsLive(t, m) && forall u | u in rows && IsLive(u, m) :: u.startMonth <= t.startMonth
  }

  lemma {:induction false} ActiveIsPick(rows: seq<Target>, m: Month)
    ensures ActiveInMonth(rows, m).None? <==> forall t | t in rows :: !InWindow(t, m)
    ensures ActiveInMonth(rows, m).Some? ==> IsPick(rows, m, ActiveInMonth(rows, m).value)
  {
    if rows != [] {
      var front, last := rows[..|rows| - 1], rows[|rows| - 1];
      ActiveIsPick(front, m);
      assert forall t :: t in rows <==> t in front || t == last;
    }
  }

  lemma {:induction false} LiveIsPick(rows: seq<Target>, m: Month)
    ensures LiveTarget(rows, m).None? <==> forall t | t in rows :: !IsLive(t, m)
    ensures LiveTarget(rows, m).Some? ==> IsLivePick(rows, m, LiveTarget(rows, m).value)
  {
    if rows != [] {
      var front, last := rows[..|rows| - 1], rows[|rows| - 1];
      LiveIsPick(front, m);
      assert forall t :: t in rows <==> t in front || t == last;
    }
  }

  /** The statement that reads a month picks the row the write rules would, however either got its rows ordered. */
  lemma {:induction false} DistinctOnIsActive(rows: seq<Target>, m: Month, t: Target)
    requires DistinctStarts(rows)
    ensures IsPick(rows, m, t) <==> ActiveInMonth(rows, m) == Some(t)
  {
    ActiveIsPick(rows, m);
    if IsPick(rows, m, t) {
      var u := ActiveInMonth(rows, m).value;
      var i :| 0 <= i < |rows| && rows[i] == t;
      var j :| 0 <= j < |rows| && rows[j] == u;
      assert i == j;
    }
  }

  lemma {:induction false} StartedIsThere(rows: seq<Target>, m: Month)
    ensures StartedIn(rows, m).None? <==> forall t | t in rows :: t.startMonth != m
    ensures StartedIn(rows, m).Some? ==> StartedIn(rows, m).value in rows && StartedIn(rows, m).value.startMonth == m
  {
    if rows != [] {
      StartedIsThere(rows[1..], m);
      assert forall t :: t in rows <==> t == rows[0] || t in rows[1..];
    }
  }
}
