/** Setting and closing a category's goal over months that move on: the goals of past months stay what they were. */
module CategoryTargets {
  import opened Common
  import opened Ledger
  import opened TargetWindow

  datatype Refusal = UNKNOWN_CATEGORY | CATEGORY_HIDDEN | DUE_MONTH_PAST | NO_TARGET

  datatype Outcome = Writes(rows: seq<Target>) | Refused(reason: Refusal)

  /** What is asked: only a goal saving by a date carries a due month. */
  datatype Asked = Asked(kind: Kind, amount: int, dueMonth: Option<Month>)

  predicate Formed(a: Asked) {
    a.amount > 0 && (a.kind == BY_DATE <==> a.dueMonth.Some?)
  }

  /** The data of one update: the goal as asked, the same over a goal that was closed, or the month it ends in. */
  datatype Change = Edits(a: Asked) | Overwrites(a: Asked) | Ends(month: Month)

  function Applied(t: Target, change: Change): Target {
    match change
    case Edits(a) => t.(kind := a.kind, amount := a.amount, dueMonth := a.dueMonth)
    case Overwrites(a) => t.(kind := a.kind, amount := a.amount, dueMonth := a.dueMonth, endMonth := None)
    case Ends(month) => t.(endMonth := Some(month))
  }

  /** UPDATE ... WHERE id: the rows carrying the id take the change. */
  function Changed(rows: seq<Target>, id: Id, change: Change): (after: seq<Target>)
    ensures |after| == |rows|
    ensures forall i | 0 <= i < |rows| :: after[i] == if rows[i].id == id then Applied(rows[i], change) else rows[i]
  {
    seq(|rows|, i requires 0 <= i < |rows| => if rows[i].id == id then Applied(rows[i], change) else rows[i])
  }

  function Fresh(id: Id, a: Asked, month: Month): Target {
    Target(id, a.kind, a.amount, month, a.dueMonth, None)
  }

  function RefusalOfCategory(category: Option<Category>): Option<Refusal> {
    if category.None? then Some(UNKNOWN_CATEGORY)
    else if category.value.hiddenAt.Some? then Some(CATEGORY_HIDDEN)
    else None
  }

  function Set(rows: seq<Target>, category: Option<Category>, a: Asked, id: Id, month: Month): Outcome {
    match RefusalOfCategory(category)
    case Some(reason) => Refused(reason)
    case None =>
      if a.dueMonth.Some? && a.dueMonth.value < month then Refused(DUE_MONTH_PAST)
      else
        match WriteFor(rows, month, a.kind)
        case Edit(live) => Writes(Changed(rows, live, Edits(a)))
        case Overwrite(started) => Writes(Changed(rows, started, Overwrites(a)))
        case CloseAndCreate(live) =>
          Writes(Changed(rows, live, Ends(month - 1)) + [Fresh(id, a, month)])
        case Create => Writes(rows + [Fresh(id, a, month)])
  }

  function Close(rows: seq<Target>, category: Option<Category>, month: Month): Outcome {
    match RefusalOfCategory(category)
    case Some(reason) => Refused(reason)
    case None =>
      match ActiveInMonth(rows, month)
      case None => Refused(NO_TARGET)
      case Some(shown) => Writes(Changed(rows, shown.id, Ends(month)))
  }

  function After(rows: seq<Target>, o: Outcome): seq<Target> {
    if o.Writes? then o.rows else rows
  }

  class Targets {
    var rows: seq<Target>

    constructor ()
      ensures rows == []
    {
      rows := [];
    }

    /** The row with this id takes the change; the table is rewritten row by row. */
    method Update(id: Id, change: Change)
      modifies this
      ensures rows == Changed(old(rows), id, change)
    {
      var i := 0;
      while i < |rows|
        invariant |rows| == |old(rows)| && 0 <= i <= |rows|
        invariant forall j | 0 <= j < |rows| ::
            rows[j] == if j < i && old(rows)[j].id == id then Applied(old(rows)[j], change) else old(rows)[j]
      {
        if rows[i].id == id {
          rows := rows[i := Applied(rows[i], change)];
        }
        i := i + 1;
      }
    }

    method SetTarget(category: Option<Category>, a: Asked, id: Id, month: Month) returns (refused: Option<Refusal>)
      modifies this
      ensures rows == After(old(rows), Set(old(rows), category, a, id, month))
      ensures refused.None? <==> Set(old(rows), category, a, id, month).Writes?
    {
      refused := RefusalOfCategory(category);
      if refused.Some? {
        return;
      }
      if a.dueMonth.Some? && a.dueMonth.value < month {
        return Some(DUE_MONTH_PAST);
      }
      match WriteFor(rows, month, a.kind) {
        case Edit(live) => Update(live, Edits(a));
        case Overwrite(started) => Update(started, Overwrites(a));
        case CloseAndCreate(live) =>
          Update(live, Ends(month - 1));
          rows := rows + [Fresh(id, a, month)];
        case Create => rows := rows + [Fresh(id, a, month)];
      }
    }

    method CloseTarget(category: Option<Category>, month: Month) returns (refused: Option<Refusal>)
      modifies this
      ensures rows == After(old(rows), Close(old(rows), category, month))
      ensures refused.None? <==> Close(old(rows), category, month).Writes?
    {
      refused := RefusalOfCategory(category);
      if refused.Some? {
        return;
      }
      match ActiveInMonth(rows, month) {
        case None => return Some(NO_TARGET);
        case Some(shown) => Update(shown.id, Ends(month));
      }
    }
  }

  // ---- what every run keeps ----

  /** The earlier goal is over by the month the later one starts: closed no later than it, or due before it. */
  predicate OverBy(t: Target, start: Month) {
    (t.endMonth.Some? && t.endMonth.value <= start) || (t.dueMonth.Some? && t.dueMonth.value < start)
  }

  /** The goals of one category, oldest first, at a moment no later than the month being lived in. */
  ghost predicate History(rows: seq<Target>, now: Month) {
    && (forall i, j | 0 <= i < j < |rows| :: rows[i].id != rows[j].id)
    && (forall i, j | 0 <= i < j < |rows| :: rows[i].startMonth < rows[j].startMonth && OverBy(rows[i], rows[j].startMonth))
    && (forall i | 0 <= i < |rows| :: WellDated(rows[i], now))
  }

  predicate WellDated(t: Target, now: Month) {
    && t.startMonth <= now
    && (t.endMonth.Some? ==> t.startMonth <= t.endMonth.value <= now)
    && (t.dueMonth.Some? ==> t.startMonth <= t.dueMonth.value)
    && (t.kind == BY_DATE <==> t.dueMonth.Some?)
    && t.amount > 0
  }

  lemma HistoryLater(rows: seq<Target>, now: Month, later: Month)
    requires History(rows, now) && now <= later
    ensures History(rows, later)
  {
  }

  /** Only the last goal can be live. */
  lemma LiveIsLast(rows: seq<Target>, now: Month, i: nat)
    requires History(rows, now) && i < |rows| && IsLive(rows[i], now)
    ensures i == |rows| - 1
  {
    var last := |rows| - 1;
    assert WellDated(rows[last], now) && (i < last ==> OverBy(rows[i], rows[last].startMonth));
  }

  lemma AtMostOneLive(rows: seq<Target>, now: Month, i: nat, j: nat)
    requires History(rows, now) && i < |rows| && j < |rows| && IsLive(rows[i], now) && IsLive(rows[j], now)
    ensures i == j
  {
    LiveIsLast(rows, now, i);
    LiveIsLast(rows, now, j);
  }

  /** What a month of the past is known by: which goal it had, and of what kind. */
  function Known(t: Option<Target>): Option<(Id, Kind)> {
    if t.None? then None else Some((t.value.id, t.value.kind))
  }

  function KnownIn(rows: seq<Target>, m: Month): Option<(Id, Kind)> {
    Known(ActiveInMonth(rows, m))
  }

  /** Row by row the same as far as one month can tell, with rows started later behind them. */
  predicate SameIn(rows: seq<Target>, after: seq<Target>, m: Month) {
    && |rows| <= |after|
    && (forall i | 0 <= i < |rows| ::
          && after[i].id == rows[i].id && after[i].startMonth == rows[i].startMonth
          && (InWindow(after[i], m) <==> InWindow(rows[i], m))
          && (InWindow(rows[i], m) ==> after[i].kind == rows[i].kind))
    && (forall i | |rows| <= i < |after| :: m < after[i].startMonth)
  }

  lemma {:induction false} SameKnown(rows: seq<Target>, after: seq<Target>, m: Month)
    requires SameIn(rows, after, m)
    ensures KnownIn(after, m) == KnownIn(rows, m)
    ensures ActiveInMonth(rows, m).Some? ==> ActiveInMonth(after, m).value.startMonth == ActiveInMonth(rows, m).value.startMonth
    decreases |after|
  {
    if |after| > |rows| {
      SameKnown(rows, after[..|after| - 1], m);
    } else if rows != [] {
      SameKnown(rows[..|rows| - 1], after[..|after| - 1], m);
    }
  }

  lemma ChangedLast(rows: seq<Target>, id: Id, change: Change, i: nat)
    requires i < |rows| && rows[i].id == id && forall j, k | 0 <= j < k < |rows| :: rows[j].id != rows[k].id
    ensures Changed(rows, id, change) == rows[i := Applied(rows[i], change)]
  {
  }

  lemma Appended(rows: seq<Target>, now: Month, t: Target)
    requires History(rows, now) && WellDated(t, now) && t.startMonth == now
    requires forall i | 0 <= i < |rows| :: rows[i].id != t.id && rows[i].startMonth < now && OverBy(rows[i], now)
    ensures History(rows + [t], now)
  {
  }

  lemma LiveAt(rows: seq<Target>, month: Month) returns (i: nat)
    requires History(rows, month) && LiveTarget(rows, month).Some?
    ensures i == |rows| - 1 < |rows| && LiveTarget(rows, month).value == rows[i] && IsLive(rows[i], month)
  {
    LiveIsPick(rows, month);
    i :| 0 <= i < |rows| && rows[i] == LiveTarget(rows, month).value;
    LiveIsLast(rows, month, i);
  }

  lemma StartedAt(rows: seq<Target>, month: Month) returns (i: nat)
    requires History(rows, month) && StartedIn(rows, month).Some?
    ensures i == |rows| - 1 < |rows| && StartedIn(rows, month).value == rows[i] && rows[i].startMonth == month
  {
    StartedIsThere(rows, month);
    i :| 0 <= i < |rows| && rows[i] == StartedIn(rows, month).value;
    assert WellDated(rows[|rows| - 1], month);
  }

  /** With no goal live, every goal there is is over by this month. */
  lemma {:induction false} AllOver(rows: seq<Target>, month: Month)
    requires History(rows, month) && LiveTarget(rows, month).None?
    ensures forall i | 0 <= i < |rows| :: OverBy(rows[i], month)
  {
    LiveIsPick(rows, month);
    forall i | 0 <= i < |rows|
      ensures OverBy(rows[i], month)
    {
      assert rows[i] in rows;
      assert WellDated(rows[i], month);
    }
  }

  /** The last goal as a write leaves it: of the same identity and start, and unchanged for every month before. */
  predicate Carried(t: Target, u: Target, month: Month) {
    && u.id == t.id && u.startMonth == t.startMonth && WellDated(u, month)
    && (t.startMonth < month ==> u.kind == t.kind)
    && (t.startMonth < month ==> NotAfter(month - 1, t.endMonth) && NotAfter(month - 1, t.dueMonth))
    && (t.startMonth < month ==> NotAfter(month - 1, u.endMonth) && NotAfter(month - 1, u.dueMonth))
  }

  lemma CarriedKeeps(rows: seq<Target>, month: Month, u: Target, m: Month)
    requires History(rows, month) && rows != [] && Carried(rows[|rows| - 1], u, month)
    ensures History(rows[|rows| - 1 := u], month)
    ensures m < month ==> SameIn(rows, rows[|rows| - 1 := u], m)
  {
  }

  lemma AppendedIsLater(rows: seq<Target>, after: seq<Target>, t: Target, m: Month)
    requires SameIn(rows, after, m) && |after| == |rows| && m < t.startMonth
    ensures SameIn(rows, after + [t], m)
  {
  }

  lemma EditKeeps(rows: seq<Target>, a: Asked, month: Month, m: Month)
    requires History(rows, month) && Formed(a) && (a.dueMonth.Some? ==> month <= a.dueMonth.value)
    requires rows != [] && IsLive(rows[|rows| - 1], month)
    requires rows[|rows| - 1].startMonth == month || rows[|rows| - 1].kind == a.kind
    ensures var after := Changed(rows, rows[|rows| - 1].id, Edits(a));
            History(after, month) && (m < month ==> SameIn(rows, after, m))
  {
    var i := |rows| - 1;
    assert WellDated(rows[i], month);
    ChangedLast(rows, rows[i].id, Edits(a), i);
    CarriedKeeps(rows, month, Applied(rows[i], Edits(a)), m);
  }

  lemma OverwriteKeeps(rows: seq<Target>, a: Asked, month: Month, m: Month)
    requires History(rows, month) && Formed(a) && (a.dueMonth.Some? ==> month <= a.dueMonth.value)
    requires rows != [] && rows[|rows| - 1].startMonth == month
    ensures var after := Changed(rows, rows[|rows| - 1].id, Overwrites(a));
            History(after, month) && (m < month ==> SameIn(rows, after, m))
  {
    var i := |rows| - 1;
    ChangedLast(rows, rows[i].id, Overwrites(a), i);
    CarriedKeeps(rows, month, Applied(rows[i], Overwrites(a)), m);
  }

  lemma CloseAndCreateKeeps(rows: seq<Target>, a: Asked, id: Id, month: Month, m: Month)
    requires History(rows, month) && Formed(a) && (a.dueMonth.Some? ==> month <= a.dueMonth.value)
    requires forall i | 0 <= i < |rows| :: rows[i].id != id
    requires rows != [] && IsLive(rows[|rows| - 1], month) && rows[|rows| - 1].startMonth < month
    ensures var after := Changed(rows, rows[|rows| - 1].id, Ends(month - 1)) + [Fresh(id, a, month)];
            History(after, month) && (m < month ==> SameIn(rows, after, m))
  {
    var i := |rows| - 1;
    var ended := Applied(rows[i], Ends(month - 1));
    assert WellDated(rows[i], month);
    ChangedLast(rows, rows[i].id, Ends(month - 1), i);
    CarriedKeeps(rows, month, ended, m);
    assert forall j | 0 <= j < i :: OverBy(rows[j], rows[i].startMonth) && WellDated(rows[j], month);
    Appended(rows[i := ended], month, Fresh(id, a, month));
    if m < month {
      AppendedIsLater(rows, rows[i := ended], Fresh(id, a, month), m);
    }
  }

  lemma {:induction false} CreateKeeps(rows: seq<Target>, a: Asked, id: Id, month: Month, m: Month)
    requires History(rows, month) && Formed(a) && (a.dueMonth.Some? ==> month <= a.dueMonth.value)
    requires forall i | 0 <= i < |rows| :: rows[i].id != id
    requires LiveTarget(rows, month).None? && StartedIn(rows, month).None?
    ensures History(rows + [Fresh(id, a, month)], month) && (m < month ==> SameIn(rows, rows + [Fresh(id, a, month)], m))
  {
    AllOver(rows, month);
    StartedIsThere(rows, month);
    forall i | 0 <= i < |rows|
      ensures rows[i].startMonth < month
    {
      assert rows[i] in rows && WellDated(rows[i], month);
    }
    Appended(rows, month, Fresh(id, a, month));
  }

  lemma SetOverLive(rows: seq<Target>, category: Option<Category>, a: Asked, id: Id, month: Month, m: Month)
    requires History(rows, month) && Formed(a) && forall i | 0 <= i < |rows| :: rows[i].id != id
    requires Set(rows, category, a, id, month).Writes? && LiveTarget(rows, month).Some?
    ensures var after := Set(rows, category, a, id, month).rows;
            History(after, month) && (m < month ==> SameIn(rows, after, m))
  {
    var i := LiveAt(rows, month);
    if rows[i].startMonth == month || rows[i].kind == a.kind {
      EditKeeps(rows, a, month, m);
    } else {
      assert WellDated(rows[i], month);
      CloseAndCreateKeeps(rows, a, id, month, m);
    }
  }

  lemma SetOverNone(rows: seq<Target>, category: Option<Category>, a: Asked, id: Id, month: Month, m: Month)
    requires History(rows, month) && Formed(a) && forall i | 0 <= i < |rows| :: rows[i].id != id
    requires Set(rows, category, a, id, month).Writes? && LiveTarget(rows, month).None?
    ensures var after := Set(rows, category, a, id, month).rows;
            History(after, month) && (m < month ==> SameIn(rows, after, m))
  {
    if StartedIn(rows, month).Some? {
      var i := StartedAt(rows, month);
      OverwriteKeeps(rows, a, month, m);
    } else {
      CreateKeeps(rows, a, id, month, m);
    }
  }

  /** Setting a goal keeps the history sound, and every month before the present as it was. */
  lemma SetKeeps(rows: seq<Target>, category: Option<Category>, a: Asked, id: Id, month: Month, m: Month)
    requires History(rows, month) && Formed(a) && forall i | 0 <= i < |rows| :: rows[i].id != id
    ensures var after := After(rows, Set(rows, category, a, id, month));
            History(after, month) && (m < month ==> SameIn(rows, after, m))
  {
    if Set(rows, category, a, id, month).Writes? {
      if LiveTarget(rows, month).Some? {
        SetOverLive(rows, category, a, id, month, m);
      } else {
        SetOverNone(rows, category, a, id, month, m);
      }
    }
  }

  /** The goal shown this month is the last one there is. */
  lemma ShownAt(rows: seq<Target>, month: Month) returns (i: nat)
    requires History(rows, month) && ActiveInMonth(rows, month).Some?
    ensures i == |rows| - 1 && ActiveInMonth(rows, month).value == rows[i] && InWindow(rows[i], month)
  {
    ActiveIsPick(rows, month);
    i :| 0 <= i < |rows| && rows[i] == ActiveInMonth(rows, month).value;
    var last := |rows| - 1;
    assert WellDated(rows[last], month) && rows[last] in rows;
    assert InWindow(rows[last], month) ==> rows[last].startMonth <= rows[i].startMonth;
  }

  /** Closing ends the goal shown this month with this month. */
  lemma CloseKeeps(rows: seq<Target>, category: Option<Category>, month: Month, m: Month)
    requires History(rows, month)
    ensures var after := After(rows, Close(rows, category, month));
            History(after, month) && (m < month ==> SameIn(rows, after, m))
  {
    if Close(rows, category, month).Writes? {
      var i := ShownAt(rows, month);
      ChangedLast(rows, rows[i].id, Ends(month), i);
      assert WellDated(rows[i], month);
      CarriedKeeps(rows, month, Applied(rows[i], Ends(month)), m);
    }
  }

  // ---- runs ----

  datatype Command =
    | SetGoal(category: Option<Category>, asked: Asked, id: Id, month: Month)
    | CloseGoal(category: Option<Category>, month: Month)

  function Step(rows: seq<Target>, c: Command): seq<Target> {
    match c
    case SetGoal(category, asked, id, month) => After(rows, Set(rows, category, asked, id, month))
    case CloseGoal(category, month) => After(rows, Close(rows, category, month))
  }

  predicate Supplied(rows: seq<Target>, c: Command) {
    c.SetGoal? ==> Formed(c.asked) && forall i | 0 <= i < |rows| :: rows[i].id != c.id
  }

  /** A run of one category's goals from none at all, in months that never go back. */
  ghost predicate IsRun(states: seq<seq<Target>>, commands: seq<Command>) {
    && |states| == |commands| + 1 && states[0] == []
    && (forall i {:trigger commands[i]} | 0 <= i < |commands| ::
          Supplied(states[i], commands[i]) && states[i + 1] == Step(states[i], commands[i]))
    && (forall i, j | 0 <= i < j < |commands| :: commands[i].month <= commands[j].month)
  }

  lemma StepKeeps(rows: seq<Target>, c: Command, m: Month)
    requires History(rows, c.month) && Supplied(rows, c)
    ensures History(Step(rows, c), c.month) && (m < c.month ==> KnownIn(Step(rows, c), m) == KnownIn(rows, m))
  {
    if c.SetGoal? {
      SetKeeps(rows, c.category, c.asked, c.id, c.month, m);
    } else {
      CloseKeeps(rows, c.category, c.month, m);
    }
    if m < c.month {
      SameKnown(rows, Step(rows, c), m);
    }
  }

  lemma {:induction false} RunKeeps(states: seq<seq<Target>>, commands: seq<Command>, i: nat, now: Month)
    requires IsRun(states, commands) && i < |states|
    requires i > 0 ==> commands[i - 1].month <= now
    ensures History(states[i], now)
  {
    if i > 0 {
      RunKeeps(states, commands, i - 1, commands[i - 1].month);
      StepKeeps(states[i - 1], commands[i - 1], commands[i - 1].month);
      assert states[i - 1 + 1] == Step(states[i - 1], commands[i - 1]);
      HistoryLater(states[i], commands[i - 1].month, now);
    }
  }

  /** Whatever is set and closed from some month on, the months before it keep the goal they had, and its kind. */
  lemma {:induction false} PastIsNeverRewritten(states: seq<seq<Target>>, commands: seq<Command>, i: nat, j: nat, m: Month)
    requires IsRun(states, commands) && i <= j < |states|
    requires i < |commands| ==> m < commands[i].month
    ensures KnownIn(states[j], m) == KnownIn(states[i], m)
    decreases j
  {
    if i < j {
      PastIsNeverRewritten(states, commands, i, j - 1, m);
      RunKeeps(states, commands, j - 1, commands[j - 1].month);
      StepKeeps(states[j - 1], commands[j - 1], m);
      assert states[j - 1 + 1] == Step(states[j - 1], commands[j - 1]);
    }
  }

  /** In every state of a run the read of a month picks one goal, the same one the writes go by. */
  lemma {:induction false} ReadPicksTheActive(states: seq<seq<Target>>, commands: seq<Command>, i: nat, m: Month, t: Target)
    requires IsRun(states, commands) && i < |states|
    ensures IsPick(states[i], m, t) <==> ActiveInMonth(states[i], m) == Some(t)
  {
    RunKeeps(states, commands, i, if i > 0 then commands[i - 1].month else 0);
    DistinctOnIsActive(states[i], m, t);
  }

  // ---- what one step leaves ----

  /** Setting a goal leaves it last, as it was asked for and open-ended. */
  lemma SetIsLast(rows: seq<Target>, category: Option<Category>, a: Asked, id: Id, month: Month)
    requires History(rows, month) && Set(rows, category, a, id, month).Writes?
    ensures var after := Set(rows, category, a, id, month).rows;
            && after != [] && after[|after| - 1].startMonth <= month
            && after[|after| - 1].(id := id, startMonth := month) == Fresh(id, a, month)
  {
    if LiveTarget(rows, month).Some? {
      var live := LiveAt(rows, month);
      ChangedIsLast(rows, live, Edits(a));
    } else if StartedIn(rows, month).Some? {
      var started := StartedAt(rows, month);
      ChangedIsLast(rows, started, Overwrites(a));
    }
  }

  lemma ChangedIsLast(rows: seq<Target>, i: nat, change: Change)
    requires i == |rows| - 1
    ensures |Changed(rows, rows[i].id, change)| == |rows| && Changed(rows, rows[i].id, change)[i] == Applied(rows[i], change)
  {
  }

  /** A goal that was set is the goal of the month it was set in, as it was asked for. */
  lemma {:induction false} SetIsShown(rows: seq<Target>, category: Option<Category>, a: Asked, id: Id, month: Month)
    requires History(rows, month) && Formed(a) && forall i | 0 <= i < |rows| :: rows[i].id != id
    requires Set(rows, category, a, id, month).Writes?
    ensures var shown := ActiveInMonth(Set(rows, category, a, id, month).rows, month);
            shown.Some? && shown.value.(id := id, startMonth := month) == Fresh(id, a, month)
  {
    SetKeeps(rows, category, a, id, month, month);
    SetIsLast(rows, category, a, id, month);
    LastIsShown(Set(rows, category, a, id, month).rows, month);
  }

  lemma {:induction false} LastIsShown(rows: seq<Target>, month: Month)
    requires History(rows, month) && rows != [] && InWindow(rows[|rows| - 1], month)
    ensures ActiveInMonth(rows, month) == Some(rows[|rows| - 1])
  {
    var i := |rows| - 1;
    forall u | u in rows && InWindow(u, month)
      ensures u.startMonth <= rows[i].startMonth
    {
      var j :| 0 <= j < |rows| && rows[j] == u;
    }
    assert IsPick(rows, month, rows[i]);
    DistinctOnIsActive(rows, month, rows[i]);
  }

  /** A goal that was closed is still shown in the month it was closed in, and no goal is shown after it. */
  lemma {:induction false} CloseIsTheEnd(rows: seq<Target>, category: Option<Category>, month: Month, m: Month)
    requires History(rows, month) && Close(rows, category, month).Writes? && month < m
    ensures var after := Close(rows, category, month).rows;
            KnownIn(after, month) == KnownIn(rows, month) && ActiveInMonth(after, m).None?
  {
    var after := Close(rows, category, month).rows;
    var i := ShownAt(rows, month);
    ChangedLast(rows, rows[i].id, Ends(month), i);
    SameKnown(rows, after, month);
    ActiveIsPick(after, m);
    forall t | t in after
      ensures !InWindow(t, m)
    {
      var j :| 0 <= j < |after| && after[j] == t;
      assert j < i ==> OverBy(rows[j], rows[i].startMonth);
    }
  }

  // ---- the rows a step leaves ----

  /** Not closed, and its date, if it saves by one, not past. */
  predicate StillOn(t: Target, month: Month) {
    t.endMonth.None? && (t.dueMonth.Some? ==> month <= t.dueMonth.value)
  }

  /** What becomes of the rows: the last one is rewritten, ended with the month before, or let be, and a new one follows or not. */
  function RowsAfter(rows: seq<Target>, a: Asked, id: Id, month: Month): seq<Target> {
    var goal := Target(id, a.kind, a.amount, month, a.dueMonth, None);
    if rows == [] then [goal]
    else
      var n := |rows| - 1;
      var last := rows[n];
      var rewritten := Target(last.id, a.kind, a.amount, last.startMonth, a.dueMonth, None);
      if last.startMonth == month then rows[n := rewritten]
      else if !StillOn(last, month) then rows + [goal]
      else if last.kind == a.kind then rows[n := rewritten]
      else rows[n := Target(last.id, last.kind, last.amount, last.startMonth, last.dueMonth, Some(month - 1))] + [goal]
  }

  /**
   A goal set in the month it began in, or of the kind it has, is edited in place; one of another kind ends with the
   month before and a new one begins; one that is over stays as it is and a new one begins.
   */
  lemma SetLeaves(rows: seq<Target>, category: Option<Category>, a: Asked, id: Id, month: Month)
    requires History(rows, month)
    ensures Set(rows, category, a, id, month) ==
              if category.None? then Refused(UNKNOWN_CATEGORY)
              else if category.value.hiddenAt.Some? then Refused(CATEGORY_HIDDEN)
              else if a.dueMonth.Some? && a.dueMonth.value < month then Refused(DUE_MONTH_PAST)
              else Writes(RowsAfter(rows, a, id, month))
  {
    if LiveTarget(rows, month).Some? {
      var live := LiveAt(rows, month);
      ChangedLast(rows, rows[live].id, Edits(a), live);
      ChangedLast(rows, rows[live].id, Ends(month - 1), live);
    } else if rows != [] {
      NoneLive(rows, month);
      if StartedIn(rows, month).Some? {
        var started := StartedAt(rows, month);
        ChangedLast(rows, rows[started].id, Overwrites(a), started);
      }
    }
  }

  lemma {:induction false} NoneLive(rows: seq<Target>, month: Month)
    requires History(rows, month) && LiveTarget(rows, month).None? && rows != []
    ensures !StillOn(rows[|rows| - 1], month)
    ensures StartedIn(rows, month).Some? <==> rows[|rows| - 1].startMonth == month
  {
    var last := rows[|rows| - 1];
    LiveIsPick(rows, month);
    StartedIsThere(rows, month);
    assert last in rows && WellDated(last, month);
    if StartedIn(rows, month).Some? {
      var i := StartedAt(rows, month);
    }
  }

  /** Closing ends the last goal with this month, if it is shown in it, and is refused if it is not. */
  lemma CloseLeaves(rows: seq<Target>, category: Option<Category>, month: Month)
    requires History(rows, month)
    ensures Close(rows, category, month) ==
              if category.None? then Refused(UNKNOWN_CATEGORY)
              else if category.value.hiddenAt.Some? then Refused(CATEGORY_HIDDEN)
              else if rows == [] then Refused(NO_TARGET)
              else
                var last := rows[|rows| - 1];
                if (last.endMonth.Some? && last.endMonth.value < month) || (last.dueMonth.Some? && last.dueMonth.value < month)
                then Refused(NO_TARGET)
                else Writes(rows[|rows| - 1 :=
                       Target(last.id, last.kind, last.amount, last.startMonth, last.dueMonth, Some(month))])
  {
    if ActiveInMonth(rows, month).Some? {
      var shown := ShownAt(rows, month);
      ChangedLast(rows, rows[shown].id, Ends(month), shown);
    } else if rows != [] {
      ActiveIsPick(rows, month);
      assert rows[|rows| - 1] in rows && WellDated(rows[|rows| - 1], month);
    }
  }
}
