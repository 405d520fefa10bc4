/**
 The row locks under which an account is archived and a category is hidden. Locking, reading, writing and
 committing are separate steps of separate transactions, and a read sees what is committed. The rows are those of
 one table: an account with its balance, or a category with what it holds over every month.
 */
module Locks {
  import opened Common
  import opened Store

  datatype Row = Row(closed: bool, held: int)

  /** FOR SHARE, as a foreign key takes it too, or FOR UPDATE. */
  datatype Mode = Shared | Exclusive

  /**
   Close: archive an account, hide a category or a whole group. Pay: write records or transfer legs on accounts, or
   the two sides of a move. Settle: reconcile an account, or correct its opening while nothing else was written on it.
   Spend: write a record in a category, which is looked at without a lock; only the insert locks it, for its key.
   */
  datatype Job =
    | Close(ids: seq<Id>, wholeGroup: bool)
    | Pay(ids: seq<Id>, deltas: map<Id, int>, mode: Mode)
    | Settle(id: Id, target: int)
    | Spend(id: Id, delta: int)

  datatype Phase =
    | Looking
    | Locking(taken: nat)
    | Judged
    | Read(sums: map<Id, int>)
    | Wrote(deltas: map<Id, int>, closing: bool)
    | Committed
    | RolledBack

  /** What it wants, which rows it has locked and how each looked under its lock, and how far it has come. */
  datatype Process = Process(job: Job, seen: map<Id, bool>, phase: Phase)

  datatype World = World(rows: map<Id, Row>, processes: map<Id, Process>)

  /** The rows a job names, which it locks from the first to the last. */
  function Wanted(job: Job): seq<Id> {
    match job
    case Close(ids, _) => ids
    case Pay(ids, _, _) => ids
    case Settle(id, _) => [id]
    case Spend(id, _) => [id]
  }

  function ModeOf(job: Job): Mode {
    match job
    case Pay(_, _, mode) => mode
    case Spend(_, _) => Shared
    case _ => Exclusive
  }

  /** Sums up what its rows hold before it writes. */
  predicate Sums(job: Job) {
    job.Close? || job.Settle?
  }

  predicate Proper(job: Job) {
    && Ascending(Wanted(job))
    && (job.Pay? ==> forall a | a in job.deltas :: a in job.ids)
  }

  predicate Running(p: Process) {
    !p.phase.Committed? && !p.phase.RolledBack?
  }

  predicate Holds(p: Process, a: Id) {
    Running(p) && a in p.seen
  }

  predicate Compatible(p: Process, q: Process) {
    ModeOf(p.job) == Shared && ModeOf(q.job) == Shared
  }

  /** q holds the row p is about to lock, in a mode that makes p wait. */
  predicate Blocks(w: World, q: Id, p: Id) {
    && p in w.processes && q in w.processes && q != p
    && Waiting(w.processes[p])
    && Holds(w.processes[q], NextRow(w.processes[p]))
    && !Compatible(w.processes[p], w.processes[q])
  }

  predicate Waiting(p: Process) {
    p.phase.Locking? && p.phase.taken < |Wanted(p.job)|
  }

  function NextRow(p: Process): Id
    requires Waiting(p)
  {
    Wanted(p.job)[p.phase.taken]
  }

  datatype Event =
    | Create(a: Id, held: int)
    | Begin(p: Id, job: Job)
    | Look(p: Id)
    | Take(p: Id)
    | Judge(p: Id)
    | ReadSums(p: Id)
    | Write(p: Id)
    | Commit(p: Id)
    | RollBack(p: Id)

  predicate Enabled(w: World, e: Event) {
    match e
    case Create(a, _) => a !in w.rows
    case Begin(p, job) => p !in w.processes && Proper(job)
    case Look(p) => p in w.processes && w.processes[p].phase.Looking?
    case Take(p) => p in w.processes && Waiting(w.processes[p]) && forall q | q in w.processes :: !Blocks(w, q, p)
    case Judge(p) =>
      && p in w.processes && w.processes[p].phase.Locking? && !Waiting(w.processes[p])
    case ReadSums(p) => p in w.processes && w.processes[p].phase.Judged? && Sums(w.processes[p].job)
    case Write(p) =>
      && p in w.processes
      && (if Sums(w.processes[p].job) then w.processes[p].phase.Read? else w.processes[p].phase.Judged?)
    case Commit(p) => p in w.processes && w.processes[p].phase.Wrote?
    case RollBack(p) => p in w.processes && Running(w.processes[p])
  }

  function Begun(job: Job): Process {
    Process(job, map[], if job.Spend? then Looking else Locking(0))
  }

  function Put(w: World, p: Id, it: Process): World {
    w.(processes := w.processes[p := it])
  }

  /**
   A missing row refuses the write, and so does a closed one, unless a group is hidden around it; the insert of a
   record fails on a missing category and asks nothing more.
   */
  predicate Usable(p: Process) {
    forall a | a in Wanted(p.job) :: a in p.seen && (p.seen[a] ==> p.job.Spend? || (p.job.Close? && p.job.wholeGroup))
  }

  /** What a record's unlocked read of its category decides. */
  predicate Shown(rows: map<Id, Row>, a: Id) {
    a in rows && !rows[a].closed
  }

  function Paid(rows: map<Id, Row>, deltas: map<Id, int>): map<Id, Row> {
    map a | a in rows :: if a in deltas then rows[a].(held := rows[a].held + deltas[a]) else rows[a]
  }

  function Closed(rows: map<Id, Row>, ids: seq<Id>): map<Id, Row> {
    map a | a in rows :: if a in ids then rows[a].(closed := true) else rows[a]
  }

  function SumsOf(rows: map<Id, Row>, ids: seq<Id>): map<Id, int> {
    map a | a in ids && a in rows :: rows[a].held
  }

  /** What a process writes, from what it read and not from what the table holds by now. */
  function Written(job: Job, phase: Phase): Phase {
    match job
    case Pay(_, deltas, _) => Wrote(deltas, false)
    case Spend(id, delta) => Wrote(map[id := delta], false)
    case Settle(id, target) =>
      if phase.Read? && id in phase.sums then Wrote(map[id := target - phase.sums[id]], false) else RolledBack
    case Close(_, _) =>
      if phase.Read? && forall a | a in phase.sums :: phase.sums[a] == 0 then Wrote(map[], true) else RolledBack
  }

  function Next(w: World, e: Event): World
    requires Enabled(w, e)
  {
    match e
    case Create(a, held) => w.(rows := w.rows[a := Row(false, held)])
    case Begin(p, job) => Put(w, p, Begun(job))
    case Look(p) =>
      var it := w.processes[p];
      Put(w, p, it.(phase := if forall a | a in Wanted(it.job) :: Shown(w.rows, a) then Locking(0) else RolledBack))
    case Take(p) =>
      var it := w.processes[p];
      var a := NextRow(it);
      Put(w, p, it.(phase := Locking(it.phase.taken + 1),
                    seen := if a in w.rows then it.seen[a := w.rows[a].closed] else it.seen))
    case Judge(p) => Put(w, p, w.processes[p].(phase := if Usable(w.processes[p]) then Judged else RolledBack))
    case ReadSums(p) => Put(w, p, w.processes[p].(phase := Read(SumsOf(w.rows, Wanted(w.processes[p].job)))))
    case Write(p) => Put(w, p, w.processes[p].(phase := Written(w.processes[p].job, w.processes[p].phase)))
    case Commit(p) =>
      var it := w.processes[p];
      var paid := Paid(w.rows, it.phase.deltas);
      Put(w, p, it.(phase := Committed)).(rows := if it.phase.closing then Closed(paid, Wanted(it.job)) else paid)
    case RollBack(p) => Put(w, p, w.processes[p].(phase := RolledBack))
  }

  const START := World(map[], map[])

  ghost predicate IsHistory(worlds: seq<World>, events: seq<Event>) {
    && |worlds| == |events| + 1 && worlds[0] == START
    && forall i {:trigger events[i]} | 0 <= i < |events| :: Enabled(worlds[i], events[i]) && worlds[i + 1] == Next(worlds[i], events[i])
  }

  ghost predicate Possible(w: World) {
    exists worlds, events :: IsHistory(worlds, events) && worlds[|events|] == w
  }

  // ---- what every interleaving keeps ----

  ghost predicate LocksAgree(w: World) {
    forall p, q, a | p in w.processes && q in w.processes && p != q
                     && Holds(w.processes[p], a) && Holds(w.processes[q], a) :: Compatible(w.processes[p], w.processes[q])
  }

  /** What a process saw under its lock is still so. */
  ghost predicate SeenIsCurrent(w: World) {
    forall p, a | p in w.processes && Holds(w.processes[p], a) :: a in w.rows && w.processes[p].seen[a] == w.rows[a].closed
  }

  predicate LockedInOrder(p: Process) {
    && Proper(p.job)
    && (p.phase.Locking? ==>
          && p.phase.taken <= |Wanted(p.job)|
          && forall a | a in p.seen :: a in Wanted(p.job)[..p.phase.taken])
    && (p.phase.Looking? ==> p.seen == map[])
    && (Running(p) && !p.phase.Locking? && !p.phase.Looking? ==> Usable(p))
  }

  /** What a process read or is about to commit still fits the table. */
  predicate Current(rows: map<Id, Row>, p: Process) {
    match p.phase
    case Read(sums) => Sums(p.job) && sums == SumsOf(rows, Wanted(p.job))
    case Wrote(deltas, closing) =>
      && (closing <==> p.job.Close?)
      && (match p.job
          case Pay(_, wanted, _) => deltas == wanted
          case Spend(id, delta) => deltas == map[id := delta]
          case Settle(id, target) => id in rows && deltas == map[id := target - rows[id].held]
          case Close(ids, _) => deltas == map[] && forall a | a in ids :: a in rows && rows[a].held == 0)
    case _ => true
  }

  ghost predicate ProcessesAreSound(w: World) {
    forall p | p in w.processes :: LockedInOrder(w.processes[p]) && Current(w.rows, w.processes[p])
  }

  ghost predicate Kept(w: World) {
    && LocksAgree(w)
    && SeenIsCurrent(w)
    && ProcessesAreSound(w)
  }

  /** One process moves on without touching the table and without taking a new lock. */
  lemma AdvanceKeepsLocks(w: World, p: Id, it: Process)
    requires LocksAgree(w) && SeenIsCurrent(w) && p in w.processes && Running(w.processes[p])
    requires it.job == w.processes[p].job && it.seen == w.processes[p].seen
    ensures LocksAgree(Put(w, p, it)) && SeenIsCurrent(Put(w, p, it))
  {
    var after := Put(w, p, it);
    assert forall a | Holds(it, a) :: Holds(w.processes[p], a);
  }

  lemma AdvanceKeeps(w: World, p: Id, it: Process)
    requires Kept(w) && p in w.processes && Running(w.processes[p])
    requires it.job == w.processes[p].job && it.seen == w.processes[p].seen
    requires LockedInOrder(it) && Current(w.rows, it)
    ensures Kept(Put(w, p, it))
  {
    AdvanceKeepsLocks(w, p, it);
    var after := Put(w, p, it);
    forall q | q in after.processes
      ensures LockedInOrder(after.processes[q]) && Current(after.rows, after.processes[q])
    {
    }
  }

  lemma TakeKeepsLocks(w: World, p: Id)
    requires LocksAgree(w) && Enabled(w, Take(p))
    ensures LocksAgree(Next(w, Take(p)))
  {
    var after := Next(w, Take(p));
    var a := NextRow(w.processes[p]);
    forall q, r, b | q in after.processes && r in after.processes && q != r
                     && Holds(after.processes[q], b) && Holds(after.processes[r], b)
      ensures Compatible(after.processes[q], after.processes[r])
    {
      if q == p && b == a {
        assert !Blocks(w, r, p);
      } else if r == p && b == a {
        assert !Blocks(w, q, p);
      } else {
        assert Holds(w.processes[q], b) && Holds(w.processes[r], b);
      }
    }
  }

  lemma TakeKeepsOrder(w: World, p: Id)
    requires p in w.processes && LockedInOrder(w.processes[p]) && Enabled(w, Take(p))
    ensures LockedInOrder(Next(w, Take(p)).processes[p])
  {
    var it := w.processes[p];
    var ids := Wanted(it.job);
    assert ids[..it.phase.taken + 1] == ids[..it.phase.taken] + [NextRow(it)];
  }

  lemma TakeKeepsSeen(w: World, p: Id)
    requires SeenIsCurrent(w) && Enabled(w, Take(p))
    ensures SeenIsCurrent(Next(w, Take(p)))
  {
    var after := Next(w, Take(p));
    forall q, b | q in after.processes && Holds(after.processes[q], b)
      ensures b in after.rows && after.processes[q].seen[b] == after.rows[b].closed
    {
      assert Holds(w.processes[q], b) || (q == p && b == NextRow(w.processes[p]));
    }
  }

  lemma TakeKeeps(w: World, p: Id)
    requires Kept(w) && Enabled(w, Take(p))
    ensures Kept(Next(w, Take(p)))
  {
    TakeKeepsLocks(w, p);
    TakeKeepsOrder(w, p);
    TakeKeepsSeen(w, p);
    var after := Next(w, Take(p));
    forall q | q in after.processes
      ensures LockedInOrder(after.processes[q]) && Current(after.rows, after.processes[q])
    {
    }
  }

  /** A row locked for update is locked by nobody else. */
  lemma ExclusiveIsAlone(w: World, p: Id, q: Id, a: Id)
    requires LocksAgree(w) && p in w.processes && q in w.processes && p != q
    requires Holds(w.processes[p], a) && ModeOf(w.processes[p].job) == Exclusive
    ensures !Holds(w.processes[q], a)
  {
  }

  /** Whoever else is past locking and relies on a row's sum holds that row alone. */
  lemma UntouchedByCommit(w: World, p: Id, q: Id, a: Id)
    requires Kept(w) && Enabled(w, Commit(p)) && q in w.processes && q != p
    requires w.processes[q].phase.Read? || (w.processes[q].phase.Wrote? && Sums(w.processes[q].job))
    requires a in Wanted(w.processes[q].job)
    ensures a in w.rows && Next(w, Commit(p)).rows[a] == w.rows[a]
  {
    var it, other := w.processes[p], w.processes[q];
    assert LockedInOrder(other) && LockedInOrder(it) && Current(w.rows, it);
    assert Holds(other, a);
    ExclusiveIsAlone(w, q, p, a);
    assert a !in Wanted(it.job);
  }

  lemma CommitKeepsOthers(w: World, p: Id, q: Id)
    requires Kept(w) && Enabled(w, Commit(p)) && q in w.processes && q != p
    ensures Current(Next(w, Commit(p)).rows, w.processes[q])
  {
    var other, rows := w.processes[q], Next(w, Commit(p)).rows;
    assert Current(w.rows, other) && rows.Keys == w.rows.Keys;
    if other.phase.Read? || (other.phase.Wrote? && Sums(other.job)) {
      forall a | a in Wanted(other.job)
        ensures a in w.rows && rows[a] == w.rows[a]
      {
        UntouchedByCommit(w, p, q, a);
      }
    }
    StaysCurrent(w.rows, rows, other);
  }

  lemma StaysCurrent(rows: map<Id, Row>, after: map<Id, Row>, p: Process)
    requires Current(rows, p) && rows.Keys == after.Keys
    requires p.phase.Read? || (p.phase.Wrote? && Sums(p.job)) ==> forall a | a in Wanted(p.job) && a in rows :: after[a] == rows[a]
    ensures Current(after, p)
  {
    if p.phase.Read? {
      assert SumsOf(after, Wanted(p.job)) == SumsOf(rows, Wanted(p.job));
    }
  }

  /** A commit leaves the closed marks other processes saw as they were. */
  lemma CommitKeepsSeen(w: World, p: Id, q: Id, a: Id)
    requires Kept(w) && Enabled(w, Commit(p)) && q in w.processes && q != p && Holds(w.processes[q], a)
    ensures a in w.rows && Next(w, Commit(p)).rows[a].closed == w.rows[a].closed
  {
    var it := w.processes[p];
    assert LockedInOrder(it) && Current(w.rows, it);
    if it.phase.closing {
      assert !Holds(it, a);
    }
  }

  lemma CommitKeeps(w: World, p: Id)
    requires Kept(w) && Enabled(w, Commit(p))
    ensures Kept(Next(w, Commit(p)))
  {
    var after := Next(w, Commit(p));
    forall q | q in after.processes
      ensures LockedInOrder(after.processes[q]) && Current(after.rows, after.processes[q])
    {
      if q != p {
        CommitKeepsOthers(w, p, q);
      }
    }
    forall q, a | q in after.processes && Holds(after.processes[q], a)
      ensures a in after.rows && after.processes[q].seen[a] == after.rows[a].closed
    {
      CommitKeepsSeen(w, p, q, a);
    }
    CommitKeepsLocks(w, p);
  }

  lemma CommitKeepsLocks(w: World, p: Id)
    requires LocksAgree(w) && Enabled(w, Commit(p))
    ensures LocksAgree(Next(w, Commit(p)))
  {
    var after := Next(w, Commit(p));
    forall q, r, a | q in after.processes && r in after.processes && q != r
                     && Holds(after.processes[q], a) && Holds(after.processes[r], a)
      ensures Compatible(after.processes[q], after.processes[r])
    {
      assert Holds(w.processes[q], a) && Holds(w.processes[r], a);
    }
  }

  lemma EventKeeps(w: World, e: Event)
    requires Kept(w) && Enabled(w, e)
    ensures Kept(Next(w, e))
  {
    match e
    case Create(a, held) => CreateKeeps(w, a, held);
    case Begin(p, job) => BeginKeeps(w, p, job);
    case Look(p) =>
      AdvanceKeeps(w, p, Next(w, e).processes[p]);
    case Take(p) => TakeKeeps(w, p);
    case Judge(p) =>
      AdvanceKeeps(w, p, w.processes[p].(phase := if Usable(w.processes[p]) then Judged else RolledBack));
    case ReadSums(p) =>
      AdvanceKeeps(w, p, w.processes[p].(phase := Read(SumsOf(w.rows, Wanted(w.processes[p].job)))));
    case Write(p) => WriteKeeps(w, p);
    case Commit(p) => CommitKeeps(w, p);
    case RollBack(p) => AdvanceKeeps(w, p, w.processes[p].(phase := RolledBack));
  }

  lemma CreateKeepsOne(rows: map<Id, Row>, a: Id, row: Row, it: Process)
    requires a !in rows && Current(rows, it) && (forall b | b in Wanted(it.job) && it.phase.Read? :: b in rows)
    ensures Current(rows[a := row], it)
  {
    if it.phase.Read? {
      assert SumsOf(rows[a := row], Wanted(it.job)) == SumsOf(rows, Wanted(it.job));
    }
  }

  lemma CreateKeepsLocks(w: World, a: Id, row: Row)
    requires LocksAgree(w) && SeenIsCurrent(w) && a !in w.rows
    ensures LocksAgree(w.(rows := w.rows[a := row])) && SeenIsCurrent(w.(rows := w.rows[a := row]))
  {
  }

  lemma CreateKeepsProcess(w: World, a: Id, row: Row, p: Id)
    requires SeenIsCurrent(w) && ProcessesAreSound(w) && a !in w.rows && p in w.processes
    ensures LockedInOrder(w.processes[p]) && Current(w.rows[a := row], w.processes[p])
  {
    var it := w.processes[p];
    assert LockedInOrder(it) && Current(w.rows, it);
    if it.phase.Read? {
      forall b | b in Wanted(it.job)
        ensures b in w.rows
      {
        assert Holds(it, b);
      }
    }
    CreateKeepsOne(w.rows, a, row, it);
  }

  lemma CreateKeeps(w: World, a: Id, held: int)
    requires Kept(w) && a !in w.rows
    ensures Kept(w.(rows := w.rows[a := Row(false, held)]))
  {
    CreateKeepsLocks(w, a, Row(false, held));
    forall p | p in w.processes
      ensures LockedInOrder(w.processes[p]) && Current(w.rows[a := Row(false, held)], w.processes[p])
    {
      CreateKeepsProcess(w, a, Row(false, held), p);
    }
  }

  lemma BeginKeeps(w: World, p: Id, job: Job)
    requires Kept(w) && p !in w.processes && Proper(job)
    ensures Kept(Put(w, p, Begun(job)))
  {
    var after := Put(w, p, Begun(job));
    BeginHoldsNothing(w, p, job);
    forall q | q in after.processes
      ensures LockedInOrder(after.processes[q]) && Current(after.rows, after.processes[q])
    {
      assert q != p ==> LockedInOrder(w.processes[q]) && Current(w.rows, w.processes[q]);
    }
  }

  lemma BeginHoldsNothing(w: World, p: Id, job: Job)
    requires LocksAgree(w) && SeenIsCurrent(w) && p !in w.processes
    ensures var after := Put(w, p, Begun(job)); LocksAgree(after) && SeenIsCurrent(after)
  {
    var after := Put(w, p, Begun(job));
    assert forall q, a | q in after.processes && Holds(after.processes[q], a) ::
        q in w.processes && after.processes[q] == w.processes[q];
  }

  lemma WriteKeeps(w: World, p: Id)
    requires Kept(w) && Enabled(w, Write(p))
    ensures Kept(Next(w, Write(p)))
  {
    var it := w.processes[p];
    assert LockedInOrder(it) && Current(w.rows, it);
    forall a | a in Wanted(it.job)
      ensures a in w.rows && a in SumsOf(w.rows, Wanted(it.job))
    {
      assert Holds(it, a);
    }
    AdvanceKeeps(w, p, it.(phase := Written(it.job, it.phase)));
  }

  lemma {:induction false} HistoryKeeps(worlds: seq<World>, events: seq<Event>, i: nat)
    requires IsHistory(worlds, events) && i < |worlds|
    ensures Kept(worlds[i])
  {
    if i > 0 {
      HistoryKeeps(worlds, events, i - 1);
      EventKeeps(worlds[i - 1], events[i - 1]);
      assert worlds[i - 1 + 1] == Next(worlds[i - 1], events[i - 1]);
    }
  }

  lemma PossibleIsKept(w: World)
    requires Possible(w)
    ensures Kept(w)
  {
    var worlds, events :| IsHistory(worlds, events) && worlds[|events|] == w;
    HistoryKeeps(worlds, events, |events|);
  }

  // ---- what the locks are for ----

  /** The insert of a record found its category closed, which it did not look at again. */
  predicate IsLate(w: World, e: Event, a: Id) {
    && e.Commit? && e.p in w.processes && w.processes[e.p].job.Spend? && w.processes[e.p].job.id == a
    && a in w.processes[e.p].seen && w.processes[e.p].seen[a]
  }

  /** A row that is closed is written on by the late insert of a record, and by nothing else at all. */
  lemma ClosedIsFinal(w: World, e: Event, a: Id)
    requires Possible(w) && Enabled(w, e) && a in w.rows && w.rows[a].closed
    ensures a in Next(w, e).rows && Next(w, e).rows[a].closed
    ensures Next(w, e).rows[a] == w.rows[a] <==> !(IsLate(w, e, a) && w.processes[e.p].job.delta != 0)
    ensures IsLate(w, e, a) ==> Next(w, e).rows[a].held == w.rows[a].held + w.processes[e.p].job.delta
  {
    PossibleIsKept(w);
    if e.Commit? {
      var it := w.processes[e.p];
      assert LockedInOrder(it) && Current(w.rows, it);
      if a in Wanted(it.job) {
        assert Holds(it, a);
      }
    }
  }

  /** What late inserts have written on a row. */
  ghost function LateSum(worlds: seq<World>, events: seq<Event>, a: Id): int
    requires |worlds| == |events| + 1
  {
    if events == [] then 0
    else
      var n := |events| - 1;
      LateSum(worlds[..n + 1], events[..n], a) + if IsLate(worlds[n], events[n], a) then worlds[n].processes[events[n].p].job.delta else 0
  }

  lemma HistoryPrefix(worlds: seq<World>, events: seq<Event>)
    requires IsHistory(worlds, events) && events != []
    ensures var n := |events| - 1;
            IsHistory(worlds[..n + 1], events[..n]) && Enabled(worlds[n], events[n]) && worlds[n + 1] == Next(worlds[n], events[n])
  {
    var n := |events| - 1;
    assert worlds[n + 1] == Next(worlds[n], events[n]);
    forall i | 0 <= i < n
      ensures Enabled(worlds[i], events[i]) && worlds[..n + 1][i + 1] == Next(worlds[i], events[i])
    {
      assert worlds[i + 1] == Next(worlds[i], events[i]);
    }
  }

  /** A row that is still open has nothing late on it, and one step closes it only when it holds nothing. */
  lemma OpenIsNotLate(w: World, e: Event, a: Id)
    requires Possible(w) && Enabled(w, e) && !(a in w.rows && w.rows[a].closed)
    ensures !IsLate(w, e, a)
    ensures a in Next(w, e).rows && Next(w, e).rows[a].closed ==> Next(w, e).rows[a].held == 0
  {
    PossibleIsKept(w);
    if e.Commit? {
      var it := w.processes[e.p];
      assert LockedInOrder(it) && Current(w.rows, it);
      if a in it.seen {
        assert Holds(it, a);
      }
    }
  }

  /**
   In every interleaving an archived account, or a hidden category, holds exactly what records have written that
   looked at the category before it was hidden and inserted after: on every row without such a record, nothing.
   */
  lemma {:induction false} ClosedHoldsTheLate(worlds: seq<World>, events: seq<Event>, a: Id)
    requires IsHistory(worlds, events)
    ensures var w := worlds[|events|];
            LateSum(worlds, events, a) == if a in w.rows && w.rows[a].closed then w.rows[a].held else 0
    decreases |events|
  {
    if events != [] {
      var n := |events| - 1;
      HistoryPrefix(worlds, events);
      ClosedHoldsTheLate(worlds[..n + 1], events[..n], a);
      assert Possible(worlds[n]) by {
        assert IsHistory(worlds[..n + 1], events[..n]) && worlds[..n + 1][n] == worlds[n];
      }
      if a in worlds[n].rows && worlds[n].rows[a].closed {
        ClosedIsFinal(worlds[n], events[n], a);
      } else {
        OpenIsNotLate(worlds[n], events[n], a);
      }
    }
  }

  ghost predicate NobodyIsLate(worlds: seq<World>, events: seq<Event>, a: Id) {
    |worlds| == |events| + 1 && forall i {:trigger events[i]} | 0 <= i < |events| :: !IsLate(worlds[i], events[i], a)
  }

  lemma {:induction false} NothingLate(worlds: seq<World>, events: seq<Event>, a: Id)
    requires NobodyIsLate(worlds, events, a)
    ensures LateSum(worlds, events, a) == 0
    decreases |events|
  {
    if events != [] {
      var n := |events| - 1;
      assert !IsLate(worlds[n], events[n], a);
      NothingLate(worlds[..n + 1], events[..n], a);
    }
  }

  /** A row no record was late for holds nothing once it is closed, in whatever interleaving. */
  lemma ClosedHoldsNothing(worlds: seq<World>, events: seq<Event>, a: Id)
    requires IsHistory(worlds, events) && NobodyIsLate(worlds, events, a)
    requires a in worlds[|events|].rows && worlds[|events|].rows[a].closed
    ensures worlds[|events|].rows[a].held == 0
  {
    ClosedHoldsTheLate(worlds, events, a);
    NothingLate(worlds, events, a);
  }

  /** Accounts are written on under their locks alone, so an archived one never holds money and never changes. */
  lemma ArchivedHoldsNothing(worlds: seq<World>, events: seq<Event>, a: Id)
    requires IsHistory(worlds, events) && forall i | 0 <= i < |events| && events[i].Begin? :: !events[i].job.Spend?
    ensures NobodyIsLate(worlds, events, a)
    ensures a in worlds[|events|].rows && worlds[|events|].rows[a].closed ==> worlds[|events|].rows[a].held == 0
  {
    forall i | 0 <= i < |events|
      ensures !IsLate(worlds[i], events[i], a)
    {
      if events[i].Commit? && events[i].p in worlds[i].processes {
        JobWasBegun(worlds, events, i, events[i].p);
      }
    }
    if a in worlds[|events|].rows && worlds[|events|].rows[a].closed {
      ClosedHoldsNothing(worlds, events, a);
    }
  }

  lemma {:induction false} JobWasBegun(worlds: seq<World>, events: seq<Event>, i: nat, p: Id)
    requires IsHistory(worlds, events) && i < |worlds| && p in worlds[i].processes
    ensures exists k | 0 <= k < i :: events[k] == Begin(p, worlds[i].processes[p].job)
  {
    if i > 0 {
      assert worlds[i - 1 + 1] == Next(worlds[i - 1], events[i - 1]);
      if p in worlds[i - 1].processes {
        JobWasBegun(worlds, events, i - 1, p);
      }
    }
  }

  lemma Extended(worlds: seq<World>, events: seq<Event>, e: Event) returns (longer: seq<World>, more: seq<Event>)
    requires IsHistory(worlds, events) && Enabled(worlds[|events|], e)
    ensures IsHistory(longer, more) && longer[|more|] == Next(worlds[|events|], e)
  {
    longer, more := worlds + [Next(worlds[|events|], e)], events + [e];
  }

  /** A record has looked at a category that is shown and empty. */
  lemma Looked(delta: int) returns (worlds: seq<World>, events: seq<Event>)
    ensures IsHistory(worlds, events)
    ensures worlds[|events|] == World(map[0 := Row(false, 0)], map[0 := Process(Spend(0, delta), map[], Locking(0))])
  {
    worlds, events := Extended([START], [], Create(0, 0));
    worlds, events := Extended(worlds, events, Begin(0, Spend(0, delta)));
    worlds, events := Extended(worlds, events, Look(0));
  }

  /** A hide has locked the category and found it shown. */
  lemma HideAfterTheLook(delta: int) returns (worlds: seq<World>, events: seq<Event>)
    ensures IsHistory(worlds, events)
    ensures worlds[|events|] ==
              World(map[0 := Row(false, 0)],
                    map[0 := Process(Spend(0, delta), map[], Locking(0)),
                        1 := Process(Close([0], false), map[0 := false], Judged)])
  {
    worlds, events := Looked(delta);
    worlds, events := Extended(worlds, events, Begin(1, Close([0], false)));
    worlds, events := Extended(worlds, events, Take(1));
    worlds, events := Extended(worlds, events, Judge(1));
  }

  /** The hide reads the sum, marks the category and commits. */
  lemma HiddenAfterTheLook(delta: int) returns (worlds: seq<World>, events: seq<Event>)
    ensures IsHistory(worlds, events)
    ensures worlds[|events|] ==
              World(map[0 := Row(true, 0)],
                    map[0 := Process(Spend(0, delta), map[], Locking(0)),
                        1 := Process(Close([0], false), map[0 := false], Committed)])
  {
    worlds, events := HideAfterTheLook(delta);
    worlds, events := Extended(worlds, events, ReadSums(1));
    worlds, events := Extended(worlds, events, Write(1));
    worlds, events := Extended(worlds, events, Commit(1));
  }

  /** The record goes on to insert, and the hidden category holds its money. */
  lemma HiddenCanHoldALateRecord(delta: int) returns (worlds: seq<World>, events: seq<Event>)
    ensures IsHistory(worlds, events)
    ensures worlds[|events|].rows == map[0 := Row(true, delta)]
  {
    worlds, events := HiddenAfterTheLook(delta);
    worlds, events := Extended(worlds, events, Take(0));
    worlds, events := Extended(worlds, events, Judge(0));
    worlds, events := Extended(worlds, events, Write(0));
    worlds, events := Extended(worlds, events, Commit(0));
  }

  /** What was judged under a lock is so when the process commits, though others have committed in between. */
  lemma JudgedIsStillSo(w: World, p: Id, a: Id)
    requires Possible(w) && Enabled(w, Commit(p)) && a in Wanted(w.processes[p].job)
    ensures a in w.rows
    ensures var job := w.processes[p].job;
            && (job.Pay? || job.Settle? || (job.Close? && !job.wholeGroup) ==> !w.rows[a].closed)
            && (job.Close? ==> w.rows[a].held == 0)
  {
    PossibleIsKept(w);
    var it := w.processes[p];
    assert LockedInOrder(it) && Current(w.rows, it);
    assert Holds(it, a);
  }

  /** A reconciliation that commits leaves the very balance it was given, whatever else was in flight. */
  lemma SettledExactly(w: World, p: Id)
    requires Possible(w) && Enabled(w, Commit(p)) && w.processes[p].job.Settle?
    ensures var job := w.processes[p].job; job.id in w.rows && Next(w, Commit(p)).rows[job.id].held == job.target
  {
    PossibleIsKept(w);
    assert Current(w.rows, w.processes[p]);
  }

  // ---- what each step decides ----

  /** A record is refused if its category is missing, or hidden already, when it looks at it. */
  lemma LookDecides(w: World, p: Id)
    requires Possible(w) && Enabled(w, Look(p)) && w.processes[p].job.Spend?
    ensures var it, a := Next(w, Look(p)).processes[p], w.processes[p].job.id;
            && it.job == w.processes[p].job
            && it.phase == if a in w.rows && !w.rows[a].closed then Locking(0) else RolledBack
  {
    assert w.processes[p].job.id in Wanted(w.processes[p].job);
  }

  /** A payment and a reconciliation are refused a row that is missing or closed; so is a close, but for a whole group. */
  lemma JudgeDecides(w: World, p: Id)
    requires Possible(w) && Enabled(w, Judge(p))
    ensures var job := w.processes[p].job;
            Next(w, Judge(p)).processes[p].phase ==
              if forall a | a in Wanted(job) :: a in w.processes[p].seen && a in w.rows
                                                && (w.rows[a].closed ==> job.Spend? || (job.Close? && job.wholeGroup))
              then Judged else RolledBack
  {
    PossibleIsKept(w);
    var it := w.processes[p];
    assert forall a | a in it.seen :: Holds(it, a);
  }

  /** What was read is still so: a close goes on exactly over rows that hold nothing. */
  lemma CloseDecides(w: World, p: Id)
    requires Possible(w) && Enabled(w, Write(p)) && w.processes[p].job.Close?
    ensures forall a | a in w.processes[p].job.ids :: a in w.rows
    ensures Next(w, Write(p)).processes[p].phase ==
              if forall a | a in w.processes[p].job.ids :: w.rows[a].held == 0 then Wrote(map[], true) else RolledBack
  {
    PossibleIsKept(w);
    var it := w.processes[p];
    assert LockedInOrder(it) && Current(w.rows, it);
    assert forall a | a in it.job.ids :: Holds(it, a);
    assert forall a | a in it.job.ids :: a in it.phase.sums && it.phase.sums[a] == w.rows[a].held;
  }

  /** What a commit leaves in a row, by the job: paid into, settled, closed, or as it was. */
  lemma CommitDecides(w: World, p: Id, a: Id)
    requires Possible(w) && Enabled(w, Commit(p)) && a in w.rows
    ensures var job, after := w.processes[p].job, Next(w, Commit(p)).rows;
            && after.Keys == w.rows.Keys
            && after[a] == match job
                           case Close(ids, _) => Row(w.rows[a].closed || a in ids, w.rows[a].held)
                           case Pay(_, deltas, _) => Row(w.rows[a].closed, w.rows[a].held + if a in deltas then deltas[a] else 0)
                           case Settle(id, target) => Row(w.rows[a].closed, if a == id then target else w.rows[a].held)
                           case Spend(id, delta) => Row(w.rows[a].closed, w.rows[a].held + if a == id then delta else 0)
  {
    PossibleIsKept(w);
    assert LockedInOrder(w.processes[p]) && Current(w.rows, w.processes[p]);
  }

  predicate WritesRecords(job: Job) {
    job.Spend? || (job.Pay? && job.mode == Shared)
  }

  /** The next row is locked unless another holds it, and writers of records do not wait for one another. */
  lemma TakeDecides(w: World, p: Id)
    requires p in w.processes && w.processes[p].phase.Locking? && w.processes[p].phase.taken < |Wanted(w.processes[p].job)|
    ensures var it := w.processes[p];
            var a := Wanted(it.job)[it.phase.taken];
            && (Enabled(w, Take(p)) <==>
                  forall q | q in w.processes && q != p && Holds(w.processes[q], a) :: WritesRecords(it.job) && WritesRecords(w.processes[q].job))
            && (Enabled(w, Take(p)) ==>
                  var after := Next(w, Take(p));
                  && after.rows == w.rows && after.processes[p].phase == Locking(it.phase.taken + 1)
                  && (a in after.processes[p].seen <==> a in it.seen || a in w.rows)
                  && (a in w.rows ==> after.processes[p].seen[a] == w.rows[a].closed))
  {
    var it := w.processes[p];
    forall q | q in w.processes
      ensures Blocks(w, q, p) <==>
                q != p && Holds(w.processes[q], NextRow(it)) && !(WritesRecords(it.job) && WritesRecords(w.processes[q].job))
    {
    }
  }

  /** Two that hold one row at a time only write records on it; whoever else holds a row holds it alone. */
  lemma HoldersShare(w: World, p: Id, q: Id, a: Id)
    requires Possible(w) && p in w.processes && q in w.processes && p != q
    requires Holds(w.processes[p], a) && Holds(w.processes[q], a)
    ensures forall r | r == p || r == q ::
              var job := w.processes[r].job; job.Spend? || (job.Pay? && job.mode == Shared)
  {
    PossibleIsKept(w);
  }

  // ---- no deadlock ----

  /** Whoever makes another wait either waits for a later row or waits for nothing. */
  lemma WaitsAscend(w: World, p: Id, q: Id, r: Id)
    requires Possible(w) && Blocks(w, q, p) && Blocks(w, r, q)
    ensures NextRow(w.processes[p]) < NextRow(w.processes[q])
  {
    PossibleIsKept(w);
    var it := w.processes[q];
    assert LockedInOrder(it);
    var a := NextRow(w.processes[p]);
    assert a in Wanted(it.job)[..it.phase.taken];
  }

  /** A chain of processes, each waiting for the next. */
  predicate WaitChain(w: World, chain: seq<Id>) {
    forall i | 0 <= i < |chain| - 1 :: Blocks(w, chain[i + 1], chain[i])
  }

  lemma {:induction false} ChainAscends(w: World, chain: seq<Id>, i: nat, j: nat)
    requires Possible(w) && WaitChain(w, chain) && i < j < |chain| - 1
    ensures Blocks(w, chain[i + 1], chain[i]) && Blocks(w, chain[j + 1], chain[j])
    ensures NextRow(w.processes[chain[i]]) < NextRow(w.processes[chain[j]])
    decreases j
  {
    WaitsAscend(w, chain[j - 1], chain[j], chain[j + 1]);
    if i < j - 1 {
      ChainAscends(w, chain, i, j - 1);
    }
  }

  /** Nobody waits, through any number of others, for itself. */
  lemma NoCycle(w: World, chain: seq<Id>)
    requires Possible(w) && WaitChain(w, chain) && 2 <= |chain|
    ensures chain[0] != chain[|chain| - 1]
  {
    var n := |chain| - 1;
    assert Blocks(w, chain[1], chain[0]);
    if chain[0] == chain[n] && n > 1 {
      assert Blocks(w, chain[n], chain[n - 1]);
      ChainAscends(w, chain, 0, n - 1);
      WaitsAscend(w, chain[n - 1], chain[n], chain[1]);
      assert false;
    }
  }

  predicate CanMove(w: World, p: Id) {
    || Enabled(w, Look(p)) || Enabled(w, Take(p)) || Enabled(w, Judge(p)) || Enabled(w, ReadSums(p)) || Enabled(w, Write(p))
    || Enabled(w, Commit(p))
  }

  /** The processes waiting for a row after this one. */
  function WaitingBeyond(w: World, a: Id): set<Id> {
    set q | q in w.processes && Waiting(w.processes[q]) && a < NextRow(w.processes[q])
  }

  /** A process that is not waiting for a row can always go on, and one that waits is blocked by another. */
  lemma StuckIsBlocked(w: World, p: Id) returns (r: Id)
    requires ProcessesAreSound(w) && p in w.processes && Running(w.processes[p]) && !CanMove(w, p)
    ensures Blocks(w, r, p)
  {
    assert Current(w.rows, w.processes[p]);
    r :| r in w.processes && Blocks(w, r, p);
  }

  lemma FewerBeyond(w: World, p: Id, r: Id)
    requires p in w.processes && r in w.processes && Waiting(w.processes[p]) && Waiting(w.processes[r])
    requires NextRow(w.processes[p]) < NextRow(w.processes[r])
    ensures |WaitingBeyond(w, NextRow(w.processes[r]))| < |WaitingBeyond(w, NextRow(w.processes[p]))|
  {
    FewerThan(WaitingBeyond(w, NextRow(w.processes[r])), WaitingBeyond(w, NextRow(w.processes[p])), r);
  }

  /** As long as somebody runs, somebody can take the next step; at the end of every wait is one who can. */
  lemma {:induction false} SomebodyMoves(w: World, p: Id) returns (q: Id)
    requires Possible(w) && p in w.processes && Running(w.processes[p])
    ensures q in w.processes && Running(w.processes[q]) && CanMove(w, q)
    decreases if Waiting(w.processes[p]) then |WaitingBeyond(w, NextRow(w.processes[p]))| else 0
  {
    PossibleIsKept(w);
    if CanMove(w, p) {
      return p;
    }
    var r := StuckIsBlocked(w, p);
    if CanMove(w, r) {
      return r;
    }
    var t := StuckIsBlocked(w, r);
    WaitsAscend(w, p, r, t);
    FewerBeyond(w, p, r);
    q := SomebodyMoves(w, r);
  }

  lemma FewerThan(small: set<Id>, large: set<Id>, x: Id)
    requires small <= large && x in large && x !in small
    ensures |small| < |large|
  {
    assert small <= large - {x};
    SubsetIsSmaller(small, large - {x});
  }

  lemma {:induction false} SubsetIsSmaller(small: set<Id>, large: set<Id>)
    requires small <= large
    ensures |small| <= |large|
  {
    if small != {} {
      var x :| x in small;
      SubsetIsSmaller(small - {x}, large - {x});
    }
  }
}
