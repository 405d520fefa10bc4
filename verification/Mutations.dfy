/**
 The single write point. Each attempt claims its key, does its work and stores the result in one database
 transaction; attempts interleave freely, and an insert of a key another open transaction holds waits for it.
 */
module Mutations {
  import opened Common
  import opened Ledger
  import opened Store
  import opened Runs
  import opened Fingerprints
  import Conservation
  import Hiding

  /** What an attempt is for: one ledger operation, or erasing everything the caller owns. */
  datatype Work = Apply(command: Command) | Erase

  datatype Phase =
    | Starting
    | Holding               // the claim is inserted, the transaction is open
    | Clashed               // a unique violation rolled it back; the first attempt has to be looked up
    | Answered(result: nat)
    | Conflicted            // 409: the key belongs to a different request
    | Failed

  datatype Attempt = Attempt(key: string, request: Json, work: Work, phase: Phase)

  datatype Claim = Claim(fingerprint: Json, result: nat)

  /** One committed transaction. */
  datatype Entry = Entry(attempt: Id, key: string, work: Work, result: nat)

  datatype World = World(claims: map<string, Claim>, attempts: map<Id, Attempt>, log: seq<Entry>, ledger: Db)

  const START := World(map[], map[], [], EMPTY)

  datatype Event =
    | Arrive(a: Id, key: string, request: Json, work: Work)
    | Insert(a: Id)
    | Commit(a: Id, result: nat, spared: set<string>)
    | Refuse(a: Id)
    | RollBack(a: Id)
    | WorkClashes(a: Id)
    | LookUp(a: Id)

  predicate In(w: World, a: Id, phase: Phase) {
    a in w.attempts && w.attempts[a].phase == phase
  }

  /** Somebody's open transaction holds the key, so an insert of it waits. */
  predicate HeldByAnother(w: World, a: Id) {
    && a in w.attempts
    && exists b :: b in w.attempts && b != a && w.attempts[b].phase == Holding && w.attempts[b].key == w.attempts[a].key
  }

  ghost predicate Accepted(ledger: Db, work: Work) {
    work.Apply? ==> Supplied(ledger, work.command) && Does(ledger, work.command).Writes?
  }

  ghost function Worked(ledger: Db, work: Work): Db {
    match work
    case Apply(c) => Step(ledger, c)
    case Erase => EMPTY
  }

  ghost predicate Enabled(w: World, e: Event) {
    match e
    case Arrive(a, _, request, _) => a !in w.attempts && Keyed(request) && Canonical(request).Some?
    case Insert(a) => In(w, a, Starting) && (w.attempts[a].key in w.claims || !HeldByAnother(w, a))
    case Commit(a, _, _) => In(w, a, Holding) && Accepted(w.ledger, w.attempts[a].work)
    case Refuse(a) =>
      && In(w, a, Holding) && w.attempts[a].work.Apply?
      && Does(w.ledger, w.attempts[a].work.command).Stops?
    case RollBack(a) => In(w, a, Holding)
    case WorkClashes(a) => In(w, a, Holding)
    case LookUp(a) => In(w, a, Clashed)
  }

  function Moved(w: World, a: Id, phase: Phase): World
    requires a in w.attempts
  {
    w.(attempts := w.attempts[a := w.attempts[a].(phase := phase)])
  }

  function Spared(claims: map<string, Claim>, spared: set<string>): map<string, Claim> {
    map k | k in claims && k in spared :: claims[k]
  }

  function FingerprintOf(request: Json): Json {
    if Canonical(request).Some? then Canonical(request).value else Foreign
  }

  /** What the lookup after a clash finds: the key may have been erased, or claimed for another request. */
  function Found(w: World, a: Id): Phase
    requires a in w.attempts
  {
    var it := w.attempts[a];
    if it.key !in w.claims then Failed
    else if w.claims[it.key].fingerprint != FingerprintOf(it.request) then Conflicted
    else Answered(w.claims[it.key].result)
  }

  /**
   Erasing deletes every claim its statement saw but the one the erasing request carries; it may spare what was
   committed after that statement.
   */
  ghost function Next(w: World, e: Event): World
    requires Enabled(w, e)
  {
    match e
    case Arrive(a, key, request, work) => w.(attempts := w.attempts[a := Attempt(key, request, work, Starting)])
    case Insert(a) => Moved(w, a, if w.attempts[a].key in w.claims then Clashed else Holding)
    case Commit(a, result, spared) =>
      var it := w.attempts[a];
      var claim := Claim(FingerprintOf(it.request), result);
      Moved(w, a, Answered(result))
        .(claims := if it.work.Erase? then Spared(w.claims, spared)[it.key := claim] else w.claims[it.key := claim],
          log := w.log + [Entry(a, it.key, it.work, result)],
          ledger := Worked(w.ledger, it.work))
    case Refuse(a) => Moved(w, a, Failed)
    case RollBack(a) => Moved(w, a, Failed)
    case WorkClashes(a) => Moved(w, a, Clashed)
    case LookUp(a) => Moved(w, a, Found(w, a))
  }

  ghost predicate IsHistory(worlds: seq<World>, events: seq<Event>) {
    && |worlds| == |events| + 1 && worlds[0] == START
    && forall i {:trigger events[i]} | 0 <= i < |events| :: Enabled(worlds[i], events[i]) && worlds[i + 1] == Next(worlds[i], events[i])
  }

  ghost predicate Possible(w: World) {
    exists worlds, events :: IsHistory(worlds, events) && worlds[|events|] == w
  }

  // ---- what every interleaving keeps ----

  /** No erase was committed after this entry, so its claim is still there. */
  predicate Live(log: seq<Entry>, i: nat) {
    forall m | i < m < |log| :: !log[m].work.Erase?
  }

  predicate ErasedBetween(log: seq<Entry>, i: int, j: int) {
    exists m :: i < m < j && 0 <= m < |log| && log[m].work.Erase?
  }

  ghost predicate EntriesAreAnswered(w: World) {
    forall i | 0 <= i < |w.log| ::
      && w.log[i].attempt in w.attempts
      && w.attempts[w.log[i].attempt].key == w.log[i].key
      && w.attempts[w.log[i].attempt].work == w.log[i].work
      && w.attempts[w.log[i].attempt].phase == Answered(w.log[i].result)
  }

  ghost predicate OneEntryAnAttempt(w: World) {
    forall i, j | 0 <= i < j < |w.log| :: w.log[i].attempt != w.log[j].attempt
  }

  ghost predicate RepeatsAreErased(w: World) {
    forall i, j | 0 <= i < j < |w.log| && w.log[i].key == w.log[j].key :: ErasedBetween(w.log, i, j)
  }

  ghost predicate ClaimOf(w: World, i: int, key: string) {
    && 0 <= i < |w.log| && w.log[i].key == key && w.log[i].attempt in w.attempts && key in w.claims
    && w.claims[key] == Claim(FingerprintOf(w.attempts[w.log[i].attempt].request), w.log[i].result)
  }

  ghost predicate ClaimsAreEntries(w: World) {
    && (forall i | 0 <= i < |w.log| && Live(w.log, i) :: ClaimOf(w, i, w.log[i].key))
    && (forall k | k in w.claims :: exists i :: ClaimOf(w, i, k))
  }

  ghost predicate HoldersAreAlone(w: World) {
    && (forall a | In(w, a, Holding) :: w.attempts[a].key !in w.claims)
    && (forall a, b | In(w, a, Holding) && In(w, b, Holding) && w.attempts[a].key == w.attempts[b].key :: a == b)
  }

  /** The committed attempt an answer or a conflict was read from. */
  ghost predicate Source(w: World, a: Id, i: int) {
    && a in w.attempts && 0 <= i < |w.log| && w.log[i].attempt in w.attempts && w.log[i].key == w.attempts[a].key
    && match w.attempts[a].phase
       case Answered(result) =>
         && w.log[i].result == result
         && FingerprintOf(w.attempts[w.log[i].attempt].request) == FingerprintOf(w.attempts[a].request)
       case Conflicted =>
         FingerprintOf(w.attempts[w.log[i].attempt].request) != FingerprintOf(w.attempts[a].request)
       case _ => true
  }

  ghost predicate AnswersHaveSources(w: World) {
    forall a | a in w.attempts && (w.attempts[a].phase.Answered? || w.attempts[a].phase.Conflicted?) ::
      exists i :: Source(w, a, i)
  }

  predicate RequestsIdentify(w: World) {
    forall a | a in w.attempts :: Keyed(w.attempts[a].request) && Canonical(w.attempts[a].request).Some?
  }

  ghost function Folded(log: seq<Entry>): Db {
    if log == [] then EMPTY else Worked(Folded(log[..|log| - 1]), log[|log| - 1].work)
  }

  ghost predicate Kept(w: World) {
    && EntriesAreAnswered(w)
    && OneEntryAnAttempt(w)
    && RepeatsAreErased(w)
    && ClaimsAreEntries(w)
    && HoldersAreAlone(w)
    && AnswersHaveSources(w)
    && RequestsIdentify(w)
    && w.ledger == Folded(w.log)
    && Reachable(w.ledger)
  }

  // ---- steps that commit nothing ----

  predicate Settled(phase: Phase) {
    phase.Answered? || phase.Conflicted?
  }

  lemma NoEntryYet(w: World, a: Id)
    requires EntriesAreAnswered(w) && a in w.attempts && !w.attempts[a].phase.Answered?
    ensures forall i | 0 <= i < |w.log| :: w.log[i].attempt != a
  {
  }

  lemma PhaseKeepsClaims(w: World, a: Id, phase: Phase)
    requires EntriesAreAnswered(w) && ClaimsAreEntries(w) && a in w.attempts && !w.attempts[a].phase.Answered?
    ensures ClaimsAreEntries(Moved(w, a, phase))
  {
    var after := Moved(w, a, phase);
    NoEntryYet(w, a);
    forall k | k in after.claims
      ensures exists i :: ClaimOf(after, i, k)
    {
      var i :| ClaimOf(w, i, k);
      assert ClaimOf(after, i, k);
    }
    forall i | 0 <= i < |after.log| && Live(after.log, i)
      ensures ClaimOf(after, i, after.log[i].key)
    {
      assert ClaimOf(w, i, w.log[i].key);
    }
  }

  lemma PhaseKeepsSources(w: World, a: Id, phase: Phase)
    requires AnswersHaveSources(w) && a in w.attempts
    requires Settled(phase) ==> exists i :: Source(Moved(w, a, phase), a, i)
    ensures AnswersHaveSources(Moved(w, a, phase))
  {
    var after := Moved(w, a, phase);
    forall b | b in after.attempts && (after.attempts[b].phase.Answered? || after.attempts[b].phase.Conflicted?)
      ensures exists i :: Source(after, b, i)
    {
      if b != a {
        var i :| Source(w, b, i);
        assert Source(after, b, i);
      }
    }
  }

  lemma PhaseKeepsHolders(w: World, a: Id, phase: Phase)
    requires HoldersAreAlone(w) && a in w.attempts
    requires phase == Holding ==> w.attempts[a].key !in w.claims && !HeldByAnother(w, a)
    ensures HoldersAreAlone(Moved(w, a, phase))
  {
  }

  lemma PhaseKeepsTables(w: World, a: Id, phase: Phase)
    requires EntriesAreAnswered(w) && OneEntryAnAttempt(w) && RepeatsAreErased(w) && RequestsIdentify(w)
    requires a in w.attempts && !w.attempts[a].phase.Answered?
    ensures var after := Moved(w, a, phase);
            EntriesAreAnswered(after) && OneEntryAnAttempt(after) && RepeatsAreErased(after) && RequestsIdentify(after)
  {
    NoEntryYet(w, a);
  }

  /** An attempt that was not answered changes phase, and nothing is committed. */
  lemma PhaseKeeps(w: World, a: Id, phase: Phase)
    requires Kept(w) && a in w.attempts && !w.attempts[a].phase.Answered?
    requires phase == Holding ==> w.attempts[a].key !in w.claims && !HeldByAnother(w, a)
    requires Settled(phase) ==> exists i :: Source(Moved(w, a, phase), a, i)
    ensures Kept(Moved(w, a, phase))
  {
    PhaseKeepsTables(w, a, phase);
    PhaseKeepsClaims(w, a, phase);
    PhaseKeepsSources(w, a, phase);
    PhaseKeepsHolders(w, a, phase);
  }

  lemma ArriveKeepsClaims(w: World, a: Id, it: Attempt)
    requires ClaimsAreEntries(w) && EntriesAreAnswered(w) && a !in w.attempts
    ensures ClaimsAreEntries(w.(attempts := w.attempts[a := it]))
  {
    var after := w.(attempts := w.attempts[a := it]);
    forall k | k in after.claims
      ensures exists i :: ClaimOf(after, i, k)
    {
      var i :| ClaimOf(w, i, k);
      assert ClaimOf(after, i, k);
    }
    forall i | 0 <= i < |after.log| && Live(after.log, i)
      ensures ClaimOf(after, i, after.log[i].key)
    {
      assert ClaimOf(w, i, w.log[i].key);
    }
  }

  lemma ArriveKeepsSources(w: World, a: Id, it: Attempt)
    requires AnswersHaveSources(w) && a !in w.attempts && !Settled(it.phase)
    ensures AnswersHaveSources(w.(attempts := w.attempts[a := it]))
  {
    var after := w.(attempts := w.attempts[a := it]);
    forall b | b in after.attempts && (after.attempts[b].phase.Answered? || after.attempts[b].phase.Conflicted?)
      ensures exists i :: Source(after, b, i)
    {
      var i :| Source(w, b, i);
      assert Source(after, b, i);
    }
  }

  lemma ArriveKeepsTables(w: World, a: Id, it: Attempt)
    requires EntriesAreAnswered(w) && OneEntryAnAttempt(w) && RepeatsAreErased(w) && HoldersAreAlone(w)
    requires a !in w.attempts && it.phase == Starting
    ensures var after := w.(attempts := w.attempts[a := it]);
            EntriesAreAnswered(after) && OneEntryAnAttempt(after) && RepeatsAreErased(after) && HoldersAreAlone(after)
  {
  }

  lemma ArriveKeeps(w: World, a: Id, it: Attempt)
    requires Kept(w) && a !in w.attempts && it.phase == Starting
    requires Keyed(it.request) && Canonical(it.request).Some?
    ensures Kept(w.(attempts := w.attempts[a := it]))
  {
    ArriveKeepsTables(w, a, it);
    ArriveKeepsClaims(w, a, it);
    ArriveKeepsSources(w, a, it);
  }

  /** What a lookup answers with comes from the entry behind the claim. */
  lemma LookUpSource(w: World, a: Id)
    requires ClaimsAreEntries(w) && EntriesAreAnswered(w) && In(w, a, Clashed)
    ensures Found(w, a) != Holding
    ensures Settled(Found(w, a)) ==> exists i :: Source(Moved(w, a, Found(w, a)), a, i)
  {
    if w.attempts[a].key in w.claims {
      var i :| ClaimOf(w, i, w.attempts[a].key);
      NoEntryYet(w, a);
      assert Source(Moved(w, a, Found(w, a)), a, i);
    }
  }

  lemma LookUpKeeps(w: World, a: Id)
    requires Kept(w) && In(w, a, Clashed)
    ensures Kept(Moved(w, a, Found(w, a)))
  {
    LookUpSource(w, a);
    PhaseKeeps(w, a, Found(w, a));
  }

  // ---- the step that commits ----

  lemma CommitKeepsLog(w: World, a: Id, result: nat, spared: set<string>)
    requires EntriesAreAnswered(w) && OneEntryAnAttempt(w) && In(w, a, Holding)
    requires Accepted(w.ledger, w.attempts[a].work)
    ensures EntriesAreAnswered(Next(w, Commit(a, result, spared))) && OneEntryAnAttempt(Next(w, Commit(a, result, spared)))
  {
    NoEntryYet(w, a);
  }

  /** A key nobody claims was either never committed or erased since. */
  lemma UnclaimedWasErased(w: World, i: nat)
    requires ClaimsAreEntries(w) && i < |w.log| && w.log[i].key !in w.claims
    ensures ErasedBetween(w.log, i, |w.log|)
  {
    assert !ClaimOf(w, i, w.log[i].key);
  }

  lemma CommitKeepsRepeats(w: World, a: Id, result: nat, spared: set<string>)
    requires ClaimsAreEntries(w) && RepeatsAreErased(w) && HoldersAreAlone(w) && In(w, a, Holding)
    requires Accepted(w.ledger, w.attempts[a].work)
    ensures RepeatsAreErased(Next(w, Commit(a, result, spared)))
  {
    var log := Next(w, Commit(a, result, spared)).log;
    forall i, j | 0 <= i < j < |log| && log[i].key == log[j].key
      ensures ErasedBetween(log, i, j)
    {
      if j == |w.log| {
        UnclaimedWasErased(w, i);
      } else {
        assert w.log[i].key == w.log[j].key;
      }
      ErasedInPrefix(w.log, log[|w.log|], i, j);
    }
  }

  lemma ErasedInPrefix(log: seq<Entry>, next: Entry, i: nat, j: nat)
    requires i < j <= |log| && ErasedBetween(log, i, j)
    ensures ErasedBetween(log + [next], i, j)
  {
    var m :| i < m < j && 0 <= m < |log| && log[m].work.Erase?;
    assert (log + [next])[m] == log[m];
  }

  /** An entry no later erase was committed after keeps its claim, and the new entry has its own. */
  lemma LiveAfterCommit(w: World, a: Id, result: nat, spared: set<string>, i: nat)
    requires EntriesAreAnswered(w) && ClaimsAreEntries(w) && HoldersAreAlone(w) && In(w, a, Holding)
    requires Accepted(w.ledger, w.attempts[a].work)
    requires i < |w.log| + 1 && Live(Next(w, Commit(a, result, spared)).log, i)
    ensures ClaimOf(Next(w, Commit(a, result, spared)), i, Next(w, Commit(a, result, spared)).log[i].key)
  {
    var after, n := Next(w, Commit(a, result, spared)), |w.log|;
    NoEntryYet(w, a);
    if i < n {
      assert !after.log[n].work.Erase?;
      assert Live(w.log, i) by {
        forall m | i < m < n
          ensures !w.log[m].work.Erase?
        {
          assert after.log[m] == w.log[m];
        }
      }
      assert ClaimOf(w, i, w.log[i].key);
    }
  }

  /** A claim another entry made and that is still there is that entry's still. */
  lemma ClaimAfterCommit(w: World, a: Id, result: nat, spared: set<string>, k: string) returns (i: nat)
    requires EntriesAreAnswered(w) && ClaimsAreEntries(w) && In(w, a, Holding)
    requires Accepted(w.ledger, w.attempts[a].work)
    requires k in Next(w, Commit(a, result, spared)).claims && k != w.attempts[a].key
    ensures ClaimOf(Next(w, Commit(a, result, spared)), i, k)
  {
    var after := Next(w, Commit(a, result, spared));
    i :| ClaimOf(w, i, k);
    assert after.log[i] == w.log[i] && after.claims[k] == w.claims[k];
  }

  lemma CommitKeepsClaims(w: World, a: Id, result: nat, spared: set<string>)
    requires EntriesAreAnswered(w) && ClaimsAreEntries(w) && HoldersAreAlone(w) && In(w, a, Holding)
    requires Accepted(w.ledger, w.attempts[a].work)
    ensures ClaimsAreEntries(Next(w, Commit(a, result, spared)))
  {
    var after := Next(w, Commit(a, result, spared));
    forall i | 0 <= i < |after.log| && Live(after.log, i)
      ensures ClaimOf(after, i, after.log[i].key)
    {
      LiveAfterCommit(w, a, result, spared, i);
    }
    forall k | k in after.claims
      ensures exists i :: ClaimOf(after, i, k)
    {
      if k == w.attempts[a].key {
        LiveAfterCommit(w, a, result, spared, |w.log|);
      } else {
        var i := ClaimAfterCommit(w, a, result, spared, k);
      }
    }
  }

  lemma CommitKeepsSources(w: World, a: Id, result: nat, spared: set<string>)
    requires EntriesAreAnswered(w) && AnswersHaveSources(w) && In(w, a, Holding)
    requires Accepted(w.ledger, w.attempts[a].work)
    ensures AnswersHaveSources(Next(w, Commit(a, result, spared)))
  {
    var after := Next(w, Commit(a, result, spared));
    NoEntryYet(w, a);
    assert Source(after, a, |w.log|);
    forall b | b in after.attempts && (after.attempts[b].phase.Answered? || after.attempts[b].phase.Conflicted?)
      ensures exists i :: Source(after, b, i)
    {
      if b != a {
        var i :| Source(w, b, i);
        SourceAfterCommit(w, a, result, spared, b, i);
      }
    }
  }

  lemma SourceAfterCommit(w: World, a: Id, result: nat, spared: set<string>, b: Id, i: int)
    requires In(w, a, Holding) && Accepted(w.ledger, w.attempts[a].work) && b != a && Source(w, b, i)
    ensures Source(Next(w, Commit(a, result, spared)), b, i)
  {
    assert Next(w, Commit(a, result, spared)).log[i] == w.log[i];
  }

  lemma CommitKeepsHolders(w: World, a: Id, result: nat, spared: set<string>)
    requires HoldersAreAlone(w) && In(w, a, Holding) && Accepted(w.ledger, w.attempts[a].work)
    ensures HoldersAreAlone(Next(w, Commit(a, result, spared)))
  {
    var after := Next(w, Commit(a, result, spared));
    forall b | In(after, b, Holding)
      ensures after.attempts[b].key !in after.claims
    {
      assert In(w, b, Holding) && b != a;
    }
  }

  lemma CommitKeepsLedger(w: World, a: Id, result: nat, spared: set<string>)
    requires w.ledger == Folded(w.log) && Reachable(w.ledger) && In(w, a, Holding)
    requires Accepted(w.ledger, w.attempts[a].work)
    ensures var after := Next(w, Commit(a, result, spared)); after.ledger == Folded(after.log) && Reachable(after.ledger)
  {
    var after := Next(w, Commit(a, result, spared));
    assert after.log[..|after.log| - 1] == w.log;
    if w.attempts[a].work.Apply? {
      Hiding.ReachableNext(w.ledger, w.attempts[a].work.command);
    } else {
      EmptyIsReachable();
    }
  }

  lemma EmptyIsReachable()
    ensures Reachable(EMPTY)
  {
    var commands: seq<Command> := [];
    assert IsRun([EMPTY], commands) && [EMPTY][0] == EMPTY && [EMPTY][|commands|] == EMPTY;
  }

  lemma CommitKeepsTables(w: World, a: Id, result: nat, spared: set<string>)
    requires EntriesAreAnswered(w) && OneEntryAnAttempt(w) && RepeatsAreErased(w) && ClaimsAreEntries(w) && HoldersAreAlone(w)
    requires In(w, a, Holding) && Accepted(w.ledger, w.attempts[a].work)
    ensures var after := Next(w, Commit(a, result, spared));
            EntriesAreAnswered(after) && OneEntryAnAttempt(after) && RepeatsAreErased(after) && HoldersAreAlone(after)
  {
    CommitKeepsLog(w, a, result, spared);
    CommitKeepsRepeats(w, a, result, spared);
    CommitKeepsHolders(w, a, result, spared);
  }

  lemma CommitKeepsRequests(w: World, a: Id, result: nat, spared: set<string>)
    requires RequestsIdentify(w) && In(w, a, Holding) && Accepted(w.ledger, w.attempts[a].work)
    ensures RequestsIdentify(Next(w, Commit(a, result, spared)))
  {
  }

  lemma CommitKeeps(w: World, a: Id, result: nat, spared: set<string>)
    requires Kept(w) && In(w, a, Holding) && Accepted(w.ledger, w.attempts[a].work)
    ensures Kept(Next(w, Commit(a, result, spared)))
  {
    CommitKeepsTables(w, a, result, spared);
    CommitKeepsClaims(w, a, result, spared);
    CommitKeepsSources(w, a, result, spared);
    CommitKeepsRequests(w, a, result, spared);
    CommitKeepsLedger(w, a, result, spared);
  }

  lemma EventKeeps(w: World, e: Event)
    requires Kept(w) && Enabled(w, e)
    ensures Kept(Next(w, e))
  {
    match e
    case Arrive(a, key, request, work) => ArriveKeeps(w, a, Attempt(key, request, work, Starting));
    case Insert(a) => PhaseKeeps(w, a, if w.attempts[a].key in w.claims then Clashed else Holding);
    case Commit(a, result, spared) => CommitKeeps(w, a, result, spared);
    case Refuse(a) => PhaseKeeps(w, a, Failed);
    case RollBack(a) => PhaseKeeps(w, a, Failed);
    case WorkClashes(a) => PhaseKeeps(w, a, Clashed);
    case LookUp(a) => LookUpKeeps(w, a);
  }

  lemma {:induction false} HistoryKeeps(worlds: seq<World>, events: seq<Event>, i: nat)
    requires IsHistory(worlds, events) && i < |worlds|
    ensures Kept(worlds[i])
  {
    if i == 0 {
      EmptyIsReachable();
    } else {
      HistoryKeeps(worlds, events, i - 1);
      EventKeeps(worlds[i - 1], events[i - 1]);
      assert worlds[i - 1 + 1] == Next(worlds[i - 1], events[i - 1]);
    }
  }

  lemma PossibleIsKept(w: World)
    requires Possible(w)
    ensures Kept(w)
  {
    var worlds, events :| IsHistory(worlds, events) && worlds[|events|] == w;
    HistoryKeeps(worlds, events, |events|);
  }

  // ---- what a caller may rely on ----

  /** At most one commit a key, however many attempts carried it and however they interleaved, until an erase. */
  lemma OnceAKey(w: World, i: nat, j: nat)
    requires Possible(w) && i < j < |w.log| && w.log[i].key == w.log[j].key
    ensures ErasedBetween(w.log, i, j)
  {
    PossibleIsKept(w);
  }

  lemma SourceOf(w: World, a: Id) returns (i: nat)
    requires Possible(w) && a in w.attempts && Settled(w.attempts[a].phase)
    ensures Source(w, a, i)
    ensures MeaningOf(w.attempts[w.log[i].attempt].request) == MeaningOf(w.attempts[a].request) <==>
              FingerprintOf(w.attempts[w.log[i].attempt].request) == FingerprintOf(w.attempts[a].request)
  {
    PossibleIsKept(w);
    i :| Source(w, a, i);
    assert RequestsIdentify(w);
    FingerprintIsMeaning(w.attempts[w.log[i].attempt].request, w.attempts[a].request);
  }

  /** An answer is the stored result of a committed attempt that carried the same key and meant the same. */
  lemma AnswerIsCommitted(w: World, a: Id) returns (i: nat)
    requires Possible(w) && a in w.attempts && w.attempts[a].phase.Answered?
    ensures i < |w.log| && w.log[i].key == w.attempts[a].key && w.attempts[a].phase == Answered(w.log[i].result)
    ensures w.log[i].attempt in w.attempts
    ensures MeaningOf(w.attempts[w.log[i].attempt].request) == MeaningOf(w.attempts[a].request)
  {
    i := SourceOf(w, a);
  }

  /** A conflict is answered only to a request that means something else than the one that took the key. */
  lemma ConflictIsReal(w: World, a: Id) returns (i: nat)
    requires Possible(w) && a in w.attempts && w.attempts[a].phase.Conflicted?
    ensures i < |w.log| && w.log[i].key == w.attempts[a].key && w.log[i].attempt in w.attempts
    ensures MeaningOf(w.attempts[w.log[i].attempt].request) != MeaningOf(w.attempts[a].request)
  {
    i := SourceOf(w, a);
  }

  /** Without an erase, everybody who is answered under one key is answered the same. */
  lemma SameKeySameAnswer(w: World, a: Id, b: Id)
    requires Possible(w) && forall i | 0 <= i < |w.log| :: !w.log[i].work.Erase?
    requires a in w.attempts && b in w.attempts && w.attempts[a].key == w.attempts[b].key
    requires w.attempts[a].phase.Answered? && w.attempts[b].phase.Answered?
    ensures w.attempts[a].phase == w.attempts[b].phase
  {
    var i := AnswerIsCommitted(w, a);
    var j := AnswerIsCommitted(w, b);
    if i < j {
      OnceAKey(w, i, j);
    } else if j < i {
      OnceAKey(w, j, i);
    }
  }

  /** An attempt that failed, or was told of a conflict, has committed nothing and holds no claim. */
  lemma FailureLeavesNothing(w: World, a: Id)
    requires Possible(w) && a in w.attempts && !w.attempts[a].phase.Answered?
    ensures forall i | 0 <= i < |w.log| :: w.log[i].attempt != a
    ensures forall k | k in w.claims :: exists i :: ClaimOf(w, i, k) && w.log[i].attempt != a
  {
    PossibleIsKept(w);
    forall k | k in w.claims
      ensures exists i :: ClaimOf(w, i, k) && w.log[i].attempt != a
    {
      var i :| ClaimOf(w, i, k);
    }
  }

  /** The ledger is the committed works in the order they were committed, and its books always balance. */
  lemma LedgerIsTheLog(w: World)
    requires Possible(w)
    ensures w.ledger == Folded(w.log)
    ensures OpenTotal(w.ledger) == ReadyToAssign(w.ledger) + EnvelopesTotal(w.ledger)
  {
    PossibleIsKept(w);
    Conservation.AlwaysConserved(w.ledger);
  }

  /** While the key is free, an honest retry goes through and is the only thing the ledger gains. */
  lemma {:induction false} RetryGoesThrough(w: World, a: Id, key: string, request: Json, work: Work, result: nat, spared: set<string>)
    requires a !in w.attempts && Keyed(request) && Canonical(request).Some?
    requires key !in w.claims && forall b | In(w, b, Holding) :: w.attempts[b].key != key
    requires Accepted(w.ledger, work)
    ensures Enabled(w, Arrive(a, key, request, work))
    ensures var w1 := Next(w, Arrive(a, key, request, work));
            && Enabled(w1, Insert(a))
            && var w2 := Next(w1, Insert(a));
               && Enabled(w2, Commit(a, result, spared))
               && Next(w2, Commit(a, result, spared)).log == w.log + [Entry(a, key, work, result)]
               && Next(w2, Commit(a, result, spared)).ledger == Worked(w.ledger, work)
  {
    var w1 := Next(w, Arrive(a, key, request, work));
    forall b | b in w1.attempts && b != a && w1.attempts[b].phase == Holding
      ensures w1.attempts[b].key != key
    {
      assert In(w, b, Holding);
    }
  }

  /** The key is free for whoever inserts it first: nobody waits but for an open transaction that holds the key. */
  lemma InsertDecides(w: World, a: Id)
    requires In(w, a, Starting)
    ensures var key := w.attempts[a].key;
            && (key in w.claims ==> Enabled(w, Insert(a)) && In(Next(w, Insert(a)), a, Clashed))
            && (key !in w.claims ==>
                  && (Enabled(w, Insert(a)) <==> forall b | b in w.attempts && b != a && w.attempts[b].phase == Holding :: w.attempts[b].key != key)
                  && (Enabled(w, Insert(a)) ==> In(Next(w, Insert(a)), a, Holding)))
  {
  }

  lemma ClaimedLookUp(w: World, a: Id) returns (i: int)
    requires ClaimsAreEntries(w) && RequestsIdentify(w) && In(w, a, Clashed) && w.attempts[a].key in w.claims
    ensures 0 <= i < |w.log| && w.log[i].key == w.attempts[a].key && w.log[i].attempt in w.attempts
    ensures Found(w, a) == if MeaningOf(w.attempts[a].request) == MeaningOf(w.attempts[w.log[i].attempt].request)
                           then Answered(w.log[i].result) else Conflicted
  {
    i :| ClaimOf(w, i, w.attempts[a].key);
    FingerprintIsMeaning(w.attempts[w.log[i].attempt].request, w.attempts[a].request);
  }

  /** A clash is looked up: erased since, it fails; the same intent is answered, another is told of the conflict. */
  lemma LookUpDecides(w: World, a: Id) returns (i: int)
    requires Possible(w) && In(w, a, Clashed)
    ensures var it, after := w.attempts[a], Next(w, LookUp(a));
            && after.claims == w.claims && after.log == w.log && after.ledger == w.ledger
            && (it.key !in w.claims ==> In(after, a, Failed))
            && (it.key in w.claims ==>
                  && 0 <= i < |w.log| && w.log[i].key == it.key && w.log[i].attempt in w.attempts
                  && In(after, a, if MeaningOf(it.request) == MeaningOf(w.attempts[w.log[i].attempt].request)
                                  then Answered(w.log[i].result) else Conflicted))
  {
    PossibleIsKept(w);
    i := 0;
    if w.attempts[a].key in w.claims {
      i := ClaimedLookUp(w, a);
    }
  }

  /** A commit writes the claim, the answer and the work together, and erasing keeps at least its own key. */
  lemma CommitDecides(w: World, a: Id, result: nat, spared: set<string>)
    requires In(w, a, Holding) && Accepted(w.ledger, w.attempts[a].work)
    ensures var it, after := w.attempts[a], Next(w, Commit(a, result, spared));
            && In(after, a, Answered(result)) && after.log == w.log + [Entry(a, it.key, it.work, result)]
            && it.key in after.claims && after.claims[it.key].result == result
            && (it.work.Erase? ==> after.ledger == EMPTY)
            && (it.work.Apply? ==> after.ledger == Step(w.ledger, it.work.command))
            && (forall k | k in w.claims && k != it.key && it.work.Apply? :: k in after.claims && after.claims[k] == w.claims[k])
            && (forall k | k in after.claims && k != it.key :: k in w.claims && after.claims[k] == w.claims[k])
            && forall b | b in w.attempts && b != a :: after.attempts[b] == w.attempts[b]
  {
  }

  /** Whatever else can end an attempt leaves claims, log and ledger as they were. */
  lemma FailureDecides(w: World, e: Event)
    requires Enabled(w, e) && (e.Refuse? || e.RollBack? || e.WorkClashes?)
    ensures var after := Next(w, e);
            && after.claims == w.claims && after.log == w.log && after.ledger == w.ledger
            && In(after, e.a, if e.WorkClashes? then Clashed else Failed)
            && (e.Refuse? ==> w.attempts[e.a].work.Apply? && !Accepted(w.ledger, w.attempts[e.a].work))
  {
  }

  /** A repeat of a claimed request is answered with the first attempt's stored result and writes nothing. */
  lemma {:induction false} RepeatIsReplayed(w: World, a: Id, i: nat, request: Json, work: Work)
    requires Possible(w) && a !in w.attempts && i < |w.log| && Live(w.log, i)
    requires w.log[i].attempt in w.attempts
    requires Keyed(request) && Canonical(request).Some?
    ensures var key := w.log[i].key;
            && Enabled(w, Arrive(a, key, request, work))
            && var w1 := Next(w, Arrive(a, key, request, work));
               && Enabled(w1, Insert(a))
               && var w2 := Next(w1, Insert(a));
                  && Enabled(w2, LookUp(a))
                  && var w3 := Next(w2, LookUp(a));
                     && w3.log == w.log && w3.ledger == w.ledger && w3.claims == w.claims
                     && a in w3.attempts
                     && w3.attempts[a].phase ==
                          if MeaningOf(request) == MeaningOf(w.attempts[w.log[i].attempt].request)
                          then Answered(w.log[i].result) else Conflicted
  {
    PossibleIsKept(w);
    assert ClaimOf(w, i, w.log[i].key);
    FingerprintIsMeaning(w.attempts[w.log[i].attempt].request, request);
  }
}
