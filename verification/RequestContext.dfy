/** What one request shares: its budget looked up once, and the mutation it has open with the client statements run on. */
module RequestContext {
  import opened Common

  /** A lookup's promise: pending, or settled once and for all with what every caller sharing it is answered. */
  datatype Flight = Pending | Answered(budget: Option<Id>) | Failed

  /**
   A call that runs work as a mutation, whether it is the one that opened the marker, and the flag of its own copy of
   the scope, which is set as long as its work runs.
   */
  datatype Call = Call(opens: bool, running: bool)

  datatype Scope = Scope(
    budget: Option<Id>,
    lookup: Option<nat>,
    source: Option<Id>,
    open: bool,
    flights: seq<Flight>,
    calls: seq<Call>)

  const FRESH := Scope(None, None, None, false, [], [])

  datatype Event =
    | Ask
    | Resolve(flight: nat, budget: Option<Id>)
    | Reject(flight: nat)
    | Record(id: Id)
    | Enter
    | Use(call: nat, client: Id)
    | Leave(call: nat, failed: bool)

  // ---- what each of them does to the scope ----

  /** What a caller asking for the budget is handed: the budget, or the flight to wait for. */
  datatype Handed = Known(budget: Id) | Waits(flight: nat)

  function HandedOut(s: Scope): Handed {
    if s.budget.Some? then Known(s.budget.value)
    else if s.lookup.Some? then Waits(s.lookup.value)
    else Waits(|s.flights|)
  }

  function AfterAsk(s: Scope): Scope {
    if s.budget.Some? || s.lookup.Some? then s
    else s.(flights := s.flights + [Pending], lookup := Some(|s.flights|))
  }

  predicate IsPending(s: Scope, flight: nat) {
    flight < |s.flights| && s.flights[flight].Pending?
  }

  /** A lookup that is no longer the current one answers nothing and records nothing. */
  function AfterResolve(s: Scope, flight: nat, budget: Option<Id>): Scope
    requires IsPending(s, flight)
  {
    if s.lookup != Some(flight) then s.(flights := s.flights[flight := Answered(None)])
    else if budget.None? then s.(flights := s.flights[flight := Answered(None)], lookup := None)
    else s.(flights := s.flights[flight := Answered(budget)], budget := budget)
  }

  function AfterReject(s: Scope, flight: nat): Scope
    requires IsPending(s, flight)
  {
    s.(flights := s.flights[flight := Failed], lookup := if s.lookup == Some(flight) then None else s.lookup)
  }

  /** A second budget for one request is refused. */
  predicate Records(s: Scope, id: Id) {
    s.budget.None? || s.budget.value == id
  }

  function AfterRecord(s: Scope, id: Id): Scope {
    if Records(s, id) then s.(budget := Some(id)) else s
  }

  function AfterEnter(s: Scope): Scope {
    s.(calls := s.calls + [Call(!s.open, true)], open := true)
  }

  predicate IsRunning(s: Scope, call: nat) {
    call < |s.calls| && s.calls[call].running
  }

  function AfterLeave(s: Scope, call: nat, failed: bool): Scope
    requires IsRunning(s, call)
  {
    var caught := if failed then s.(budget := None, lookup := None) else s;
    var left := caught.(calls := s.calls[call := s.calls[call].(running := false)]);
    if s.calls[call].opens then left.(open := false, source := None) else left
  }

  predicate Can(s: Scope, e: Event) {
    match e
    case Resolve(flight, _) => IsPending(s, flight)
    case Reject(flight) => IsPending(s, flight)
    case Use(call, _) => IsRunning(s, call)
    case Leave(call, _) => IsRunning(s, call)
    case _ => true
  }

  function After(s: Scope, e: Event): Scope
    requires Can(s, e)
  {
    match e
    case Ask => AfterAsk(s)
    case Resolve(flight, budget) => AfterResolve(s, flight, budget)
    case Reject(flight) => AfterReject(s, flight)
    case Record(id) => AfterRecord(s, id)
    case Enter => AfterEnter(s)
    case Use(_, client) => s.(source := Some(client))
    case Leave(call, failed) => AfterLeave(s, call, failed)
  }

  // ---- the object the request carries ----

  class Context {
    var budget: Option<Id>
    var lookup: Option<nat>
    var source: Option<Id>
    var open: bool
    var flights: seq<Flight>
    var calls: seq<Call>

    function State(): Scope
      reads this
    {
      Scope(budget, lookup, source, open, flights, calls)
    }

    constructor ()
      ensures State() == FRESH
    {
      budget, lookup, source, open, flights, calls := None, None, None, false, [], [];
    }

    method BudgetOnce() returns (handed: Handed)
      modifies this
      ensures handed == HandedOut(old(State())) && State() == After(old(State()), Ask)
    {
      if budget.Some? {
        return Known(budget.value);
      }
      if lookup.Some? {
        return Waits(lookup.value);
      }
      var inFlight := |flights|;
      flights := flights + [Pending];
      lookup := Some(inFlight);
      handed := Waits(inFlight);
    }

    method Resolved(inFlight: nat, found: Option<Id>)
      requires IsPending(State(), inFlight)
      modifies this
      ensures State() == After(old(State()), Resolve(inFlight, found))
    {
      if lookup != Some(inFlight) {
        flights := flights[inFlight := Answered(None)];
        return;
      }
      if found.None? {
        lookup := None;
      } else {
        budget := found;
      }
      flights := flights[inFlight := Answered(found)];
    }

    method Rejected(inFlight: nat)
      requires IsPending(State(), inFlight)
      modifies this
      ensures State() == After(old(State()), Reject(inFlight))
    {
      if lookup == Some(inFlight) {
        lookup := None;
      }
      flights := flights[inFlight := Failed];
    }

    method SetBudgetId(id: Id) returns (taken: bool)
      modifies this
      ensures taken <==> Records(old(State()), id)
      ensures State() == After(old(State()), Record(id))
    {
      taken := budget.None? || budget.value == id;
      if taken {
        budget := Some(id);
      }
    }

    method EnterMutation() returns (call: nat)
      modifies this
      ensures call == |old(calls)| && State() == After(old(State()), Enter)
    {
      call := |calls|;
      calls := calls + [Call(!open, true)];
      open := true;
    }

    /** The only caller is the work of a call, as the first thing in its database transaction. */
    method UseBudgetSource(call: nat, client: Id)
      requires IsRunning(State(), call)
      modifies this
      ensures State() == After(old(State()), Use(call, client))
    {
      source := Some(client);
    }

    method LeaveMutation(call: nat, failed: bool)
      requires IsRunning(State(), call)
      modifies this
      ensures State() == After(old(State()), Leave(call, failed))
    {
      if failed {
        budget := None;
        lookup := None;
      }
      var opens := calls[call].opens;
      calls := calls[call := calls[call].(running := false)];
      if opens {
        open := false;
        source := None;
      }
    }

    /** Whether code that runs in a call's copy of the scope, or outside all of them, is in a mutation. */
    method IsInMutation(call: Option<nat>) returns (inMutation: bool)
      requires call.Some? ==> call.value < |calls|
      ensures inMutation <==> call.Some? && IsRunning(State(), call.value)
    {
      inMutation := call.Some? && calls[call.value].running;
    }

    // ---- what the raw statements are let through on ----

    method MayRead(on: Option<Id>) returns (may: bool)
      ensures may <==> ReadRunsOn(State(), on)
    {
      if open {
        may := on.Some? && on == source;
      } else {
        may := on.None?;
      }
    }

    method MayWrite(on: Id) returns (may: bool)
      ensures may <==> WriteRunsOn(State(), on)
    {
      may := open && source == Some(on);
    }
  }

  /** A read outside a mutation takes no client; within one it takes the mutation's own. */
  predicate ReadRunsOn(s: Scope, on: Option<Id>) {
    if s.open then on.Some? && on == s.source else on.None?
  }

  predicate WriteRunsOn(s: Scope, on: Id) {
    s.open && s.source == Some(on)
  }

  // ---- runs ----

  ghost predicate IsRun(states: seq<Scope>, events: seq<Event>) {
    && |states| == |events| + 1 && states[0] == FRESH
    && forall i {:trigger events[i]} | 0 <= i < |events| :: Can(states[i], events[i]) && states[i + 1] == After(states[i], events[i])
  }

  predicate IsOpener(s: Scope, call: nat) {
    IsRunning(s, call) && s.calls[call].opens
  }

  /** The current lookup is still pending, or it has found the budget. */
  predicate IsCurrent(s: Scope, flight: nat) {
    flight < |s.flights| && (s.flights[flight].Pending? || (s.flights[flight].Answered? && s.budget.Some?))
  }

  /** What holds whatever the calls, answers and failures are interleaved with. */
  ghost predicate Kept(s: Scope) {
    && (s.lookup.Some? ==> IsCurrent(s, s.lookup.value))
    && (forall c: nat, d: nat | IsOpener(s, c) && IsOpener(s, d) :: c == d)
    && (s.open <==> exists c: nat :: IsOpener(s, c))
  }

  lemma EnterKeeps(s: Scope)
    requires Kept(s)
    ensures Kept(AfterEnter(s))
  {
    var after := AfterEnter(s);
    assert forall c: nat | c < |s.calls| :: IsOpener(after, c) <==> IsOpener(s, c);
    if !s.open {
      assert IsOpener(after, |s.calls|);
    } else {
      var c: nat :| IsOpener(s, c);
      assert IsOpener(after, c);
    }
  }

  lemma LeaveKeeps(s: Scope, call: nat, failed: bool)
    requires Kept(s) && IsRunning(s, call)
    ensures Kept(AfterLeave(s, call, failed))
  {
    var after := AfterLeave(s, call, failed);
    assert forall c: nat :: IsOpener(after, c) <==> IsOpener(s, c) && c != call;
    if s.calls[call].opens {
      assert IsOpener(s, call);
    } else if s.open {
      var c: nat :| IsOpener(s, c);
      assert IsOpener(after, c);
    }
  }

  lemma StepKeeps(s: Scope, e: Event)
    requires Kept(s) && Can(s, e)
    ensures Kept(After(s, e))
  {
    match e
    case Enter => EnterKeeps(s);
    case Leave(call, failed) => LeaveKeeps(s, call, failed);
    case _ =>
      assert forall c: nat :: IsOpener(After(s, e), c) <==> IsOpener(s, c);
      if s.open {
        var c: nat :| IsOpener(s, c);
        assert IsOpener(After(s, e), c);
      }
  }

  lemma {:induction false} RunKeeps(states: seq<Scope>, events: seq<Event>, i: nat)
    requires IsRun(states, events) && i < |states|
    ensures Kept(states[i])
  {
    if i > 0 {
      RunKeeps(states, events, i - 1);
      StepKeeps(states[i - 1], events[i - 1]);
      assert states[i - 1 + 1] == After(states[i - 1], events[i - 1]);
    } else {
      assert forall c: nat :: !IsOpener(FRESH, c);
    }
  }

  // ---- one lookup at a time, one answer ----

  /** Whoever asks while a lookup is pending is handed that lookup, and a second one is begun only when none is. */
  lemma AskersShare(states: seq<Scope>, events: seq<Event>, i: nat)
    requires IsRun(states, events) && i < |events| && events[i] == Ask
    ensures var s, after := states[i], states[i + 1];
            && (|after.flights| > |s.flights| ==> s.lookup.None? && s.budget.None?)
            && (HandedOut(s).Waits? ==> after.lookup == Some(HandedOut(s).flight) && IsPending(after, HandedOut(s).flight))
  {
    RunKeeps(states, events, i);
  }

  /** A flight that has settled keeps its answer, so all who share it are answered alike. */
  lemma {:induction false} SettledOnce(states: seq<Scope>, events: seq<Event>, i: nat, j: nat, flight: nat)
    requires IsRun(states, events) && i <= j < |states|
    requires flight < |states[i].flights|
    ensures flight < |states[j].flights|
    ensures !states[i].flights[flight].Pending? ==> states[j].flights[flight] == states[i].flights[flight]
    decreases j
  {
    if i < j {
      SettledOnce(states, events, i, j - 1, flight);
      assert states[j - 1 + 1] == After(states[j - 1], events[j - 1]);
    }
  }

  // ---- a failed mutation ----

  /** A lookup that was begun before a moment and is not current then never becomes current again. */
  lemma {:induction false} NeverCurrentAgain(states: seq<Scope>, events: seq<Event>, i: nat, j: nat, flight: nat)
    requires IsRun(states, events) && i <= j < |states|
    requires flight < |states[i].flights| && states[i].lookup != Some(flight)
    ensures flight < |states[j].flights| && states[j].lookup != Some(flight)
    decreases j
  {
    if i < j {
      NeverCurrentAgain(states, events, i, j - 1, flight);
      assert states[j - 1 + 1] == After(states[j - 1], events[j - 1]);
    }
  }

  /** After a mutation failed, a lookup begun before records no budget and answers its sharers with none. */
  lemma StaleLookupRecordsNothing(states: seq<Scope>, events: seq<Event>, i: nat, j: nat, flight: nat)
    requires IsRun(states, events) && i < j < |events| && flight < |states[i].flights|
    requires events[i].Leave? && events[i].failed && events[j].Resolve? && events[j].flight == flight
    ensures states[j + 1].budget == states[j].budget && states[j + 1].lookup == states[j].lookup
    ensures states[j + 1].flights[flight] == Answered(None)
  {
    assert states[i + 1] == After(states[i], events[i]);
    NeverCurrentAgain(states, events, i + 1, j, flight);
    assert states[j + 1] == After(states[j], events[j]);
  }

  /** The budget a request knows was recorded, or found by a lookup begun, after the last mutation that failed. */
  lemma {:induction false} BudgetIsRecent(states: seq<Scope>, events: seq<Event>, i: nat, j: nat)
    requires IsRun(states, events) && i < j < |states| && events[i].Leave? && events[i].failed && states[j].budget.Some?
    ensures exists k | i < k < j ::
              || events[k] == Record(states[j].budget.value)
              || (events[k].Resolve? && events[k].budget == states[j].budget && events[k].flight >= |states[i].flights|)
    decreases j
  {
    assert states[i + 1] == After(states[i], events[i]);
    var e := events[j - 1];
    assert states[j - 1 + 1] == After(states[j - 1], e);
    if i + 1 < j {
      if e.Resolve? && e.flight < |states[i].flights| {
        StaleLookupRecordsNothing(states, events, i, j - 1, e.flight);
      }
      if states[j].budget == states[j - 1].budget {
        BudgetIsRecent(states, events, i, j - 1);
      }
    }
  }

  // ---- the open mutation ----

  /** While a mutation is open exactly one running call is its opener; the marker goes when that call leaves, and not before. */
  lemma ClosedByItsOpener(states: seq<Scope>, events: seq<Event>, i: nat)
    requires IsRun(states, events) && i < |events| && states[i].open
    ensures exists c: nat :: IsOpener(states[i], c) && (states[i + 1].open <==> !(events[i].Leave? && events[i].call == c))
  {
    RunKeeps(states, events, i);
    var c: nat :| IsOpener(states[i], c);
    assert states[i + 1] == After(states[i], events[i]);
    if events[i].Leave? && states[i].calls[events[i].call].opens {
      assert IsOpener(states[i], events[i].call);
    }
    assert IsOpener(states[i], c) && (states[i + 1].open <==> !(events[i].Leave? && events[i].call == c));
  }

  /** The mutation service refuses to enter a mutation while one is open. */
  ghost predicate EntersAlone(states: seq<Scope>, events: seq<Event>) {
    |states| == |events| + 1 && forall k {:trigger events[k]} | 0 <= k < |events| && events[k] == Enter :: !states[k].open
  }

  /** Where a mutation is entered only with none open, one call runs at a time. */
  lemma {:induction false} OneCallAtATime(states: seq<Scope>, events: seq<Event>, i: nat, c: nat)
    requires IsRun(states, events) && EntersAlone(states, events) && i < |states|
    ensures IsRunning(states[i], c) ==> IsOpener(states[i], c)
  {
    if i > 0 {
      OneCallAtATime(states, events, i - 1, c);
      assert states[i - 1 + 1] == After(states[i - 1], events[i - 1]);
    }
  }

  /** The call that entered at e has had the marker set from then on, and is its opener still. */
  ghost predicate OpenSince(states: seq<Scope>, events: seq<Event>, e: int, j: int) {
    && 0 <= e < j < |states| && |states| == |events| + 1 && events[e] == Enter
    && (forall m | e < m <= j :: states[m].open)
    && IsOpener(states[j], |states[e].calls|)
  }

  ghost predicate HandedOver(states: seq<Scope>, events: seq<Event>, e: int, j: int, client: Id) {
    && 0 <= e < j < |states| && |states| == |events| + 1
    && exists k | e < k < j :: events[k] == Use(|states[e].calls|, client)
  }

  lemma StillOpen(states: seq<Scope>, events: seq<Event>, e: int, j: nat)
    requires IsRun(states, events) && EntersAlone(states, events) && j < |events|
    requires OpenSince(states, events, e, j) && states[j + 1].open
    ensures OpenSince(states, events, e, j + 1)
  {
    assert states[j + 1] == After(states[j], events[j]);
  }

  lemma StillHandedOver(states: seq<Scope>, events: seq<Event>, e: int, j: nat, client: Id)
    requires HandedOver(states, events, e, j, client) && j < |events|
    ensures HandedOver(states, events, e, j + 1, client)
  {
  }

  /** One more event: the client, if there is one then, was handed over by the opener since it entered. */
  lemma ClientAfter(states: seq<Scope>, events: seq<Event>, e: int, j: nat)
    requires IsRun(states, events) && EntersAlone(states, events) && j < |events| && states[j + 1].open
    requires OpenSince(states, events, e, j)
    requires states[j].source.Some? ==> HandedOver(states, events, e, j, states[j].source.value)
    requires states[j + 1].source.Some?
    ensures HandedOver(states, events, e, j + 1, states[j + 1].source.value)
  {
    assert states[j + 1] == After(states[j], events[j]);
    if events[j].Use? {
      OneCallAtATime(states, events, j, events[j].call);
      RunKeeps(states, events, j);
    } else {
      StillHandedOver(states, events, e, j, states[j].source.value);
    }
  }

  /** With no marker there is no client. */
  lemma {:induction false} ClosedHasNoClient(states: seq<Scope>, events: seq<Event>, j: nat)
    requires IsRun(states, events) && EntersAlone(states, events) && j < |states| && !states[j].open
    ensures states[j].source.None?
  {
    if j > 0 {
      var e := events[j - 1];
      assert states[j - 1 + 1] == After(states[j - 1], e);
      if e.Use? {
        OneCallAtATime(states, events, j - 1, e.call);
        RunKeeps(states, events, j - 1);
      }
      if !states[j - 1].open {
        ClosedHasNoClient(states, events, j - 1);
      }
    }
  }

  /** In every state with the marker set it has its opener, which handed over the client there is. */
  lemma {:induction false} ClientIsItsOwn(states: seq<Scope>, events: seq<Event>, j: nat) returns (e: nat)
    requires IsRun(states, events) && EntersAlone(states, events) && j < |states| && states[j].open
    ensures OpenSince(states, events, e, j)
    ensures states[j].source.Some? ==> HandedOver(states, events, e, j, states[j].source.value)
  {
    assert states[j - 1 + 1] == After(states[j - 1], events[j - 1]);
    if states[j - 1].open {
      e := ClientIsItsOwn(states, events, j - 1);
      StillOpen(states, events, e, j - 1);
      if states[j].source.Some? {
        ClientAfter(states, events, e, j - 1);
      }
    } else {
      e := j - 1;
      ClosedHasNoClient(states, events, j - 1);
    }
  }

  /**
   With a mutation open, the first of a request or a later one, every raw statement that is let through runs on a
   client the open mutation itself handed over after it was entered, and the marker was set all the time since.
   */
  lemma StatementsRunOnItsClient(states: seq<Scope>, events: seq<Event>, j: nat, on: Option<Id>) returns (e: nat)
    requires IsRun(states, events) && EntersAlone(states, events) && j < |states| && states[j].open
    ensures ReadRunsOn(states[j], on) <==> on.Some? && WriteRunsOn(states[j], on.value)
    ensures OpenSince(states, events, e, j)
    ensures ReadRunsOn(states[j], on) ==> on.Some? && HandedOver(states, events, e, j, on.value)
  {
    e := ClientIsItsOwn(states, events, j);
  }

  /** Outside a mutation a statement reads on no client and writes not at all; within one it runs on the client there is. */
  lemma StatementsDecide(s: Scope, on: Option<Id>, to: Id)
    ensures !s.open ==> (ReadRunsOn(s, on) <==> on == None) && !WriteRunsOn(s, to)
    ensures s.open ==> (ReadRunsOn(s, on) <==> on != None && s.source == on) && (WriteRunsOn(s, to) <==> s.source == Some(to))
  {
  }

  /** Without the refusal a call that outlives its opener hands its client over to the mutation entered next. */
  lemma NestedCallsLeak() returns (states: seq<Scope>, events: seq<Event>)
    ensures IsRun(states, events) && !EntersAlone(states, events)
    ensures var last := states[|events|]; last.open && ReadRunsOn(last, Some(7)) && events[|events| - 1] == Enter
  {
    events := [Enter, Enter, Leave(0, false), Use(1, 7), Enter];
    var s1 := After(FRESH, Enter);
    var s2 := After(s1, Enter);
    var s3 := After(s2, Leave(0, false));
    var s4 := After(s3, Use(1, 7));
    states := [FRESH, s1, s2, s3, s4, After(s4, Enter)];
    assert events[1] == Enter && states[1].open;
  }

  /** A call's flag is set exactly between its entering and its leaving, whatever else opens and closes. */
  lemma {:induction false} InMutationWhileItsWorkRuns(states: seq<Scope>, events: seq<Event>, j: nat, c: nat)
    requires IsRun(states, events) && j < |states|
    ensures IsRunning(states[j], c) <==>
              c < |states[j].calls| && forall k | 0 <= k < j && events[k].Leave? :: events[k].call != c
  {
    if j > 0 {
      InMutationWhileItsWorkRuns(states, events, j - 1, c);
      var e := events[j - 1];
      assert states[j - 1 + 1] == After(states[j - 1], e);
      if e == Enter && c == |states[j - 1].calls| {
        LeavesWereEntered(states, events, j - 1, c);
      }
    }
  }

  /** A call that is not entered yet has not left. */
  lemma {:induction false} LeavesWereEntered(states: seq<Scope>, events: seq<Event>, j: nat, c: nat)
    requires IsRun(states, events) && j < |states| && c >= |states[j].calls|
    ensures forall k | 0 <= k < j && events[k].Leave? :: events[k].call != c
  {
    if j > 0 {
      assert states[j - 1 + 1] == After(states[j - 1], events[j - 1]);
      LeavesWereEntered(states, events, j - 1, c);
    }
  }

  // ---- a budget recorded while a lookup is under way ----

  /** A known budget gives way to another one exactly when the current lookup, still under way, finds the other. */
  lemma BudgetGivesWay(s: Scope, e: Event)
    requires Can(s, e) && s.budget.Some?
    ensures var after := After(s, e).budget;
            (after.Some? && after != s.budget) <==>
              e.Resolve? && s.lookup == Some(e.flight) && e.budget.Some? && e.budget != s.budget
    ensures After(s, e).budget.None? <==> e.Leave? && e.failed
  {
  }

  /** It can: recording a budget does not call off the lookup that is under way. */
  lemma LookupOverwrites(mine: Id, found: Id) returns (states: seq<Scope>, events: seq<Event>)
    ensures IsRun(states, events) && Record(mine) in events
    ensures states[|events| - 1].budget == Some(mine) && states[|events|].budget == Some(found)
  {
    events := [Ask, Record(mine), Resolve(0, Some(found))];
    var s1 := After(FRESH, Ask);
    var s2 := After(s1, Record(mine));
    states := [FRESH, s1, s2, After(s2, Resolve(0, Some(found)))];
    assert events[1] == Record(mine);
  }

  // ---- what sharers are answered ----

  /** The current lookup answers what it finds and makes that the budget; finding none it makes room for another. */
  lemma ResolveAnswers(s: Scope, flight: nat, found: Option<Id>)
    requires IsPending(s, flight) && s.lookup == Some(flight)
    ensures var after := After(s, Resolve(flight, found));
            && after.flights[flight] == Answered(found)
            && (forall f | 0 <= f < |s.flights| && f != flight :: after.flights[f] == s.flights[f])
            && (found.Some? ==> after.budget == found && after.lookup == s.lookup)
            && (found.None? ==> after.budget == s.budget && after.lookup == None)
  {
  }

  /** Everyone who was handed a lookup is answered, from then on, what it found while it was the current one. */
  lemma SharersGetWhatWasFound(states: seq<Scope>, events: seq<Event>, i: nat, j: nat, k: nat)
    requires IsRun(states, events) && i < j < k < |states|
    requires events[i] == Ask && HandedOut(states[i]).Waits?
    requires events[j].Resolve? && events[j].flight == HandedOut(states[i]).flight && states[j].lookup == Some(events[j].flight)
    ensures HandedOut(states[i]).flight < |states[k].flights|
    ensures states[k].flights[HandedOut(states[i]).flight] == Answered(events[j].budget)
  {
    assert Can(states[j], events[j]) && states[j + 1] == After(states[j], events[j]);
    ResolveAnswers(states[j], events[j].flight, events[j].budget);
    SettledOnce(states, events, j + 1, k, events[j].flight);
  }

  /** A lookup that fails fails for its sharers, and makes room for another if it was the current one. */
  lemma RejectAnswers(s: Scope, flight: nat)
    requires IsPending(s, flight)
    ensures var after := After(s, Reject(flight));
            && after.flights[flight] == Failed && after.budget == s.budget
            && (forall f | 0 <= f < |s.flights| && f != flight :: after.flights[f] == s.flights[f])
            && after.lookup == (if s.lookup == Some(flight) then None else s.lookup)
  {
  }

  /** A budget is recorded where none is known, or the same; a different one changes nothing. */
  lemma RecordDecides(s: Scope, id: Id)
    ensures After(s, Record(id)).budget == (if s.budget.Some? then s.budget else Some(id))
    ensures Records(s, id) <==> s.budget == None || s.budget == Some(id)
    ensures After(s, Record(id)).(budget := s.budget) == s
  {
  }

  /** A call that leaves in failure takes budget and lookup with it; only the opener takes marker and client. */
  lemma LeaveDecides(s: Scope, call: nat, failed: bool)
    requires IsRunning(s, call)
    ensures var after := After(s, Leave(call, failed));
            && !after.calls[call].running && after.flights == s.flights
            && (if failed then after.budget == None && after.lookup == None else after.budget == s.budget && after.lookup == s.lookup)
            && (if s.calls[call].opens then !after.open && after.source == None else after.open == s.open && after.source == s.source)
            && forall c | 0 <= c < |s.calls| && c != call :: after.calls[c] == s.calls[c]
  {
  }

  /** Whoever asks is handed the budget if it is known, else the current lookup, else one that is begun for it. */
  lemma AskDecides(s: Scope)
    ensures s.budget.Some? ==> HandedOut(s) == Known(s.budget.value) && After(s, Ask) == s
    ensures s.budget.None? && s.lookup.Some? ==> HandedOut(s) == Waits(s.lookup.value) && After(s, Ask) == s
    ensures s.budget.None? && s.lookup.None? ==>
              && HandedOut(s) == Waits(|s.flights|) && After(s, Ask).lookup == Some(|s.flights|)
              && After(s, Ask).flights == s.flights + [Pending] && After(s, Ask).budget == None
  {
  }
}
