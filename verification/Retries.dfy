/**
 The client's half of the protocol: the form a move is sent from, which key a save carries and what a failed one
 leaves behind, over a network that loses answers.
 */
module Retries {
  import opened Common
  import opened Fingerprints
  import Mutations

  /** What a save came back as: nothing at all, or a refusal with its status and reason. */
  datatype Failure = NoAnswer | Status(code: int, reason: Option<string>)

  datatype Kind = CONFLICT | BUDGET | NETWORK | OTHER

  function KindOf(f: Failure): Kind {
    match f
    case NoAnswer => NETWORK
    case Status(code, reason) =>
      if code == 409 then CONFLICT
      else if code == 400 && reason == Some("NO_ACTIVE_BUDGET") then BUDGET
      else OTHER
  }

  predicate KeepsTheKey(kind: Kind) {
    kind == NETWORK
  }

  predicate KeepsThePopoverOpen(kind: Kind) {
    kind != BUDGET
  }

  predicate RereadsTheMonth(kind: Kind) {
    kind != NETWORK && kind != BUDGET
  }

  datatype Body = Body(key: string, request: Json, work: Mutations.Work)

  datatype Outcome = Outstanding | Answered | Failed(kind: Kind)

  /**
   One sending: the attempt it becomes if it arrives, its body, what came back, and whether its handler has run to
   the end. After an answer the handler waits for the month to be read again and only then takes the spinner away.
   */
  datatype Sending = Sending(attempt: Id, body: Body, outcome: Outcome, done: bool)

  /** The key of the popover that is open, the body to send again, the spinner, and the reading after a discard. */
  datatype State = State(
    moving: Option<string>,
    sent: Option<Body>,
    pending: bool,
    settling: bool,
    sendings: seq<Sending>)

  const EMPTY_FORM := State(None, None, false, false, [])

  datatype Event =
    | Open(minted: string)
    | Close
    | Submit(attempt: Id, request: Json, work: Mutations.Work)
    | Retry(attempt: Id)
    | Succeed(sending: nat)
    | Fail(sending: nat, failure: Failure, minted: string)
    | Finish(sending: nat)
    | Discard
    | Settle

  predicate Used(s: State, key: string) {
    exists i | 0 <= i < |s.sendings| :: s.sendings[i].body.key == key
  }

  /** A minted key is one no sending has carried, and a sending comes back once. */
  predicate Can(s: State, e: Event) {
    match e
    case Open(minted) => !Used(s, minted)
    case Succeed(i) => i < |s.sendings| && s.sendings[i].outcome.Outstanding?
    case Fail(i, _, minted) => i < |s.sendings| && s.sendings[i].outcome.Outstanding? && !Used(s, minted)
    case Finish(i) => i < |s.sendings| && !s.sendings[i].outcome.Outstanding? && !s.sendings[i].done
    case _ => true
  }

  predicate Free(s: State) {
    !s.pending && s.sent.None? && !s.settling
  }

  function Send(s: State, attempt: Id, body: Body): State {
    s.(pending := true, sendings := s.sendings + [Sending(attempt, body, Outstanding, false)])
  }

  function CameBack(s: State, i: nat, outcome: Outcome, done: bool): State
    requires i < |s.sendings|
  {
    s.(sendings := s.sendings[i := s.sendings[i].(outcome := outcome, done := done)])
  }

  function AfterFailure(s: State, i: nat, kind: Kind, minted: string): State
    requires i < |s.sendings|
  {
    var failed := CameBack(s, i, Failed(kind), !RereadsTheMonth(kind));
    failed.(sent := if KeepsTheKey(kind) then Some(s.sendings[i].body) else None,
            moving := if s.moving.None? || !KeepsThePopoverOpen(kind) then None
                      else if KeepsTheKey(kind) then s.moving else Some(minted),
            pending := if RereadsTheMonth(kind) then s.pending else false)
  }

  function After(s: State, e: Event): State
    requires Can(s, e)
  {
    match e
    case Open(minted) => if Free(s) then s.(moving := Some(minted)) else s
    case Close => s.(moving := None)
    case Submit(attempt, request, work) =>
      if s.moving.Some? && Free(s) then Send(s, attempt, Body(s.moving.value, request, work)) else s
    case Retry(attempt) => if s.sent.Some? then Send(s, attempt, s.sent.value) else s
    case Succeed(i) => CameBack(s, i, Answered, false).(moving := None, sent := None)
    case Fail(i, failure, minted) => AfterFailure(s, i, KindOf(failure), minted)
    case Finish(i) => CameBack(s, i, s.sendings[i].outcome, true).(pending := false)
    case Discard => s.(moving := None, sent := None, settling := s.settling || s.sent.Some?)
    case Settle => s.(settling := false)
  }

  // ---- the form ----

  class Form {
    var moving: Option<string>
    var sent: Option<Body>
    var pending: bool
    var settling: bool
    var sendings: seq<Sending>

    function Now(): State
      reads this
    {
      State(moving, sent, pending, settling, sendings)
    }

    constructor ()
      ensures Now() == EMPTY_FORM
    {
      moving, sent, pending, settling, sendings := None, None, false, false, [];
    }

    method Discarded()
      modifies this
      ensures Now() == After(old(Now()), Discard)
    {
      var outstanding := sent.Some?;
      moving, sent := None, None;
      if outstanding {
        settling := true;
      }
    }

    method OpenMove(minted: string)
      requires !Used(Now(), minted)
      modifies this
      ensures Now() == After(old(Now()), Open(minted))
    {
      if pending || sent.Some? || settling {
        return;
      }
      Discarded();
      moving := Some(minted);
    }

    /** What is sent from a sound form goes out under a key no sending has carried. */
    method CommitMove(attempt: Id, request: Json, work: Mutations.Work)
      modifies this
      ensures Now() == After(old(Now()), Submit(attempt, request, work))
      ensures Sound(old(Now())) ==> Sound(Now())
      ensures Sound(old(Now())) && |sendings| > |old(sendings)| ==> !Used(old(Now()), sendings[|old(sendings)|].body.key)
    {
      if moving.None? || pending || sent.Some? || settling {
        return;
      }
      ghost var was := Now();
      pending := true;
      sendings := sendings + [Sending(attempt, Body(moving.value, request, work), Outstanding, false)];
      if Sound(was) {
        SubmitKeeps(was, attempt, request, work);
      }
    }

    method TryAgain(attempt: Id)
      modifies this
      ensures Now() == After(old(Now()), Retry(attempt))
    {
      if sent.Some? {
        pending := true;
        sendings := sendings + [Sending(attempt, sent.value, Outstanding, false)];
      }
    }

    method OnSuccess(i: nat)
      requires Can(Now(), Succeed(i))
      modifies this
      ensures Now() == After(old(Now()), Succeed(i))
    {
      moving, sent := None, None;
      sendings := sendings[i := sendings[i].(outcome := Answered, done := false)];
    }

    /** After a refusal the popover, if it stays open, holds a key no sending has carried. */
    method OnError(i: nat, failure: Failure, minted: string)
      requires Can(Now(), Fail(i, failure, minted))
      modifies this
      ensures Now() == After(old(Now()), Fail(i, failure, minted))
      ensures Sound(old(Now())) ==> Sound(Now())
      ensures !KeepsTheKey(KindOf(failure)) ==> sent == None && (moving.Some? ==> !Used(old(Now()), moving.value))
    {
      ghost var was := Now();
      var kind := KindOf(failure);
      sent := if KeepsTheKey(kind) then Some(sendings[i].body) else None;
      if moving.Some? {
        moving := if !KeepsThePopoverOpen(kind) then None else if KeepsTheKey(kind) then moving else Some(minted);
      }
      sendings := sendings[i := sendings[i].(outcome := Failed(kind), done := !RereadsTheMonth(kind))];
      if !RereadsTheMonth(kind) {
        pending := false;
      }
      if Sound(was) {
        FailureKeeps(was, i, kind, minted);
      }
    }

    method Reread(i: nat)
      requires Can(Now(), Finish(i))
      modifies this
      ensures Now() == After(old(Now()), Finish(i))
    {
      sendings := sendings[i := sendings[i].(done := true)];
      pending := false;
    }
  }

  // ---- runs ----

  ghost predicate IsRun(states: seq<State>, events: seq<Event>) {
    && |states| == |events| + 1 && states[0] == EMPTY_FORM
    && forall k {:trigger events[k]} | 0 <= k < |events| :: Can(states[k], events[k]) && states[k + 1] == After(states[k], events[k])
  }

  /** Nobody presses Try again while a sending is under way. */
  ghost predicate IsPatient(states: seq<State>, events: seq<Event>) {
    |states| == |events| + 1 && forall k {:trigger events[k]} | 0 <= k < |events| && events[k].Retry? :: !states[k].pending
  }

  /** The popover would send, under a key that has been sent already. */
  predicate Reuses(s: State) {
    s.moving.Some? && Free(s) && Used(s, s.moving.value)
  }

  ghost predicate NeverReuses(states: seq<State>, events: seq<Event>) {
    |states| == |events| + 1 && forall k {:trigger events[k]} | 0 <= k < |events| && events[k].Submit? :: !Reuses(states[k])
  }

  predicate OneBody(s: State) {
    forall i, j | 0 <= i < j < |s.sendings| && s.sendings[i].body.key == s.sendings[j].body.key ::
      s.sendings[i].body == s.sendings[j].body
  }

  /** All sendings of a key but its last came back with no answer. */
  predicate IsSeries(s: State) {
    forall i, j | 0 <= i < j < |s.sendings| && s.sendings[i].body.key == s.sendings[j].body.key ::
      s.sendings[i].outcome == Failed(NETWORK)
  }

  predicate SentWasSent(s: State) {
    s.sent.Some? ==> exists i | 0 <= i < |s.sendings| :: s.sendings[i].body == s.sent.value
  }

  /** Only the last sending can be under way, and exactly then the spinner shows. */
  predicate OneAtATime(s: State) {
    && (forall i | 0 <= i < |s.sendings| - 1 :: s.sendings[i].done)
    && (s.pending <==> s.sendings != [] && !s.sendings[|s.sendings| - 1].done)
    && forall i | 0 <= i < |s.sendings| && s.sendings[i].done :: !s.sendings[i].outcome.Outstanding?
  }

  predicate LastIsOut(s: State) {
    s.sendings != [] && s.sendings[|s.sendings| - 1].outcome.Outstanding?
  }

  predicate Unanswered(s: State, key: string) {
    forall i | 0 <= i < |s.sendings| && s.sendings[i].body.key == key ::
      s.sendings[i].outcome == Failed(NETWORK) || (i == |s.sendings| - 1 && s.sendings[i].outcome.Outstanding?)
  }

  /** What a form keeps: a key in the popover was never sent, or nothing more can be sent from the popover. */
  predicate Sound(s: State) {
    && OneAtATime(s) && OneBody(s) && IsSeries(s) && SentWasSent(s)
    && (s.sent.Some? ==> Unanswered(s, s.sent.value.key))
    && (s.moving.Some? && Used(s, s.moving.value) ==> s.sent.Some? || LastIsOut(s))
  }

  lemma UsedAfter(s: State, attempt: Id, body: Body, key: string)
    ensures Used(Send(s, attempt, body), key) <==> Used(s, key) || key == body.key
  {
    var after := Send(s, attempt, body);
    assert after.sendings[|s.sendings|].body == body;
    if Used(s, key) {
      var i :| 0 <= i < |s.sendings| && s.sendings[i].body.key == key;
      assert after.sendings[i].body.key == key;
    }
  }

  lemma UsedStays(s: State, i: nat, outcome: Outcome, done: bool, key: string)
    requires i < |s.sendings|
    ensures Used(CameBack(s, i, outcome, done), key) <==> Used(s, key)
  {
    var after := CameBack(s, i, outcome, done);
    assert forall k | 0 <= k < |s.sendings| :: after.sendings[k].body == s.sendings[k].body;
  }

  lemma SubmitKeeps(s: State, attempt: Id, request: Json, work: Mutations.Work)
    requires Sound(s) && s.moving.Some? && Free(s)
    ensures !Used(s, s.moving.value) && Sound(After(s, Submit(attempt, request, work)))
  {
    UsedAfter(s, attempt, Body(s.moving.value, request, work), s.moving.value);
  }

  lemma RetryKeeps(s: State, attempt: Id)
    requires Sound(s) && s.sent.Some? && !s.pending
    ensures Sound(Send(s, attempt, s.sent.value))
  {
    var after, n := Send(s, attempt, s.sent.value), |s.sendings|;
    assert after.sendings[n].body == s.sent.value;
    var first :| 0 <= first < n && s.sendings[first].body == s.sent.value;
    forall i | 0 <= i < n && s.sendings[i].body.key == s.sent.value.key
      ensures s.sendings[i].body == s.sent.value && s.sendings[i].outcome == Failed(NETWORK)
    {
      assert s.sendings[i].body == s.sendings[first].body;
      assert s.sendings[i].done;
    }
  }

  lemma SuccessKeeps(s: State, i: nat)
    requires Sound(s) && Can(s, Succeed(i))
    ensures Sound(After(s, Succeed(i)))
  {
    assert i == |s.sendings| - 1;
  }

  lemma FailureKeeps(s: State, i: nat, kind: Kind, minted: string)
    requires Sound(s) && i < |s.sendings| && s.sendings[i].outcome.Outstanding? && !Used(s, minted)
    ensures Sound(AfterFailure(s, i, kind, minted))
  {
    var after := AfterFailure(s, i, kind, minted);
    assert i == |s.sendings| - 1;
    UsedStays(s, i, Failed(kind), !RereadsTheMonth(kind), minted);
    assert forall k | 0 <= k < |s.sendings| :: after.sendings[k].body == s.sendings[k].body;
    assert after.sendings[i].body == s.sendings[i].body;
  }

  lemma FinishKeeps(s: State, i: nat)
    requires Sound(s) && Can(s, Finish(i))
    ensures Sound(After(s, Finish(i)))
  {
    assert i == |s.sendings| - 1;
    if s.moving.Some? {
      UsedStays(s, i, s.sendings[i].outcome, true, s.moving.value);
    }
    var after := After(s, Finish(i));
    assert forall k | 0 <= k < |s.sendings| :: after.sendings[k].body == s.sendings[k].body && after.sendings[k].outcome == s.sendings[k].outcome;
  }

  lemma StepKeeps(s: State, e: Event)
    requires Sound(s) && Can(s, e) && (e.Retry? ==> !s.pending)
    ensures Sound(After(s, e))
  {
    match e
    case Submit(attempt, request, work) =>
      if s.moving.Some? && Free(s) {
        SubmitKeeps(s, attempt, request, work);
      }
    case Retry(attempt) =>
      if s.sent.Some? {
        RetryKeeps(s, attempt);
      }
    case Succeed(i) => SuccessKeeps(s, i);
    case Fail(i, failure, minted) => FailureKeeps(s, i, KindOf(failure), minted);
    case Finish(i) => FinishKeeps(s, i);
    case _ =>
  }

  lemma {:induction false} PatientIsSound(states: seq<State>, events: seq<Event>, k: nat)
    requires IsRun(states, events) && IsPatient(states, events) && k < |states|
    ensures Sound(states[k])
  {
    if k > 0 {
      PatientIsSound(states, events, k - 1);
      StepKeeps(states[k - 1], events[k - 1]);
      assert states[k - 1 + 1] == After(states[k - 1], events[k - 1]);
    }
  }

  // ---- one key, one body ----

  /** Where Try again is pressed only with nothing under way, a save goes out under a key never sent before. */
  lemma PatientNeverReuses(states: seq<State>, events: seq<Event>)
    requires IsRun(states, events) && IsPatient(states, events)
    ensures NeverReuses(states, events)
  {
    forall k | 0 <= k < |events| && events[k].Submit?
      ensures !Reuses(states[k])
    {
      PatientIsSound(states, events, k);
    }
  }

  lemma {:induction false} SentStaysSent(states: seq<State>, events: seq<Event>, k: nat)
    requires IsRun(states, events) && k < |states|
    ensures SentWasSent(states[k])
  {
    if k > 0 {
      SentStaysSent(states, events, k - 1);
      var s, e := states[k - 1], events[k - 1];
      assert states[k - 1 + 1] == After(s, e);
      if states[k].sent.Some? && s.sent == states[k].sent {
        var i :| 0 <= i < |s.sendings| && s.sendings[i].body == s.sent.value;
        assert states[k].sendings[i].body == s.sent.value;
      } else if states[k].sent.Some? {
        assert e.Fail? && states[k].sendings[e.sending].body == states[k].sent.value;
      }
    }
  }

  lemma StepKeepsBodies(s: State, e: Event)
    requires OneBody(s) && SentWasSent(s) && Can(s, e) && (e.Submit? ==> !Reuses(s))
    ensures OneBody(After(s, e))
  {
    var after := After(s, e);
    if after.sendings == s.sendings {
    } else if e.Submit? {
      assert !Used(s, s.moving.value);
    } else if e.Retry? {
      var first :| 0 <= first < |s.sendings| && s.sendings[first].body == s.sent.value;
      forall i | 0 <= i < |s.sendings| && s.sendings[i].body.key == s.sent.value.key
        ensures s.sendings[i].body == s.sent.value
      {
        assert i < first || first < i || i == first;
      }
    } else {
      assert forall i | 0 <= i < |s.sendings| :: after.sendings[i].body == s.sendings[i].body;
    }
  }

  /** Whatever is lost, refused, tried again or discarded, all sendings of one key carry one body. */
  lemma {:induction false} KeyHasOneBody(states: seq<State>, events: seq<Event>, k: nat)
    requires IsRun(states, events) && NeverReuses(states, events) && k < |states|
    ensures OneBody(states[k])
  {
    if k > 0 {
      KeyHasOneBody(states, events, k - 1);
      SentStaysSent(states, events, k - 1);
      StepKeepsBodies(states[k - 1], events[k - 1]);
      assert states[k - 1 + 1] == After(states[k - 1], events[k - 1]);
    }
  }

  /** The next save is safe whatever it carries exactly when the popover's key, if it can send, was never sent. */
  lemma SafeToSubmit(s: State, attempt: Id)
    requires OneBody(s) && SentWasSent(s)
    ensures (forall request, work :: OneBody(After(s, Submit(attempt, request, work)))) <==> !Reuses(s)
  {
    if Reuses(s) {
      var i :| 0 <= i < |s.sendings| && s.sendings[i].body.key == s.moving.value;
      var request := if s.sendings[i].body.request == Null then Bool(true) else Null;
      var after := After(s, Submit(attempt, request, s.sendings[i].body.work));
      assert after.sendings[i] == s.sendings[i] && after.sendings[|s.sendings|].body.request == request;
      assert !OneBody(after);
    } else {
      forall request, work
        ensures OneBody(After(s, Submit(attempt, request, work)))
      {
        StepKeepsBodies(s, Submit(attempt, request, work));
      }
    }
  }

  lemma Extended(states: seq<State>, events: seq<Event>, e: Event) returns (longer: seq<State>, more: seq<Event>)
    requires IsRun(states, events) && Can(states[|events|], e)
    ensures IsRun(longer, more) && longer[|more|] == After(states[|events|], e)
  {
    longer, more := states + [After(states[|events|], e)], events + [e];
  }

  /** A move is sent, comes back with no answer, and is tried again twice before either comes back. */
  lemma TriedTwice(request: Json, work: Mutations.Work) returns (states: seq<State>, events: seq<Event>)
    ensures IsRun(states, events)
    ensures var body := Body("a", request, work);
            states[|events|] == State(Some("a"), Some(body), true, false,
              [Sending(0, body, Failed(NETWORK), true), Sending(1, body, Outstanding, false), Sending(2, body, Outstanding, false)])
  {
    states, events := Extended([EMPTY_FORM], [], Open("a"));
    states, events := Extended(states, events, Submit(0, request, work));
    assert !Used(states[|events|], "b");
    states, events := Extended(states, events, Fail(0, NoAnswer, "b"));
    states, events := Extended(states, events, Retry(1));
    states, events := Extended(states, events, Retry(2));
  }

  /**
   Pressing Try again twice can lead there: both are answered, the reading after the first takes the spinner away,
   a new move is sent, and the reading after the second takes the spinner of that one away.
   */
  lemma ImpatientCanReuse(request: Json, work: Mutations.Work) returns (states: seq<State>, events: seq<Event>)
    ensures IsRun(states, events) && Reuses(states[|events|])
  {
    states, events := TriedTwice(request, work);
    states, events := Extended(states, events, Succeed(1));
    states, events := Extended(states, events, Succeed(2));
    states, events := Extended(states, events, Finish(1));
    assert !Used(states[|events|], "b");
    states, events := Extended(states, events, Open("b"));
    states, events := Extended(states, events, Submit(3, request, work));
    states, events := Extended(states, events, Finish(2));
    assert states[|events|].sendings[3].body.key == "b";
  }

  // ---- after an answer ----

  /** A sending that came back stays as it came back. */
  lemma {:induction false} CameBackOnce(states: seq<State>, events: seq<Event>, j: nat, k: nat, n: nat)
    requires IsRun(states, events) && j <= k < |states| && n < |states[j].sendings|
    ensures n < |states[k].sendings| && states[k].sendings[n].body == states[j].sendings[n].body
    ensures !states[j].sendings[n].outcome.Outstanding? ==> states[k].sendings[n].outcome == states[j].sendings[n].outcome
    decreases k
  {
    if j < k {
      CameBackOnce(states, events, j, k - 1, n);
      assert states[k - 1 + 1] == After(states[k - 1], events[k - 1]);
    }
  }

  /** A save that came back with an answer, good or bad, is never sent again: whatever is sent later has another key. */
  lemma AnsweredKeyIsDone(states: seq<State>, events: seq<Event>, j: nat, k: nat, n: nat, later: nat)
    requires IsRun(states, events) && IsPatient(states, events) && j <= k < |states|
    requires n < |states[j].sendings| <= later < |states[k].sendings|
    requires var outcome := states[j].sendings[n].outcome; outcome.Answered? || (outcome.Failed? && !KeepsTheKey(outcome.kind))
    ensures states[k].sendings[later].body.key != states[j].sendings[n].body.key
  {
    CameBackOnce(states, events, j, k, n);
    PatientIsSound(states, events, k);
  }

  // ---- what each event does ----

  /** Nothing is opened or submitted while the spinner shows, a body waits to be sent again, or a discard is being read. */
  lemma SubmitDecides(s: State, attempt: Id, request: Json, work: Mutations.Work, minted: string)
    requires !Used(s, minted)
    ensures var blocked := s.pending || s.sent != None || s.settling;
            && After(s, Open(minted)) == (if blocked then s else s.(moving := Some(minted)))
            && After(s, Submit(attempt, request, work)) ==
                 if blocked || s.moving == None then s
                 else s.(pending := true,
                         sendings := s.sendings + [Sending(attempt, Body(s.moving.value, request, work), Outstanding, false)])
  {
  }

  /** Trying again sends the body that waits; an answer closes the popover; a discard drops both and waits for a reading. */
  lemma AnswerDecides(s: State, attempt: Id, i: nat)
    requires i < |s.sendings|
    ensures After(s, Retry(attempt)) ==
              if s.sent == None then s
              else s.(pending := true, sendings := s.sendings + [Sending(attempt, s.sent.value, Outstanding, false)])
    ensures Can(s, Succeed(i)) <==> s.sendings[i].outcome == Outstanding
    ensures Can(s, Succeed(i)) ==>
              After(s, Succeed(i)) == s.(moving := None, sent := None,
                sendings := s.sendings[i := Sending(s.sendings[i].attempt, s.sendings[i].body, Answered, false)])
    ensures Can(s, Finish(i)) <==> s.sendings[i].outcome != Outstanding && !s.sendings[i].done
    ensures Can(s, Finish(i)) ==> After(s, Finish(i)) == s.(pending := false, sendings := s.sendings[i := s.sendings[i].(done := true)])
    ensures After(s, Discard) == State(None, None, s.pending, s.settling || s.sent != None, s.sendings)
    ensures After(s, Close) == s.(moving := None) && After(s, Settle) == s.(settling := false)
  {
  }

  // ---- what each failure means ----

  const NO_BUDGET := Status(400, Some("NO_ACTIVE_BUDGET"))

  /**
   No answer keeps the body and the key; a missing budget closes the popover; every other answer mints a new key for a
   popover that is open, and leaves the spinner until the month is read again.
   */
  lemma FailureDecides(s: State, i: nat, failure: Failure, minted: string)
    requires Can(s, Fail(i, failure, minted))
    ensures var after := After(s, Fail(i, failure, minted));
            && after.sent == (if failure == NoAnswer then Some(s.sendings[i].body) else None)
            && after.moving == (if failure == NoAnswer then s.moving
                                else if failure == NO_BUDGET || s.moving.None? then None else Some(minted))
            && after.pending == (s.pending && failure != NoAnswer && failure != NO_BUDGET)
            && after.settling == s.settling
            && after.sendings[i].body == s.sendings[i].body
            && (after.sendings[i].outcome == Failed(CONFLICT) <==> failure.Status? && failure.code == 409)
  {
  }

  // ---- against the server ----

  predicate IsSendingOf(s: State, a: Id, it: Mutations.Attempt) {
    exists i | 0 <= i < |s.sendings| :: s.sendings[i].attempt == a && s.sendings[i].body == Body(it.key, it.request, it.work)
  }

  /** The form's keys are its own: every attempt that carries one is one of its sendings. Any of them may never arrive. */
  ghost predicate Arrives(w: Mutations.World, s: State) {
    forall a | a in w.attempts && Used(s, w.attempts[a].key) :: IsSendingOf(s, a, w.attempts[a])
  }

  /** What the client was told of was told to it by the attempt. */
  ghost predicate Reports(w: Mutations.World, s: State) {
    forall i | 0 <= i < |s.sendings| && s.sendings[i].outcome.Answered? ::
      s.sendings[i].attempt in w.attempts && w.attempts[s.sendings[i].attempt].phase.Answered?
      && w.attempts[s.sendings[i].attempt].key == s.sendings[i].body.key
  }

  /** Every attempt under a key of the form carries the body that was sent under it. */
  lemma AttemptHasTheBody(w: Mutations.World, s: State, i: nat, a: Id)
    requires OneBody(s) && Arrives(w, s) && i < |s.sendings|
    requires a in w.attempts && w.attempts[a].key == s.sendings[i].body.key
    ensures Body(w.attempts[a].key, w.attempts[a].request, w.attempts[a].work) == s.sendings[i].body
  {
    assert IsSendingOf(s, a, w.attempts[a]);
    var j :| 0 <= j < |s.sendings| && s.sendings[j].body == Body(w.attempts[a].key, w.attempts[a].request, w.attempts[a].work);
    assert i < j || j < i || i == j;
  }

  lemma CommitHasTheBody(w: Mutations.World, s: State, i: nat, n: int)
    requires Mutations.Possible(w) && OneBody(s) && Arrives(w, s) && i < |s.sendings|
    requires 0 <= n < |w.log| && w.log[n].key == s.sendings[i].body.key
    ensures w.log[n].work == s.sendings[i].body.work && w.log[n].attempt in w.attempts
    ensures w.attempts[w.log[n].attempt].request == s.sendings[i].body.request
  {
    Mutations.PossibleIsKept(w);
    AttemptHasTheBody(w, s, i, w.log[n].attempt);
  }

  /** However often a save is sent, its work is committed at most once, unless all was erased in between. */
  lemma SavedAtMostOnce(states: seq<State>, events: seq<Event>, w: Mutations.World, i: nat, m: int, n: int)
    requires IsRun(states, events) && NeverReuses(states, events)
    requires var s := states[|events|]; Mutations.Possible(w) && Arrives(w, s) && i < |s.sendings|
    requires 0 <= m < n < |w.log| && w.log[m].key == w.log[n].key == states[|events|].sendings[i].body.key
    ensures w.log[m].work == w.log[n].work == states[|events|].sendings[i].body.work
    ensures Mutations.ErasedBetween(w.log, m, n)
  {
    var s := states[|events|];
    KeyHasOneBody(states, events, |events|);
    CommitHasTheBody(w, s, i, m);
    CommitHasTheBody(w, s, i, n);
    Mutations.OnceAKey(w, m, n);
  }

  /** A save the client was told is done was done: its work is committed, and under its key nothing else is. */
  lemma AnsweredWasSaved(states: seq<State>, events: seq<Event>, w: Mutations.World, i: nat) returns (n: nat)
    requires IsRun(states, events) && NeverReuses(states, events)
    requires var s := states[|events|]; Mutations.Possible(w) && Arrives(w, s) && Reports(w, s) && i < |s.sendings|
    requires states[|events|].sendings[i].outcome.Answered?
    requires forall m | 0 <= m < |w.log| :: !w.log[m].work.Erase?
    ensures var body := states[|events|].sendings[i].body;
            n < |w.log| && w.log[n].key == body.key && w.log[n].work == body.work
    ensures forall m | 0 <= m < |w.log| && w.log[m].key == states[|events|].sendings[i].body.key :: m == n
  {
    var s := states[|events|];
    KeyHasOneBody(states, events, |events|);
    n := Mutations.AnswerIsCommitted(w, s.sendings[i].attempt);
    CommitHasTheBody(w, s, i, n);
    forall m | 0 <= m < |w.log| && w.log[m].key == s.sendings[i].body.key
      ensures m == n
    {
      if m < n {
        Mutations.OnceAKey(w, m, n);
      } else if n < m {
        Mutations.OnceAKey(w, n, m);
      }
    }
  }

  /** The server never tells such a client that its key belongs to a different request. */
  lemma NeverConflicted(states: seq<State>, events: seq<Event>, w: Mutations.World, a: Id)
    requires IsRun(states, events) && NeverReuses(states, events)
    requires Mutations.Possible(w) && Arrives(w, states[|events|])
    requires a in w.attempts && Used(states[|events|], w.attempts[a].key)
    ensures !w.attempts[a].phase.Conflicted?
  {
    var s := states[|events|];
    KeyHasOneBody(states, events, |events|);
    var i :| 0 <= i < |s.sendings| && s.sendings[i].body.key == w.attempts[a].key;
    AttemptHasTheBody(w, s, i, a);
    if w.attempts[a].phase.Conflicted? {
      var n := Mutations.ConflictIsReal(w, a);
      CommitHasTheBody(w, s, i, n);
      assert false;
    }
  }
}
