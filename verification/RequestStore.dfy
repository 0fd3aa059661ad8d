/**
 The request store of src/control/ControlRequestStore.ts. Each call reads a projection,
 may append an event, and reads again; between two awaits other callers take their steps.
 An append is one step here: the ledger's lock makes it so.
 */
module RequestStore {
  import opened Outcomes
  import opened ControlEvents
  import opened Projection

  // ---- Resolving and cancelling one request

  datatype Operation =
    | Resolve(decision: Decision, feedback: Option<string>, updatedInput: Option<string>, answer: Option<string>)
    | Cancel(reason: string)

  /** Where a call stands. `now` is the time its projection was asked for. */
  datatype Pc =
    | Started
    | Reading(now: int)
    | Appending(body: EventBody, turnId: Option<string>)
    | Appended
    | Rereading(now: int)
    | Returned(record: ControlRequest)
    | NotFound

  datatype Call = Call(op: Operation, pc: Pc)

  datatype State = State(log: seq<ControlEvent>, clock: int, calls: seq<Call>)

  datatype Step =
    | Invoke(op: Operation)
    | TakeTime(i: nat)
    | Read(i: nat)
    | Append(i: nat, eventId: string)
    | TakeTimeAgain(i: nat)
    | Reread(i: nat)
    | OthersAppend(event: ControlEvent)
    | TimePasses(clock: int)

  function EventFor(op: Operation, requestId: string): EventBody {
    match op
    case Resolve(decision, feedback, updatedInput, answer) => RequestResolved(requestId, decision, feedback, updatedInput, answer)
    case Cancel(reason) => RequestCancelled(requestId, reason)
  }

  /** The segment after the first read; `clock` is the time the segment runs at. */
  function AfterRead(projected: ControlProjection, requestId: string, op: Operation, clock: int): Pc {
    if requestId !in projected.requests then NotFound
    else
      var existing := projected.requests[requestId];
      if existing.state != Pending then Returned(existing)
      else if op.Resolve? && existing.expiresAt <= clock then Appending(RequestTimedOut(requestId), existing.turnId)
      else Appending(EventFor(op, requestId), existing.turnId)
  }

  function WithPc(s: State, i: nat, pc: Pc): State
    requires i < |s.calls|
  {
    s.(calls := s.calls[i := s.calls[i].(pc := pc)])
  }

  predicate At(s: State, i: nat, pc: Pc) {
    i < |s.calls| && s.calls[i].pc == pc
  }

  function NewEvent(s: State, eventId: string, body: EventBody, turnId: Option<string>): ControlEvent {
    ControlEvent(eventId, Fold(s.log).lastSeq + 1, s.clock, "", turnId, body)
  }

  /** Others never create the id again: request ids are fresh. */
  ghost predicate Next(s: State, step: Step, t: State, requestId: string) {
    match step
    case Invoke(op) => t == s.(calls := s.calls + [Call(op, Started)])
    case TakeTime(i) => At(s, i, Started) && t == WithPc(s, i, Reading(s.clock))
    case Read(i) =>
      && i < |s.calls| && s.calls[i].pc.Reading?
      && t == WithPc(s, i, AfterRead(Project(s.log, s.calls[i].pc.now), requestId, s.calls[i].op, s.clock))
    case Append(i, eventId) =>
      && i < |s.calls| && s.calls[i].pc.Appending?
      && t == WithPc(s, i, Appended).(log := s.log + [NewEvent(s, eventId, s.calls[i].pc.body, s.calls[i].pc.turnId)])
    case TakeTimeAgain(i) => At(s, i, Appended) && t == WithPc(s, i, Rereading(s.clock))
    case Reread(i) =>
      && i < |s.calls| && s.calls[i].pc.Rereading?
      && var p := Project(s.log, s.calls[i].pc.now);
         t == WithPc(s, i, if requestId in p.requests then Returned(p.requests[requestId]) else NotFound)
    case OthersAppend(event) =>
      && !Creates(event.body, requestId) && !IsTerminalFor(event.body, requestId)
      && t == s.(log := s.log + [event])
    case TimePasses(clock) => s.clock <= clock && t == s.(clock := clock)
  }

  /** The events hold the creation of a pending request. */
  ghost predicate CreatedPending(log: seq<ControlEvent>, created: ControlRequest) {
    && created.state == Pending
    && var k := LastCreation(log, created.requestId);
       k.Some? && log[k.value].body.request == created
  }

  ghost predicate Init(s: State, created: ControlRequest) {
    s.calls == [] && CreatedPending(s.log, created)
  }

  /** The outcome by the reader's clock. */
  function Expired(created: ControlRequest): ControlRequest {
    created.(state := TimedOut, resolvedAt := Some(created.expiresAt))
  }

  function Outcome(log: seq<ControlEvent>, created: ControlRequest): ControlRequest {
    match FirstTerminal(log, created.requestId, IndexAfterCreation(log, created.requestId))
    case None => created
    case Some(j) => Settle(created, log[j])
  }

  function IndexAfterCreation(log: seq<ControlEvent>, id: string): (n: nat)
    ensures n <= |log|
  {
    match LastCreation(log, id) case None => 0 case Some(k) => k + 1
  }

  lemma OutcomeIsDecided(log: seq<ControlEvent>, created: ControlRequest)
    requires CreatedPending(log, created)
    ensures Decided(log, created.requestId) == Some(Outcome(log, created))
  {
  }

  // ---- The log only ever fixes one outcome

  lemma CreationStays(log: seq<ControlEvent>, e: ControlEvent, created: ControlRequest)
    requires CreatedPending(log, created) && !Creates(e.body, created.requestId)
    ensures CreatedPending(log + [e], created)
    ensures IndexAfterCreation(log + [e], created.requestId) == IndexAfterCreation(log, created.requestId)
  {
    assert (log + [e])[..|log|] == log;
  }

  /** A later event changes a pending outcome if it is terminal, and no other. */
  lemma OutcomeAfter(log: seq<ControlEvent>, e: ControlEvent, created: ControlRequest)
    requires CreatedPending(log, created) && !Creates(e.body, created.requestId)
    ensures Outcome(log + [e], created) ==
            if Outcome(log, created).state == Pending && IsTerminalFor(e.body, created.requestId) then Settle(created, e)
            else Outcome(log, created)
  {
    var id := created.requestId;
    CreationStays(log, e, created);
    FirstTerminalOfMore(log, e, id, IndexAfterCreation(log, id));
    var j := FirstTerminal(log, id, IndexAfterCreation(log, id));
    if j.Some? { SettledIsNotPending(created, log[j.value], id); }
    hide LastCreation, Settle;
  }

  lemma ReadSees(log: seq<ControlEvent>, now: int, created: ControlRequest)
    requires CreatedPending(log, created)
    ensures Lookup(Project(log, now), created.requestId) == Some(SeenAt(Outcome(log, created), now))
  {
    hide Project, Outcome, Decided;
    OutcomeIsDecided(log, created);
    ProjectedRequest(log, now, created.requestId);
  }

  // ---- What every step keeps

  /** A returned record is the outcome the log fixes, or the deadline as a late reader saw it. */
  ghost predicate Answered(s: State, record: ControlRequest, created: ControlRequest) {
    || (record == Outcome(s.log, created) && record.state != Pending)
    || (record == Expired(created) && created.expiresAt <= s.clock)
  }

  ghost predicate CallOk(s: State, pc: Pc, created: ControlRequest) {
    match pc
    case Started => true
    case Reading(now) => now <= s.clock
    case Appending(body, _) => IsTerminalFor(body, created.requestId)
    case Appended => Outcome(s.log, created).state != Pending
    case Rereading(now) => now <= s.clock && Outcome(s.log, created).state != Pending
    case Returned(record) => Answered(s, record, created)
    case NotFound => false
  }

  ghost predicate Inv(s: State, created: ControlRequest) {
    CreatedPending(s.log, created) && forall i :: 0 <= i < |s.calls| ==> CallOk(s, s.calls[i].pc, created)
  }

  lemma CallsSurvive(s: State, t: State, pc: Pc, created: ControlRequest)
    requires CallOk(s, pc, created) && s.clock <= t.clock
    requires Outcome(s.log, created).state != Pending ==> Outcome(t.log, created) == Outcome(s.log, created)
    ensures CallOk(t, pc, created)
  {
  }

  lemma ReadKeepsCall(s: State, i: nat, created: ControlRequest)
    requires Inv(s, created) && i < |s.calls| && s.calls[i].pc.Reading?
    ensures CallOk(s, AfterRead(Project(s.log, s.calls[i].pc.now), created.requestId, s.calls[i].op, s.clock), created)
  {
    hide Project, Outcome;
    assert CallOk(s, s.calls[i].pc, created);
    ReadSees(s.log, s.calls[i].pc.now, created);
    OutcomeIsCreatedOrSettled(s.log, created);
  }

  lemma OutcomeIsCreatedOrSettled(log: seq<ControlEvent>, created: ControlRequest)
    requires CreatedPending(log, created)
    ensures Outcome(log, created).state == Pending ==> Outcome(log, created) == created
  {
    var j := FirstTerminal(log, created.requestId, IndexAfterCreation(log, created.requestId));
    if j.Some? { SettledIsNotPending(created, log[j.value], created.requestId); }
  }

  lemma NextKeepsInv(s: State, step: Step, t: State, created: ControlRequest)
    requires Inv(s, created) && Next(s, step, t, created.requestId)
    ensures Inv(t, created)
  {
    hide Project, Outcome, CreatedPending, AfterRead, CallOk, Fold;
    if step.Append? || step.OthersAppend? {
      AppendKeepsInv(s, step, t, created);
    } else {
      forall j | 0 <= j < |t.calls| ensures CallOk(t, t.calls[j].pc, created) {
        StepKeepsCall(s, step, t, created, j);
      }
    }
  }

  lemma StepKeepsCall(s: State, step: Step, t: State, created: ControlRequest, j: nat)
    requires Inv(s, created) && Next(s, step, t, created.requestId) && !step.Append? && !step.OthersAppend?
    requires j < |t.calls|
    ensures CallOk(t, t.calls[j].pc, created)
  {
    hide Project, Outcome, CreatedPending, AfterRead, Fold;
    if j < |s.calls| {
      assert CallOk(s, s.calls[j].pc, created);
      if step.Read? && step.i == j {
        ReadKeepsCall(s, j, created);
      } else if step.Reread? && step.i == j {
        ReadSees(s.log, s.calls[j].pc.now, created);
      } else {
        CallsSurvive(s, t, s.calls[j].pc, created);
      }
      hide CallOk;
    }
  }

  lemma AppendKeepsInv(s: State, step: Step, t: State, created: ControlRequest)
    requires Inv(s, created) && Next(s, step, t, created.requestId) && (step.Append? || step.OthersAppend?)
    ensures Inv(t, created)
  {
    hide Project, Outcome, AfterRead, Fold;
    if step.Append? { assert CallOk(s, s.calls[step.i].pc, created); }
    var e := t.log[|s.log|];
    assert t.log == s.log + [e];
    CreationStays(s.log, e, created);
    OutcomeAfter(s.log, e, created);
    if step.Append? { SettledIsNotPending(created, e, created.requestId); }
    forall j | 0 <= j < |t.calls| ensures CallOk(t, t.calls[j].pc, created) {
      assert CallOk(s, s.calls[j].pc, created);
      CallsSurvive(s, t, s.calls[j].pc, created);
    }
  }

  // ---- Whole runs

  ghost predicate IsRun(states: seq<State>, steps: seq<Step>, created: ControlRequest) {
    && |states| == |steps| + 1 && Init(states[0], created)
    && forall k :: 0 <= k < |steps| ==> Next(states[k], steps[k], states[k + 1], created.requestId)
  }

  lemma {:induction false} RunsKeepInv(states: seq<State>, steps: seq<Step>, created: ControlRequest)
    requires IsRun(states, steps, created)
    ensures Inv(states[|steps|], created) && states[0].clock <= states[|steps|].clock
  {
    if steps != [] {
      hide Project, Outcome, CallOk, CreatedPending, AfterRead, Fold;
      var n := |steps| - 1;
      RunsKeepInv(states[..n + 1], steps[..n], created);
      NextKeepsInv(states[n], steps[n], states[n + 1], created);
    }
  }

  /** In every interleaving a call returns the outcome fixed by the first terminal event, or the passed deadline. */
  lemma EveryAnswerIsTheOutcomeOrTheDeadline(states: seq<State>, steps: seq<Step>, created: ControlRequest, i: nat)
    requires IsRun(states, steps, created) && i < |states[|steps|].calls|
    ensures var s := states[|steps|];
            s.calls[i].pc != NotFound && (s.calls[i].pc.Returned? ==> Answered(s, s.calls[i].pc.record, created))
  {
    hide Outcome, CreatedPending, Next;
    RunsKeepInv(states, steps, created);
    assert CallOk(states[|steps|], states[|steps|].calls[i].pc, created);
  }

  /** Calls that all end before the deadline return the outcome of the first terminal event. */
  lemma CallsBeforeTheDeadlineAgree(states: seq<State>, steps: seq<Step>, created: ControlRequest, i: nat)
    requires IsRun(states, steps, created) && i < |states[|steps|].calls|
    requires states[|steps|].clock < created.expiresAt
    ensures var s := states[|steps|];
            s.calls[i].pc.Returned? ==> s.calls[i].pc.record == Outcome(s.log, created)
  {
    hide Outcome, CreatedPending, Next;
    EveryAnswerIsTheOutcomeOrTheDeadline(states, steps, created, i);
  }

  /** Calls that all begin after the deadline append nothing and see the log as it was. */
  ghost predicate LateInv(s: State, created: ControlRequest, outcome: ControlRequest) {
    && CreatedPending(s.log, created) && Outcome(s.log, created) == outcome && created.expiresAt <= s.clock
    && forall i :: 0 <= i < |s.calls| ==>
         match s.calls[i].pc
         case Started => true
         case Reading(now) => created.expiresAt <= now
         case Returned(record) => record == SeenAt(outcome, s.clock)
         case _ => false
  }

  lemma SeenLate(r: ControlRequest, created: ControlRequest, a: int, b: int)
    requires created.expiresAt <= a && created.expiresAt <= b && r.expiresAt == created.expiresAt
    ensures SeenAt(r, a) == SeenAt(r, b) && SeenAt(r, a).state != Pending
  {
  }

  lemma OutcomeKeepsDeadline(log: seq<ControlEvent>, created: ControlRequest)
    ensures Outcome(log, created).expiresAt == created.expiresAt
  {
  }

  lemma NextKeepsLateInv(s: State, step: Step, t: State, created: ControlRequest, outcome: ControlRequest)
    requires LateInv(s, created, outcome) && Next(s, step, t, created.requestId)
    ensures LateInv(t, created, outcome)
  {
    hide Project, Outcome, SeenAt, Fold;
    OutcomeKeepsDeadline(s.log, created);
    SeenLate(outcome, created, s.clock, t.clock);
    match step {
      case OthersAppend(e) =>
        CreationStays(s.log, e, created);
        OutcomeAfter(s.log, e, created);
      case Read(i) =>
        ReadSees(s.log, s.calls[i].pc.now, created);
        SeenLate(outcome, created, s.calls[i].pc.now, t.clock);
      case _ =>
    }
  }

  lemma {:induction false} LateRunsKeepLateInv(states: seq<State>, steps: seq<Step>, created: ControlRequest)
    requires IsRun(states, steps, created) && created.expiresAt <= states[0].clock
    ensures LateInv(states[|steps|], created, Outcome(states[0].log, created))
  {
    hide Outcome, CreatedPending;
    if steps != [] {
      hide Next, LateInv;
      var n := |steps| - 1;
      LateRunsKeepLateInv(states[..n + 1], steps[..n], created);
      NextKeepsLateInv(states[n], steps[n], states[n + 1], created, Outcome(states[0].log, created));
    }
  }

  /** Calls that all begin at or after the deadline return the same record: the outcome, or the timeout. */
  lemma CallsAfterTheDeadlineAgree(states: seq<State>, steps: seq<Step>, created: ControlRequest, i: nat)
    requires IsRun(states, steps, created) && i < |states[|steps|].calls|
    requires created.expiresAt <= states[0].clock
    ensures var s := states[|steps|];
            s.calls[i].pc.Returned? ==> s.calls[i].pc.record == SeenAt(Outcome(states[0].log, created), s.clock)
  {
    hide Outcome, CreatedPending, Next, SeenAt;
    LateRunsKeepLateInv(states, steps, created);
  }

  /** The record a call on its own leaves and returns, field by field. */
  function OwnAnswer(created: ControlRequest, op: Operation, now: int): ControlRequest {
    match op
    case Resolve(decision, feedback, updatedInput, answer) =>
      if created.expiresAt <= now then created.(state := TimedOut, resolvedAt := Some(created.expiresAt))
      else created.(
        state := match decision case Approve => Approved case Deny => Denied case Answer => RequestState.Answered,
        resolvedAt := Some(now), decision := Some(decision), feedback := feedback, updatedInput := updatedInput, answer := answer)
    case Cancel(reason) =>
      if created.expiresAt <= now then created.(state := TimedOut, resolvedAt := Some(created.expiresAt))
      else created.(state := Cancelled, resolvedAt := Some(now), cancelReason := Some(reason))
  }

  /** A call that nobody interrupts settles a pending request as asked, or sees its deadline; a settled one it only returns. */
  lemma UncontestedCall(s: State, i: nat, created: ControlRequest, eventId: string)
    requires CreatedPending(s.log, created) && i < |s.calls|
    ensures var outcome := Outcome(s.log, created);
            var pc := AfterRead(Project(s.log, s.clock), created.requestId, s.calls[i].op, s.clock);
            if outcome.state != Pending then pc == Returned(outcome)
            else if created.expiresAt <= s.clock then pc == Returned(OwnAnswer(created, s.calls[i].op, s.clock))
            else
              && pc.Appending?
              && Lookup(Project(s.log + [NewEvent(s, eventId, pc.body, pc.turnId)], s.clock), created.requestId)
                 == Some(OwnAnswer(created, s.calls[i].op, s.clock))
  {
    hide Project, Outcome, CreatedPending, Fold;
    var op := s.calls[i].op;
    ReadSees(s.log, s.clock, created);
    OutcomeIsCreatedOrSettled(s.log, created);
    OutcomeKeepsDeadline(s.log, created);
    if Outcome(s.log, created).state == Pending && s.clock < created.expiresAt {
      var e := NewEvent(s, eventId, EventFor(op, created.requestId), created.turnId);
      CreationStays(s.log, e, created);
      OutcomeAfter(s.log, e, created);
      ReadSees(s.log + [e], s.clock, created);
    }
  }

  // ---- A deadline between two calls can split their answers

  const APPROVAL: Operation := Resolve(Approve, None, None, None)

  /** One call reads before the deadline and appends after another has seen it pass. */
  lemma StraddlingRun(log: seq<ControlEvent>, created: ControlRequest, lo: int, hi: int)
    returns (states: seq<State>, steps: seq<Step>)
    requires CreatedPending(log, created) && Outcome(log, created).state == Pending
    requires lo < created.expiresAt <= hi
    ensures IsRun(states, steps, created) && states[0] == State(log, lo, [])
    ensures var s := states[|steps|];
            && s.clock == hi && |s.calls| == 2
            && s.calls[0].pc.Returned? && s.calls[0].pc.record.state == Approved
            && s.calls[1].pc.Returned? && s.calls[1].pc.record.state == TimedOut
  {
    hide Project, Outcome, CreatedPending, Fold;
    var id := created.requestId;
    OutcomeIsCreatedOrSettled(log, created);
    var s0 := State(log, lo, []);
    var s1 := State(log, lo, [Call(APPROVAL, Started)]);
    var s2 := State(log, lo, [Call(APPROVAL, Reading(lo))]);
    ReadSees(log, lo, created);
    var body := EventFor(APPROVAL, id);
    var s3 := State(log, lo, [Call(APPROVAL, Appending(body, created.turnId))]);
    var s4 := State(log, hi, s3.calls);
    var s5 := State(log, hi, [Call(APPROVAL, Appending(body, created.turnId)), Call(APPROVAL, Started)]);
    var s6 := State(log, hi, [Call(APPROVAL, Appending(body, created.turnId)), Call(APPROVAL, Reading(hi))]);
    ReadSees(log, hi, created);
    var late := Call(APPROVAL, Returned(Expired(created)));
    var s7 := State(log, hi, [Call(APPROVAL, Appending(body, created.turnId)), late]);
    var e := NewEvent(s7, "ce", body, created.turnId);
    CreationStays(log, e, created);
    OutcomeAfter(log, e, created);
    var s8 := State(log + [e], hi, [Call(APPROVAL, Appended), late]);
    var s9 := State(log + [e], hi, [Call(APPROVAL, Rereading(hi)), late]);
    ReadSees(log + [e], hi, created);
    var s10 := State(log + [e], hi, [Call(APPROVAL, Returned(Settle(created, e))), late]);
    FirstHalf(s0, s1, s2, s3, s4, s5, id);
    assert Next(s5, TakeTime(1), s6, id);
    assert Next(s6, Read(1), s7, id);
    assert Next(s7, Append(0, "ce"), s8, id);
    assert Next(s8, TakeTimeAgain(0), s9, id);
    assert Next(s9, Reread(0), s10, id);
    states := [s0, s1, s2, s3, s4, s5, s6, s7, s8, s9, s10];
    steps := [Invoke(APPROVAL), TakeTime(0), Read(0), TimePasses(hi), Invoke(APPROVAL), TakeTime(1), Read(1),
              Append(0, "ce"), TakeTimeAgain(0), Reread(0)];
    hide Next;
  }

  lemma FirstHalf(s0: State, s1: State, s2: State, s3: State, s4: State, s5: State, id: string)
    requires s0.calls == [] && s1 == s0.(calls := [Call(APPROVAL, Started)])
    requires s2 == s1.(calls := [Call(APPROVAL, Reading(s0.clock))])
    requires s3 == s2.(calls := [Call(APPROVAL, AfterRead(Project(s0.log, s0.clock), id, APPROVAL, s0.clock))])
    requires s0.clock <= s4.clock && s4 == s3.(clock := s4.clock)
    requires s5 == s4.(calls := s4.calls + [Call(APPROVAL, Started)])
    ensures Next(s0, Invoke(APPROVAL), s1, id) && Next(s1, TakeTime(0), s2, id) && Next(s2, Read(0), s3, id)
    ensures Next(s3, TimePasses(s4.clock), s4, id) && Next(s4, Invoke(APPROVAL), s5, id)
  {
    hide Project, AfterRead;
  }

  /** A run from `log` that lies wholly between the times `lo` and `hi`, and what one of its calls returned. */
  ghost predicate AnswersWithin(log: seq<ControlEvent>, lo: int, hi: int, states: seq<State>, steps: seq<Step>,
                                created: ControlRequest, i: nat, record: ControlRequest)
  {
    && IsRun(states, steps, created)
    && states[0] == State(log, lo, [])
    && states[|steps|].clock <= hi
    && At(states[|steps|], i, Returned(record))
  }

  /** In no run between `lo` and `hi` do two calls return different records. */
  ghost predicate AlwaysAgree(log: seq<ControlEvent>, created: ControlRequest, lo: int, hi: int) {
    forall states: seq<State>, steps: seq<Step>, i: nat, j: nat, a: ControlRequest, b: ControlRequest ::
      AnswersWithin(log, lo, hi, states, steps, created, i, a) && AnswersWithin(log, lo, hi, states, steps, created, j, b)
      ==> a == b
  }

  lemma OneSideAgrees(log: seq<ControlEvent>, lo: int, hi: int, states: seq<State>, steps: seq<Step>,
                      created: ControlRequest, i: nat, record: ControlRequest)
    requires AnswersWithin(log, lo, hi, states, steps, created, i, record)
    requires hi < created.expiresAt || created.expiresAt <= lo
    ensures states != []
    ensures var s := states[|states| - 1];
            record == if hi < created.expiresAt then Outcome(s.log, created) else SeenAt(Outcome(log, created), s.clock)
  {
    assert |states| == |steps| + 1;
    hide Outcome, CreatedPending, SeenAt, Next;
    if hi < created.expiresAt {
      CallsBeforeTheDeadlineAgree(states, steps, created, i);
    } else {
      CallsAfterTheDeadlineAgree(states, steps, created, i);
    }
  }

  /** For an undecided request all calls always agree exactly when the deadline is not between them. */
  lemma AgreementExactlyWhen(log: seq<ControlEvent>, created: ControlRequest, lo: int, hi: int)
    requires CreatedPending(log, created) && Outcome(log, created).state == Pending && lo <= hi
    ensures AlwaysAgree(log, created, lo, hi) <==> hi < created.expiresAt || created.expiresAt <= lo
  {
    if hi < created.expiresAt || created.expiresAt <= lo {
      hide Outcome, CreatedPending, AnswersWithin, SeenAt;
      forall states: seq<State>, steps: seq<Step>, i: nat, j: nat, a: ControlRequest, b: ControlRequest |
        AnswersWithin(log, lo, hi, states, steps, created, i, a) && AnswersWithin(log, lo, hi, states, steps, created, j, b)
        ensures a == b
      {
        OneSideAgrees(log, lo, hi, states, steps, created, i, a);
        OneSideAgrees(log, lo, hi, states, steps, created, j, b);
      }
    } else {
      hide Outcome, CreatedPending, SeenAt, Next;
      var states, steps := StraddlingRun(log, created, lo, hi);
      var s := states[|steps|];
      assert AnswersWithin(log, lo, hi, states, steps, created, 0, s.calls[0].pc.record);
      assert AnswersWithin(log, lo, hi, states, steps, created, 1, s.calls[1].pc.record);
    }
  }
}
