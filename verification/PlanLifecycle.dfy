/**
 The plan approval protocol of src/plan/PlanLifecycle.ts over one ledger and one session.
 A step is what one call does between two awaits, so calls interleave at every await.
 */
module PlanLifecycle {
  import opened Outcomes
  import opened ControlEvents
  import opened Projection
  import opened SessionModes
  import RequestStore
  import Text

  const APPROVAL_WINDOW_MS: int := 30 * 60_000

  const VERIFICATION_REASON: string := "approved plan requires verification evidence before completion"

  /** A call with the random ids it draws. */
  datatype Job =
    | Enter(turnId: string, planId: string)
    | Submit(turnId: string, planId: string, requestId: string, sessionKey: string, plan: string)
    | ResolveRequest(requestId: string, input: RequestStore.Operation)

  datatype Pc =
    | AppendEntered
    | AppendReady
    | AppendRequest(record: ControlRequest)
    | AppendAwaiting
    | ReadBefore
    | Reading(before: Option<RequestKind>)
    | AppendOutcome(before: Option<RequestKind>, body: EventBody, turnId: Option<string>)
    | Rereading(before: Option<RequestKind>)
    | Deciding(before: Option<RequestKind>, resolved: ControlRequest)
    | AppendApproved(resolved: ControlRequest)
    | AppendVerification(resolved: ControlRequest)
    | AppendVerificationPending(resolved: ControlRequest)
    | AppendRejected(resolved: ControlRequest)
    | Done
    | Failed

  datatype Call = Call(job: Job, pc: Pc)

  datatype State = State(
    log: seq<ControlEvent>, posture: Posture, hiddenContext: seq<string>, clock: int, calls: seq<Call>)

  datatype Step =
    | Invoke(job: Job)
    | Advance(i: nat, now: int, eventId: string)
    | OthersSetMode(mode: Mode)
    | OthersAppend(event: ControlEvent)
    | TimePasses(clock: int)

  // ---- One segment of a call

  /** `planMeta`: the plan a request is about, if it carries one. */
  predicate HasPlan(r: ControlRequest) {
    r.proposedInput.PlanProposal?
  }

  function PlanEvent(r: ControlRequest, state: PlanState, feedback: Option<string>): EventBody
    requires HasPlan(r)
  {
    PlanLifecycle(r.proposedInput.planId, state, Some(r.requestId), Some(r.proposedInput.plan), feedback)
  }

  function ApprovalRequest(job: Job, clock: int): ControlRequest
    requires job.Submit?
  {
    ControlRequest(job.requestId, PlanApproval, Pending, job.sessionKey, Some(job.turnId),
                   "Approve this plan before execution tools are unlocked.",
                   PlanProposal(job.planId, Text.Trim(job.plan)),
                   clock, clock + APPROVAL_WINDOW_MS, None, None, None, None, None, None)
  }

  function Emit(s: State, eventId: string, turnId: Option<string>, body: EventBody): State {
    s.(log := s.log + [ControlEvent(eventId, Fold(s.log).lastSeq + 1, s.clock, "", turnId, body)])
  }

  function KindOf(p: ControlProjection, id: string): Option<RequestKind> {
    if id in p.requests then Some(p.requests[id].kind) else None
  }

  /** The event a segment appends, if any. */
  function EventOf(c: Call): Option<EventBody> {
    match (c.job, c.pc)
    case (Enter(turn, plan), AppendEntered) => Some(PlanLifecycle(plan, Entered, None, None, None))
    case (Submit(turn, plan, request, key, text), AppendReady) => Some(PlanLifecycle(plan, Ready, None, Some(Text.Trim(text)), None))
    case (Submit(turn, plan, request, key, text), AppendRequest(record)) => Some(RequestCreated(record, None))
    case (Submit(turn, plan, request, key, text), AppendAwaiting) =>
      Some(PlanLifecycle(plan, AwaitingApproval, Some(request), Some(Text.Trim(text)), None))
    case (_, AppendOutcome(before, body, _)) => Some(body)
    case (_, AppendApproved(r)) => if HasPlan(r) then Some(PlanEvent(r, PlanApproved, None)) else None
    case (_, AppendVerification(r)) => Some(Verification("pending", Some(VERIFICATION_REASON)))
    case (_, AppendVerificationPending(r)) => if HasPlan(r) then Some(PlanEvent(r, VerificationPending, None)) else None
    case (_, AppendRejected(r)) => if HasPlan(r) then Some(PlanEvent(r, Rejected, r.feedback)) else None
    case _ => None
  }

  function TurnOf(c: Call): Option<string> {
    match c.pc
    case AppendOutcome(_, _, turn) => turn
    case AppendApproved(r) => r.turnId
    case AppendVerification(r) => r.turnId
    case AppendVerificationPending(r) => r.turnId
    case AppendRejected(r) => r.turnId
    case _ => if c.job.ResolveRequest? then None else Some(c.job.turnId)
  }

  /** Where `resolveControlRequest` goes once it has its record. */
  function AfterDeciding(before: Option<RequestKind>, r: ControlRequest): Pc {
    var kind := if before.Some? then before.value else r.kind;
    if kind != PlanApproval || !HasPlan(r) then Done
    else if r.state == Approved then AppendApproved(r)
    else if r.state == Denied then AppendRejected(r)
    else Done
  }

  function PcAfter(s: State, c: Call, now: int): Pc {
    match c.pc
    case AppendEntered => Done
    case AppendReady => if c.job.Submit? then AppendRequest(ApprovalRequest(c.job, s.clock)) else Failed
    case AppendRequest(_) => AppendAwaiting
    case AppendAwaiting => Done
    case ReadBefore => if c.job.ResolveRequest? then Reading(KindOf(Project(s.log, now), c.job.requestId)) else Failed
    case Reading(before) =>
      if !c.job.ResolveRequest? then Failed
      else (
        match RequestStore.AfterRead(Project(s.log, now), c.job.requestId, c.job.input, s.clock)
        case Returned(record) => Deciding(before, record)
        case Appending(body, turn) => AppendOutcome(before, body, turn)
        case _ => Failed)
    case AppendOutcome(before, _, _) => Rereading(before)
    case Rereading(before) =>
      var p := Project(s.log, now);
      if c.job.ResolveRequest? && c.job.requestId in p.requests then Deciding(before, p.requests[c.job.requestId]) else Failed
    case Deciding(before, r) => AfterDeciding(before, r)
    case AppendApproved(r) => AppendVerification(r)
    case AppendVerification(r) => AppendVerificationPending(r)
    case AppendVerificationPending(_) => Done
    case AppendRejected(_) => Done
    case Done => Done
    case Failed => Failed
  }

  /** `exitPlanMode` and `setPermissionMode("plan")` run in the segment that decides. */
  function PostureAfter(s: State, c: Call): Posture {
    if !c.pc.Deciding? then s.posture
    else
      match AfterDeciding(c.pc.before, c.pc.resolved)
      case AppendApproved(_) => ExitPlan(s.posture)
      case AppendRejected(_) => SetMode(s.posture, Plan)
      case _ => s.posture
  }

  function HiddenAfter(s: State, c: Call): seq<string> {
    if c.pc.AppendRejected? && c.pc.resolved.feedback.Some? && c.pc.resolved.feedback.value != "" then
      s.hiddenContext + [c.pc.resolved.feedback.value]
    else s.hiddenContext
  }

  function AdvanceCall(s: State, i: nat, now: int, eventId: string): State
    requires i < |s.calls|
  {
    var c := s.calls[i];
    var logged := if EventOf(c).Some? then Emit(s, eventId, TurnOf(c), EventOf(c).value).log else s.log;
    State(logged, PostureAfter(s, c), HiddenAfter(s, c), s.clock, s.calls[i := c.(pc := PcAfter(s, c, now))])
  }

  /** What runs before a call's first await. */
  function InvokeCall(s: State, job: Job): State {
    match job
    case Enter(_, _) => s.(posture := SetMode(s.posture, Plan), calls := s.calls + [Call(job, AppendEntered)])
    case Submit(_, _, _, _, _) => s.(calls := s.calls + [Call(job, AppendReady)])
    case ResolveRequest(_, _) => s.(calls := s.calls + [Call(job, ReadBefore)])
  }

  /** The ids a call draws are used nowhere yet. */
  ghost predicate FreshIds(s: State, job: Job) {
    && (job.Submit? || job.Enter? ==>
         && (forall k :: 0 <= k < |s.log| ==> !OfPlan(s.log[k].body, job.planId) && !CreatesFor(s.log[k].body, job.planId))
         && (forall i :: 0 <= i < |s.calls| && !s.calls[i].job.ResolveRequest? ==> s.calls[i].job.planId != job.planId))
    && (job.Submit? ==>
         && (forall k :: 0 <= k < |s.log| ==> !Creates(s.log[k].body, job.requestId))
         && (forall i :: 0 <= i < |s.calls| && !s.calls[i].job.Enter? ==> s.calls[i].job.requestId != job.requestId))
  }

  predicate OfPlan(body: EventBody, planId: string) {
    body.PlanLifecycle? && body.planId == planId
  }

  /** A request that asks for approval of the plan. */
  predicate AsksFor(r: ControlRequest, planId: string) {
    r.kind == PlanApproval && r.proposedInput.PlanProposal? && r.proposedInput.planId == planId
  }

  predicate CreatesFor(body: EventBody, planId: string) {
    body.RequestCreated? && AsksFor(body.request, planId)
  }

  /** Other code may create, resolve and cancel requests, but not ask for plan approvals. */
  ghost predicate OthersMayAppend(s: State, e: ControlEvent) {
    && !e.body.PlanLifecycle?
    && (e.body.RequestCreated? ==>
         && e.body.request.state == Pending && e.body.request.kind != PlanApproval
         && (forall k :: 0 <= k < |s.log| ==> !Creates(s.log[k].body, e.body.request.requestId))
         && (forall i :: 0 <= i < |s.calls| && s.calls[i].job.Submit? ==> s.calls[i].job.requestId != e.body.request.requestId))
  }

  ghost predicate Next(s: State, step: Step, t: State) {
    match step
    case Invoke(job) =>
      && FreshIds(s, job) && (job.ResolveRequest? ==> job.input.Resolve?)
      && t == InvokeCall(s, job)
    case Advance(i, now, eventId) => i < |s.calls| && now <= s.clock && t == AdvanceCall(s, i, now, eventId)
    case OthersSetMode(mode) => t == s.(posture := SetMode(s.posture, mode))
    case OthersAppend(e) => OthersMayAppend(s, e) && t == s.(log := s.log + [e])
    case TimePasses(clock) => s.clock <= clock && t == s.(clock := clock)
  }

  ghost predicate Init(s: State) {
    s.calls == [] && s.posture.prePlan == None && AllCreatedPending(s.log) && UniqueCreations(s.log)
  }

  ghost predicate IsRun(states: seq<State>, steps: seq<Step>) {
    && |states| == |steps| + 1 && Init(states[0])
    && forall k :: 0 <= k < |steps| ==> Next(states[k], steps[k], states[k + 1])
  }

  // ---- What the ledger says about a record

  ghost predicate AllCreatedPending(log: seq<ControlEvent>) {
    forall k :: 0 <= k < |log| && log[k].body.RequestCreated? ==> log[k].body.request.state == Pending
  }

  /** The ledger holds this verdict on the request, and the request is decided so. */
  ghost predicate Verdict(log: seq<ControlEvent>, id: string, decision: Decision) {
    && Decided(log, id).Some? && Decided(log, id).value.state == StateOf(decision)
    && exists k :: 0 <= k < |log| && log[k].body.RequestResolved? && log[k].body.requestId == id && log[k].body.decision == decision
  }

  /** The record is about a request the ledger created, and if approved or denied it is the one decided. */
  ghost predicate Backed(log: seq<ControlEvent>, r: ControlRequest) {
    && (r.state == Approved ==> Verdict(log, r.requestId, Approve))
    && (r.state == Denied ==> Verdict(log, r.requestId, Deny))
    && (r.state == Approved || r.state == Denied ==> Decided(log, r.requestId) == Some(r))
    && exists k :: 0 <= k < |log| && SameRequest(log[k].body, r)
  }

  predicate SameRequest(body: EventBody, r: ControlRequest) {
    && Creates(body, r.requestId)
    && body.request.kind == r.kind && body.request.proposedInput == r.proposedInput
  }

  lemma ProjectedIsBacked(log: seq<ControlEvent>, now: int, id: string, r: ControlRequest)
    requires AllCreatedPending(log) && Lookup(Project(log, now), id) == Some(r)
    ensures r.requestId == id && Backed(log, r)
  {
    ProjectedRequest(log, now, id);
    hide Project;
    var k := LastCreation(log, id).value;
    assert SameRequest(log[k].body, r);
  }

  /** The event creates no request whose id is in use. */
  ghost predicate CreatesAnew(log: seq<ControlEvent>, e: ControlEvent) {
    e.body.RequestCreated? ==> Uncreated(log, e.body.request.requestId)
  }

  /** A decision stands until the request is created again. */
  lemma DecisionStays(log: seq<ControlEvent>, e: ControlEvent, id: string)
    requires CreatesAnew(log, e) && Decided(log, id).Some? && Decided(log, id).value.state != Pending
    ensures Decided(log + [e], id) == Decided(log, id)
  {
    DecidedOfMore(log, e, id);
    assert Creates(log[LastCreation(log, id).value].body, id);
  }

  lemma BackedStays(log: seq<ControlEvent>, e: ControlEvent, r: ControlRequest)
    requires Backed(log, r) && CreatesAnew(log, e)
    ensures Backed(log + [e], r)
  {
    hide Decided, Verdict, CreatesAnew;
    if r.state == Approved || r.state == Denied { DecisionStays(log, e, r.requestId); }
    var more := log + [e];
    assert forall k :: 0 <= k < |log| ==> more[k] == log[k];
    var k :| 0 <= k < |log| && SameRequest(log[k].body, r);
    assert SameRequest(more[k].body, r);
    VerdictStays(log, e, r.requestId, Approve);
    VerdictStays(log, e, r.requestId, Deny);
  }

  lemma VerdictStays(log: seq<ControlEvent>, e: ControlEvent, id: string, decision: Decision)
    requires CreatesAnew(log, e)
    ensures Verdict(log, id, decision) ==> Verdict(log + [e], id, decision)
  {
    hide Decided, CreatesAnew;
    var more := log + [e];
    assert forall k :: 0 <= k < |log| ==> more[k] == log[k];
    if Verdict(log, id, decision) {
      DecisionStays(log, e, id);
      var k :| 0 <= k < |log| && log[k].body.RequestResolved? && log[k].body.requestId == id && log[k].body.decision == decision;
      assert more[k].body.RequestResolved? && more[k].body.requestId == id && more[k].body.decision == decision;
    }
  }

  // ---- What every step keeps

  /** No request id is created twice. */
  ghost predicate UniqueCreations(log: seq<ControlEvent>) {
    forall j, k :: 0 <= j < k < |log| && log[j].body.RequestCreated? ==> !Creates(log[k].body, log[j].body.request.requestId)
  }

  ghost predicate Uncreated(log: seq<ControlEvent>, id: string) {
    forall k :: 0 <= k < |log| ==> !Creates(log[k].body, id)
  }

  ghost predicate KindBacked(log: seq<ControlEvent>, id: string, kind: Option<RequestKind>) {
    kind.Some? ==> exists k :: 0 <= k < |log| && Creates(log[k].body, id) && log[k].body.request.kind == kind.value
  }

  /** Once a call has its verdict it never decides again. */
  predicate PastDeciding(pc: Pc) {
    pc.AppendApproved? || pc.AppendVerification? || pc.AppendVerificationPending? || pc.AppendRejected? || pc.Done? || pc.Failed?
  }

  /** A record a call acts on as an approved or a rejected plan. */
  ghost predicate ActsOn(log: seq<ControlEvent>, job: Job, r: ControlRequest, state: RequestState) {
    && job.ResolveRequest? && r.requestId == job.requestId && Backed(log, r)
    && r.state == state && r.kind == PlanApproval && HasPlan(r)
  }

  ghost predicate CallOk(log: seq<ControlEvent>, c: Call) {
    match c.pc
    case AppendEntered => c.job.Enter?
    case AppendReady => c.job.Submit? && Uncreated(log, c.job.requestId)
    case AppendRequest(r) =>
      && c.job.Submit? && Uncreated(log, c.job.requestId)
      && r.requestId == c.job.requestId && r.state == Pending && AsksFor(r, c.job.planId)
    case AppendAwaiting => c.job.Submit?
    case ReadBefore => c.job.ResolveRequest? && c.job.input.Resolve?
    case Reading(before) => c.job.ResolveRequest? && c.job.input.Resolve? && KindBacked(log, c.job.requestId, before)
    case AppendOutcome(before, body, _) =>
      c.job.ResolveRequest? && KindBacked(log, c.job.requestId, before) && IsTerminalFor(body, c.job.requestId)
    case Rereading(before) => c.job.ResolveRequest? && KindBacked(log, c.job.requestId, before)
    case Deciding(before, r) =>
      c.job.ResolveRequest? && KindBacked(log, c.job.requestId, before) && r.requestId == c.job.requestId && Backed(log, r)
    case AppendApproved(r) => ActsOn(log, c.job, r, Approved)
    case AppendVerification(r) => ActsOn(log, c.job, r, Approved)
    case AppendVerificationPending(r) => ActsOn(log, c.job, r, Approved)
    case AppendRejected(r) => ActsOn(log, c.job, r, Denied)
    case Done => true
    case Failed => c.job.ResolveRequest?
  }

  /** No two calls drew the same plan id or the same request id. */
  ghost predicate DistinctIds(calls: seq<Call>) {
    forall i, j :: 0 <= i < j < |calls| && !calls[i].job.ResolveRequest? && !calls[j].job.ResolveRequest? ==>
      && calls[i].job.planId != calls[j].job.planId
      && (calls[i].job.Submit? && calls[j].job.Submit? ==> calls[i].job.requestId != calls[j].job.requestId)
  }

  ghost predicate Inv(s: State) {
    && AllCreatedPending(s.log) && UniqueCreations(s.log) && DistinctIds(s.calls) && s.posture.prePlan != Some(Plan)
    && forall i :: 0 <= i < |s.calls| ==> CallOk(s.log, s.calls[i])
  }

  lemma KindBackedStays(log: seq<ControlEvent>, e: ControlEvent, id: string, kind: Option<RequestKind>)
    requires KindBacked(log, id, kind)
    ensures KindBacked(log + [e], id, kind)
  {
    if kind.Some? {
      var k :| 0 <= k < |log| && Creates(log[k].body, id) && log[k].body.request.kind == kind.value;
      assert (log + [e])[k] == log[k];
    }
  }

  lemma KindsAgree(log: seq<ControlEvent>, kind: RequestKind, r: ControlRequest)
    requires UniqueCreations(log) && KindBacked(log, r.requestId, Some(kind)) && Backed(log, r)
    ensures r.kind == kind
  {
    var j :| 0 <= j < |log| && Creates(log[j].body, r.requestId) && log[j].body.request.kind == kind;
    var k :| 0 <= k < |log| && SameRequest(log[k].body, r);
    assert j == k;
  }

  lemma CallOkStays(log: seq<ControlEvent>, e: ControlEvent, c: Call)
    requires CallOk(log, c) && CreatesAnew(log, e)
    requires c.pc.AppendReady? || c.pc.AppendRequest? ==> !Creates(e.body, c.job.requestId)
    ensures CallOk(log + [e], c)
  {
    hide Backed, KindBacked;
    if c.pc.Deciding? || c.pc.AppendApproved? || c.pc.AppendVerification? || c.pc.AppendVerificationPending? || c.pc.AppendRejected? {
      BackedStays(log, e, c.pc.resolved);
    }
    if c.pc.Reading? || c.pc.AppendOutcome? || c.pc.Rereading? || c.pc.Deciding? {
      KindBackedStays(log, e, c.job.requestId, c.pc.before);
    }
  }

  lemma LogStaysGood(log: seq<ControlEvent>, e: ControlEvent)
    requires AllCreatedPending(log) && UniqueCreations(log) && CreatesAnew(log, e)
    requires e.body.RequestCreated? ==> e.body.request.state == Pending
    ensures AllCreatedPending(log + [e]) && UniqueCreations(log + [e])
  {
  }

  lemma KindOfIsBacked(log: seq<ControlEvent>, now: int, id: string)
    ensures KindBacked(log, id, KindOf(Project(log, now), id))
  {
    ProjectedRequest(log, now, id);
    hide Project;
    if LastCreation(log, id).Some? {
      var k := LastCreation(log, id).value;
      assert Creates(log[k].body, id);
    }
  }

  lemma DecidingIsOk(s: State, c: Call)
    requires Inv(s) && CallOk(s.log, c) && c.pc.Deciding?
    ensures CallOk(s.log, c.(pc := AfterDeciding(c.pc.before, c.pc.resolved)))
  {
    if c.pc.before.Some? { KindsAgree(s.log, c.pc.before.value, c.pc.resolved); }
    hide Backed, KindBacked;
  }

  lemma ReadingIsOk(s: State, c: Call, now: int)
    requires Inv(s) && CallOk(s.log, c) && (c.pc.ReadBefore? || c.pc.Reading? || c.pc.Rereading?)
    ensures CallOk(s.log, c.(pc := PcAfter(s, c, now)))
  {
    hide Project, Backed, KindBacked;
    var id := c.job.requestId;
    KindOfIsBacked(s.log, now, id);
    var p := Project(s.log, now);
    if id in p.requests { ProjectedIsBacked(s.log, now, id, p.requests[id]); }
  }

  /** The call's next state is good for the log its own event has been added to. */
  lemma AdvancedIsOk(s: State, i: nat, now: int, eventId: string)
    requires Inv(s) && i < |s.calls|
    ensures var t := AdvanceCall(s, i, now, eventId); CallOk(t.log, t.calls[i])
  {
    hide Project, Backed, KindBacked, Fold;
    var c := s.calls[i];
    assert CallOk(s.log, c);
    var t := AdvanceCall(s, i, now, eventId);
    if c.pc.Deciding? {
      DecidingIsOk(s, c);
    } else if c.pc.ReadBefore? || c.pc.Reading? || c.pc.Rereading? {
      ReadingIsOk(s, c, now);
    } else if c.pc.AppendReady? {
    } else if EventOf(c).Some? {
      AppendedIsOk(s, c, t.log[|s.log|], now);
    }
  }

  lemma AppendedIsOk(s: State, c: Call, e: ControlEvent, now: int)
    requires CallOk(s.log, c) && EventOf(c) == Some(e.body)
    requires !c.pc.Deciding? && !c.pc.ReadBefore? && !c.pc.Reading? && !c.pc.Rereading? && !c.pc.AppendReady?
    ensures CallOk(s.log + [e], c.(pc := PcAfter(s, c, now)))
  {
    hide Project, Backed, KindBacked, Uncreated;
    if c.pc.AppendApproved? || c.pc.AppendVerification? { BackedStays(s.log, e, c.pc.resolved); }
    if c.pc.AppendOutcome? { KindBackedStays(s.log, e, c.job.requestId, c.pc.before); }
  }

  lemma EmitsOnlyOwnCreations(s: State, c: Call)
    requires CallOk(s.log, c) && EventOf(c).Some? && EventOf(c).value.RequestCreated?
    ensures c.pc.AppendRequest? && EventOf(c).value.request == c.pc.record
  {
  }

  /** No call creates a request whose id is in use. */
  lemma OwnEventsCreateAnew(s: State, i: nat, e: ControlEvent)
    requires Inv(s) && i < |s.calls| && EventOf(s.calls[i]) == Some(e.body)
    ensures CreatesAnew(s.log, e)
  {
    hide Backed, KindBacked, UniqueCreations, AllCreatedPending, DistinctIds;
    assert CallOk(s.log, s.calls[i]);
    if e.body.RequestCreated? { EmitsOnlyOwnCreations(s, s.calls[i]); }
  }

  lemma AdvanceKeepsInv(s: State, i: nat, now: int, eventId: string)
    requires Inv(s) && i < |s.calls|
    ensures Inv(AdvanceCall(s, i, now, eventId))
  {
    hide Project, Fold, CallOk;
    var c, t := s.calls[i], AdvanceCall(s, i, now, eventId);
    assert CallOk(s.log, c);
    AdvancedIsOk(s, i, now, eventId);
    if EventOf(c).Some? {
      var e := t.log[|s.log|];
      assert t.log == s.log + [e];
      if e.body.RequestCreated? {
        EmitsOnlyOwnCreations(s, c);
        CreatedNow(s.log, c);
      }
      LogStaysGood(s.log, e);
      forall j | 0 <= j < |t.calls| && j != i ensures CallOk(t.log, t.calls[j]) {
        OtherCallsStay(s, i, j, e);
      }
    } else {
      assert forall j :: 0 <= j < |t.calls| && j != i ==> t.calls[j] == s.calls[j] && CallOk(s.log, s.calls[j]);
    }
    assert forall j :: 0 <= j < |t.calls| ==> t.calls[j].job == s.calls[j].job;
  }

  lemma CreatedNow(log: seq<ControlEvent>, c: Call)
    requires CallOk(log, c) && c.pc.AppendRequest?
    ensures c.job.Submit? && c.pc.record.requestId == c.job.requestId && c.pc.record.state == Pending
    ensures Uncreated(log, c.pc.record.requestId) && AsksFor(c.pc.record, c.job.planId)
  {
  }

  lemma OtherCallsStay(s: State, i: nat, j: nat, e: ControlEvent)
    requires Inv(s) && i < |s.calls| && j < |s.calls| && i != j
    requires EventOf(s.calls[i]) == Some(e.body)
    ensures CallOk(s.log + [e], s.calls[j])
  {
    hide Backed, KindBacked, Uncreated, UniqueCreations, AllCreatedPending;
    assert CallOk(s.log, s.calls[i]) && CallOk(s.log, s.calls[j]);
    if e.body.RequestCreated? { EmitsOnlyOwnCreations(s, s.calls[i]); }
    CallOkStays(s.log, e, s.calls[j]);
  }

  lemma NextKeepsInv(s: State, step: Step, t: State)
    requires Inv(s) && Next(s, step, t)
    ensures Inv(t)
  {
    match step {
      case Advance(i, now, eventId) =>
        hide Next, Inv, AdvanceCall;
        assert t == AdvanceCall(s, i, now, eventId) by { assert Next(s, step, t); NextOfAdvance(s, i, now, eventId, t); }
        AdvanceKeepsInv(s, i, now, eventId);
      case OthersAppend(e) =>
        hide CallOk;
        LogStaysGood(s.log, e);
        forall j | 0 <= j < |t.calls| ensures CallOk(t.log, t.calls[j]) {
          OthersLeaveCalls(s, e, j);
        }
      case Invoke(job) =>
        assert forall j :: 0 <= j < |s.calls| ==> t.calls[j] == s.calls[j] && CallOk(s.log, s.calls[j]);
        hide Backed, KindBacked;
      case _ =>
        hide CallOk;
    }
  }

  lemma NextOfAdvance(s: State, i: nat, now: int, eventId: string, t: State)
    requires Next(s, Advance(i, now, eventId), t)
    ensures i < |s.calls| && t == AdvanceCall(s, i, now, eventId)
  {
  }

  lemma OthersLeaveCalls(s: State, e: ControlEvent, j: nat)
    requires Inv(s) && j < |s.calls| && OthersMayAppend(s, e)
    ensures CallOk(s.log + [e], s.calls[j])
  {
    assert CallOk(s.log, s.calls[j]);
    hide Backed, KindBacked, UniqueCreations, AllCreatedPending;
    CallOkStays(s.log, e, s.calls[j]);
  }

  lemma {:induction false} RunsKeepInv(states: seq<State>, steps: seq<Step>, k: nat)
    requires IsRun(states, steps) && k <= |steps|
    ensures Inv(states[k])
  {
    hide Next, Inv;
    if k > 0 {
      RunsKeepInv(states, steps, k - 1);
      NextKeepsInv(states[k - 1], steps[k - 1], states[k]);
    } else {
      InitIsOk(states[0]);
    }
  }

  lemma InitIsOk(s: State)
    requires Init(s)
    ensures Inv(s)
  {
  }

  // ---- Leaving plan mode

  /** The mode that the stretch of plan mode at the end of the history was entered from. */
  function EntryMode(states: seq<State>): Option<Mode>
    requires states != []
  {
    var n := |states| - 1;
    if n == 0 then None
    else if states[n - 1].posture.mode != Plan then Some(states[n - 1].posture.mode)
    else EntryMode(states[..n])
  }

  lemma StepKeepsCapture(s: State, step: Step, t: State)
    requires Inv(s) && Next(s, step, t) && t.posture.mode == Plan
    ensures t.posture.prePlan == if s.posture.mode != Plan then Some(s.posture.mode) else s.posture.prePlan
  {
    hide PcAfter, EventOf, Emit, CallOk, UniqueCreations, AllCreatedPending, DistinctIds, FreshIds;
  }

  lemma {:induction false} CaptureIsEntryMode(states: seq<State>, steps: seq<Step>, k: nat)
    requires IsRun(states, steps) && k <= |steps| && states[k].posture.mode == Plan
    ensures states[k].posture.prePlan == EntryMode(states[..k + 1])
  {
    hide Next, Inv;
    if k > 0 {
      RunsKeepInv(states, steps, k - 1);
      StepKeepsCapture(states[k - 1], steps[k - 1], states[k]);
      assert states[..k + 1][..k] == states[..k];
      if states[k - 1].posture.mode == Plan { CaptureIsEntryMode(states, steps, k - 1); }
    }
  }

  /** At step `k` the session leaves plan mode, and not because other code set its mode. */
  predicate Leaves(states: seq<State>, steps: seq<Step>, k: nat) {
    && |states| == |steps| + 1 && k < |steps|
    && states[k].posture.mode == Plan && states[k + 1].posture.mode != Plan && !steps[k].OthersSetMode?
  }

  /** The request is decided: it asked for the approval of a plan, and an approval settled it. */
  ghost predicate IsApprovedPlan(log: seq<ControlEvent>, id: string) {
    && Verdict(log, id, Approve)
    && Decided(log, id).value.state == Approved && Decided(log, id).value.kind == PlanApproval && HasPlan(Decided(log, id).value)
  }

  lemma LeavingIsDeciding(s: State, step: Step, t: State)
    requires Inv(s) && Next(s, step, t) && s.posture.mode == Plan && t.posture.mode != Plan && !step.OthersSetMode?
    ensures step.Advance? && step.i < |s.calls| && s.calls[step.i].job.ResolveRequest?
    ensures s.calls[step.i].pc.Deciding? && !PastDeciding(s.calls[step.i].pc) && PastDeciding(t.calls[step.i].pc)
    ensures IsApprovedPlan(s.log, s.calls[step.i].job.requestId)
    ensures t.posture == ExitPlan(s.posture)
  {
    hide Emit, EventOf, Verdict, AllCreatedPending, UniqueCreations, DistinctIds, KindBacked, FreshIds, Decided;
    assert step.Advance?;
    var c := s.calls[step.i];
    assert CallOk(s.log, c);
    if c.pc.before.Some? { KindsAgree(s.log, c.pc.before.value, c.pc.resolved); }
  }

  /**
   The session leaves plan mode only when the ledger has a plan decided as approved, and then regains the mode that
   plan mode was last entered from, or the default mode when the session began in plan mode.
   */
  lemma LeavesOnlyOnApproval(states: seq<State>, steps: seq<Step>, k: nat)
    requires IsRun(states, steps) && Leaves(states, steps, k)
    ensures steps[k].Advance? && steps[k].i < |states[k].calls| && states[k].calls[steps[k].i].job.ResolveRequest?
    ensures IsApprovedPlan(states[k].log, states[k].calls[steps[k].i].job.requestId)
    ensures var entry := EntryMode(states[..k + 1]);
            states[k + 1].posture.mode == if entry.Some? then entry.value else Default
  {
    hide Next, Inv, IsApprovedPlan;
    RunsKeepInv(states, steps, k);
    LeavingIsDeciding(states[k], steps[k], states[k + 1]);
    CaptureIsEntryMode(states, steps, k);
  }

  /** A step that gives a call its record: a denied plan ends in plan mode, and every other outcome but approval changes nothing. */
  lemma DecisionMovesMode(s: State, i: nat, now: int, eventId: string, t: State)
    requires Inv(s) && Next(s, Advance(i, now, eventId), t) && s.calls[i].pc.Deciding?
    ensures var r := s.calls[i].pc.resolved;
            if r.kind != PlanApproval || !HasPlan(r) then t.posture == s.posture
            else match r.state
              case Approved => t.posture == ExitPlan(s.posture) && t.posture.mode != Plan
              case Denied => t.posture.mode == Plan
              case _ => t.posture == s.posture
    ensures t.log == s.log
  {
    hide UniqueCreations, Backed, KindBacked, AllCreatedPending, DistinctIds;
    var c := s.calls[i];
    assert CallOk(s.log, c);
    if c.pc.before.Some? { KindsAgree(s.log, c.pc.before.value, c.pc.resolved); }
  }

  // ---- One approval, one way out

  /** Each request is resolved by at most one call. */
  ghost predicate ResolvedOnce(calls: seq<Call>) {
    forall i, j :: 0 <= i < j < |calls| && calls[i].job.ResolveRequest? && calls[j].job.ResolveRequest? ==>
      calls[i].job.requestId != calls[j].job.requestId
  }

  lemma StepKeepsJobs(s: State, step: Step, t: State, i: nat)
    requires Next(s, step, t) && i < |s.calls|
    ensures i < |t.calls| && t.calls[i].job == s.calls[i].job
    ensures PastDeciding(s.calls[i].pc) ==> PastDeciding(t.calls[i].pc)
  {
    hide Emit, EventOf, FreshIds, OthersMayAppend;
  }

  lemma {:induction false} JobsStay(states: seq<State>, steps: seq<Step>, k: nat, m: nat, i: nat)
    requires IsRun(states, steps) && k <= m <= |steps| && i < |states[k].calls|
    ensures i < |states[m].calls| && states[m].calls[i].job == states[k].calls[i].job
    ensures PastDeciding(states[k].calls[i].pc) ==> PastDeciding(states[m].calls[i].pc)
  {
    hide Next;
    if k < m {
      JobsStay(states, steps, k, m - 1, i);
      StepKeepsJobs(states[m - 1], steps[m - 1], states[m], i);
    }
  }

  /**
   When each request is resolved at most once, the session leaves plan mode for a different approved request
   each time: never twice on one approval.
   */
  lemma EachApprovalLeavesOnce(states: seq<State>, steps: seq<Step>, k: nat, m: nat)
    requires IsRun(states, steps) && k < m && Leaves(states, steps, k) && Leaves(states, steps, m)
    requires ResolvedOnce(states[|steps|].calls)
    ensures steps[k].Advance? && steps[k].i < |states[k].calls| && states[k].calls[steps[k].i].job.ResolveRequest?
    ensures steps[m].Advance? && steps[m].i < |states[m].calls| && states[m].calls[steps[m].i].job.ResolveRequest?
    ensures states[k].calls[steps[k].i].job.requestId != states[m].calls[steps[m].i].job.requestId
  {
    hide Next, Inv, IsApprovedPlan;
    RunsKeepInv(states, steps, k);
    RunsKeepInv(states, steps, m);
    LeavingIsDeciding(states[k], steps[k], states[k + 1]);
    LeavingIsDeciding(states[m], steps[m], states[m + 1]);
    StepKeepsJobs(states[k], steps[k], states[k + 1], steps[k].i);
    JobsStay(states, steps, k + 1, m, steps[k].i);
    JobsStay(states, steps, m, |steps|, steps[k].i);
    JobsStay(states, steps, m, |steps|, steps[m].i);
  }

  /** Resolving an approved plan request again: the call appends nothing before it acts on the approval. */
  lemma ResolveAgain(s: State, r: ControlRequest, input: RequestStore.Operation)
    returns (states: seq<State>, steps: seq<Step>)
    requires Lookup(Project(s.log, s.clock), r.requestId) == Some(r)
    requires r.state == Approved && r.kind == PlanApproval && HasPlan(r) && input.Resolve?
    ensures |states| == 5 && |steps| == 4 && states[0] == s
    ensures forall k :: 0 <= k < 4 ==> Next(states[k], steps[k], states[k + 1])
    ensures steps[0] == Invoke(ResolveRequest(r.requestId, input))
    ensures states[4].log == s.log && states[4].posture == ExitPlan(s.posture) && states[4].clock == s.clock
    ensures states[4].calls == s.calls + [Call(ResolveRequest(r.requestId, input), AppendApproved(r))]
  {
    hide Project, Emit, AllCreatedPending, Fold;
    var i := |s.calls|;
    var job := ResolveRequest(r.requestId, input);
    var s1 := InvokeCall(s, job);
    var s2 := AdvanceCall(s1, i, s.clock, "");
    assert s2.calls[i].pc == Reading(Some(r.kind));
    var s3 := AdvanceCall(s2, i, s.clock, "");
    assert s3.calls[i].pc == Deciding(Some(r.kind), r);
    var s4 := AdvanceCall(s3, i, s.clock, "");
    states := [s, s1, s2, s3, s4];
    steps := [Invoke(job), Advance(i, s.clock, ""), Advance(i, s.clock, ""), Advance(i, s.clock, "")];
  }

  /**
   Resolving an approved plan request again needs no new approval: with nothing appended, the call
   takes the session out of the plan mode it is in now.
   */
  lemma DuplicateResolveLeavesAgain(s: State, r: ControlRequest, input: RequestStore.Operation)
    returns (states: seq<State>, steps: seq<Step>)
    requires Lookup(Project(s.log, s.clock), r.requestId) == Some(r)
    requires r.state == Approved && r.kind == PlanApproval && HasPlan(r) && input.Resolve?
    requires s.posture.mode == Plan && s.posture.prePlan != Some(Plan)
    ensures |states| == 5 && |steps| == 4 && states[0] == s
    ensures forall k :: 0 <= k < 4 ==> Next(states[k], steps[k], states[k + 1])
    ensures steps[0] == Invoke(ResolveRequest(r.requestId, input))
    ensures states[4].log == s.log && states[4].posture.mode != Plan
  {
    hide Project, Next;
    states, steps := ResolveAgain(s, r, input);
  }

  // ---- What a verdict records

  function At(s: State, i: nat, eventId: string): State
    requires i < |s.calls|
  {
    AdvanceCall(s, i, s.clock, eventId)
  }

  /** An approved plan, left alone, is recorded as approved, as awaiting verification evidence, and as verification pending. */
  lemma ApprovalRecords(s: State, i: nat, r: ControlRequest)
    requires i < |s.calls| && s.calls[i].pc == AppendApproved(r) && r.proposedInput.PlanProposal?
    ensures var t := At(At(At(s, i, "a"), i, "b"), i, "c");
            && |t.log| == |s.log| + 3 && t.log[..|s.log|] == s.log && t.calls[i].pc == Done && t.posture == s.posture
            && t.log[|s.log|].body == PlanLifecycle(r.proposedInput.planId, PlanApproved, Some(r.requestId), Some(r.proposedInput.plan), None)
            && t.log[|s.log| + 1].body == Verification("pending", Some(VERIFICATION_REASON))
            && t.log[|s.log| + 2].body == PlanLifecycle(r.proposedInput.planId, VerificationPending, Some(r.requestId), Some(r.proposedInput.plan), None)
            && forall k :: |s.log| <= k < |t.log| ==> t.log[k].turnId == r.turnId
  {
    hide Fold, Project;
    var a := At(s, i, "a");
    assert |a.log| == |s.log| + 1 && a.log[..|s.log|] == s.log && a.calls[i].pc == AppendVerification(r);
    var b := At(a, i, "b");
    assert |b.log| == |s.log| + 2 && b.log[..|a.log|] == a.log && b.calls[i].pc == AppendVerificationPending(r);
  }

  /** A rejected plan is recorded with its feedback, and the feedback queued for the model unless there is none. */
  lemma RejectionRecords(s: State, i: nat, r: ControlRequest)
    requires i < |s.calls| && s.calls[i].pc == AppendRejected(r) && r.proposedInput.PlanProposal?
    ensures var t := At(s, i, "a");
            && |t.log| == |s.log| + 1 && t.log[..|s.log|] == s.log && t.calls[i].pc == Done && t.posture == s.posture
            && t.log[|s.log|].body == PlanLifecycle(r.proposedInput.planId, Rejected, Some(r.requestId), Some(r.proposedInput.plan), r.feedback)
            && t.hiddenContext == s.hiddenContext + (if r.feedback.Some? && r.feedback.value != "" then [r.feedback.value] else [])
  {
    hide Fold, Project;
  }
}
