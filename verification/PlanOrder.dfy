/** The order of one plan's events in src/plan/PlanLifecycle.ts. */
module PlanOrder {
  import opened Outcomes
  import opened ControlEvents
  import opened Projection
  import opened Lifecycle = PlanLifecycle

  /** The states the ledger records for a plan, in order. */
  function PlanStates(log: seq<ControlEvent>, planId: string): seq<PlanState> {
    if log == [] then []
    else PlanStates(log[..|log| - 1], planId) + StatesIn(log[|log| - 1].body, planId)
  }

  function StatesIn(body: EventBody, planId: string): seq<PlanState> {
    if OfPlan(body, planId) then [body.planState] else []
  }

  lemma PlanStatesMore(log: seq<ControlEvent>, e: ControlEvent, planId: string)
    ensures PlanStates(log + [e], planId) == PlanStates(log, planId) + StatesIn(e.body, planId)
  {
    assert (log + [e])[..|log|] == log;
  }

  lemma {:induction false} NoPlanStates(log: seq<ControlEvent>, planId: string)
    requires forall k :: 0 <= k < |log| ==> !OfPlan(log[k].body, planId)
    ensures PlanStates(log, planId) == []
  {
    if log != [] { NoPlanStates(log[..|log| - 1], planId); }
  }

  predicate Resolves(c: Call, requestId: string) {
    c.job.ResolveRequest? && c.job.requestId == requestId
  }

  /** The request is resolved once, and not before the call that submitted it has returned. */
  ghost predicate Orderly(s: State, step: Step, requestId: string) {
    step.Invoke? && step.job.ResolveRequest? && step.job.requestId == requestId ==>
      forall i :: 0 <= i < |s.calls| ==>
        && !Resolves(s.calls[i], requestId)
        && (s.calls[i].job.Submit? && s.calls[i].job.requestId == requestId ==> s.calls[i].pc == Done)
  }

  /** What a submitting call has recorded. */
  function Submitted(pc: Pc): seq<PlanState> {
    match pc
    case AppendRequest(_) => [Ready]
    case AppendAwaiting => [Ready]
    case Done => [Ready, AwaitingApproval]
    case _ => []
  }

  /** What the resolving call has recorded after that. */
  predicate Recorded(pc: Pc, tail: seq<PlanState>) {
    match pc
    case AppendVerification(_) => tail == [PlanApproved]
    case AppendVerificationPending(_) => tail == [PlanApproved]
    case Done => tail == [] || tail == [PlanApproved, VerificationPending] || tail == [Rejected]
    case _ => tail == []
  }

  ghost predicate CreationsMatch(log: seq<ControlEvent>, planId: string, requestId: string) {
    forall k :: 0 <= k < |log| && log[k].body.RequestCreated? ==>
      (AsksFor(log[k].body.request, planId) <==> log[k].body.request.requestId == requestId)
  }

  ghost predicate VerdictsHeld(log: seq<ControlEvent>, states: seq<PlanState>, requestId: string) {
    && (PlanApproved in states ==> Verdict(log, requestId, Approve))
    && (Rejected in states ==> Verdict(log, requestId, Deny))
  }

  /** The plan of call `c` is where its submitting and its resolving call have brought it. */
  ghost predicate InOrder(calls: seq<Call>, c: nat, states: seq<PlanState>) {
    && c < |calls| && calls[c].job.Submit?
    && (forall i, j :: 0 <= i < j < |calls| && Resolves(calls[i], calls[c].job.requestId) ==> !Resolves(calls[j], calls[c].job.requestId))
    && ((forall i :: 0 <= i < |calls| ==> !Resolves(calls[i], calls[c].job.requestId)) ==> states == Submitted(calls[c].pc))
    && (forall i :: 0 <= i < |calls| && Resolves(calls[i], calls[c].job.requestId) ==>
          && calls[c].pc == Done && [Ready, AwaitingApproval] <= states && Recorded(calls[i].pc, states[2..]))
  }

  ghost predicate PlanInv(s: State, c: nat) {
    && c < |s.calls| && s.calls[c].job.Submit?
    && CreationsMatch(s.log, s.calls[c].job.planId, s.calls[c].job.requestId)
    && VerdictsHeld(s.log, PlanStates(s.log, s.calls[c].job.planId), s.calls[c].job.requestId)
    && InOrder(s.calls, c, PlanStates(s.log, s.calls[c].job.planId))
  }

  /** Only the submitting and the resolving calls of a plan record states of it. */
  lemma OwnersRecord(s: State, c: nat, i: nat)
    requires Inv(s) && c < |s.calls| && s.calls[c].job.Submit? && i < |s.calls|
    requires CreationsMatch(s.log, s.calls[c].job.planId, s.calls[c].job.requestId)
    requires EventOf(s.calls[i]).Some? && OfPlan(EventOf(s.calls[i]).value, s.calls[c].job.planId)
    ensures i == c || Resolves(s.calls[i], s.calls[c].job.requestId)
  {
    assert CallOk(s.log, s.calls[i]);
    var pc := s.calls[i].pc;
    if pc.AppendApproved? || pc.AppendVerificationPending? || pc.AppendRejected? {
      var k :| 0 <= k < |s.log| && SameRequest(s.log[k].body, pc.resolved);
      assert AsksFor(s.log[k].body.request, s.calls[c].job.planId);
    }
  }

  lemma CreationsStay(s: State, c: nat, i: nat, e: ControlEvent)
    requires Inv(s) && c < |s.calls| && s.calls[c].job.Submit? && i < |s.calls|
    requires CreationsMatch(s.log, s.calls[c].job.planId, s.calls[c].job.requestId)
    requires EventOf(s.calls[i]) == Some(e.body)
    ensures CreationsMatch(s.log + [e], s.calls[c].job.planId, s.calls[c].job.requestId)
  {
    hide Backed, KindBacked, AllCreatedPending, UniqueCreations;
    assert CallOk(s.log, s.calls[i]);
    if e.body.RequestCreated? {
      EmitsOnlyOwnCreations(s, s.calls[i]);
      assert s.calls[i].job.Submit?;
      assert i == c || s.calls[i].job.requestId != s.calls[c].job.requestId;
    }
  }

  /** What a segment of call `i` adds to the states of the plan. */
  function Added(c: Call, planId: string): seq<PlanState> {
    if EventOf(c).Some? then StatesIn(EventOf(c).value, planId) else []
  }

  lemma AdvanceAdds(s: State, i: nat, now: int, eventId: string, planId: string)
    requires i < |s.calls|
    ensures PlanStates(AdvanceCall(s, i, now, eventId).log, planId) == PlanStates(s.log, planId) + Added(s.calls[i], planId)
  {
    hide PlanStates, EventOf, StatesIn, PcAfter, PostureAfter, HiddenAfter, Fold;
    var t := AdvanceCall(s, i, now, eventId);
    if EventOf(s.calls[i]).Some? {
      assert t.log == s.log + [t.log[|s.log|]];
      PlanStatesMore(s.log, t.log[|s.log|], planId);
    }
  }

  /** A segment of the submitting call records the next state of its plan. */
  lemma SubmitterRecords(s: State, c: nat, now: int)
    requires Inv(s) && c < |s.calls| && s.calls[c].job.Submit?
    ensures Submitted(PcAfter(s, s.calls[c], now)) == Submitted(s.calls[c].pc) + Added(s.calls[c], s.calls[c].job.planId)
    ensures s.calls[c].pc == Done ==> PcAfter(s, s.calls[c], now) == Done && Added(s.calls[c], s.calls[c].job.planId) == []
  {
    hide Project, KindBacked, Backed;
    assert CallOk(s.log, s.calls[c]);
  }

  /** A segment of the resolving call records the next state after those. */
  lemma ResolverRecords(s: State, c: nat, i: nat, now: int, tail: seq<PlanState>)
    requires Inv(s) && c < |s.calls| && s.calls[c].job.Submit? && i < |s.calls|
    requires Resolves(s.calls[i], s.calls[c].job.requestId)
    requires CreationsMatch(s.log, s.calls[c].job.planId, s.calls[c].job.requestId)
    requires Recorded(s.calls[i].pc, tail)
    ensures Recorded(PcAfter(s, s.calls[i], now), tail + Added(s.calls[i], s.calls[c].job.planId))
    ensures PlanApproved in Added(s.calls[i], s.calls[c].job.planId) ==> Verdict(s.log, s.calls[c].job.requestId, Approve)
    ensures Rejected in Added(s.calls[i], s.calls[c].job.planId) ==> Verdict(s.log, s.calls[c].job.requestId, Deny)
  {
    hide Project, KindBacked, Verdict, UniqueCreations, AllCreatedPending, DistinctIds;
    var pc, planId := s.calls[i].pc, s.calls[c].job.planId;
    assert CallOk(s.log, s.calls[i]);
    if pc.AppendApproved? || pc.AppendVerificationPending? || pc.AppendRejected? {
      ActedOnAsks(s.log, pc.resolved, planId, s.calls[c].job.requestId);
    }
  }

  lemma ActedOnAsks(log: seq<ControlEvent>, r: ControlRequest, planId: string, requestId: string)
    requires Backed(log, r) && r.requestId == requestId && CreationsMatch(log, planId, requestId)
    ensures AsksFor(r, planId)
  {
    var k :| 0 <= k < |log| && SameRequest(log[k].body, r);
  }

  lemma AdvanceKeepsOrder(s: State, c: nat, i: nat, now: int, eventId: string)
    requires Inv(s) && PlanInv(s, c) && i < |s.calls|
    ensures var t := AdvanceCall(s, i, now, eventId);
            InOrder(t.calls, c, PlanStates(s.log, s.calls[c].job.planId) + Added(s.calls[i], s.calls[c].job.planId))
  {
    hide Inv, PlanStates, PcAfter, Recorded, Submitted, Added, EventOf, VerdictsHeld, PostureAfter, HiddenAfter, Fold, Emit;
    var planId, requestId := s.calls[c].job.planId, s.calls[c].job.requestId;
    var states, added := PlanStates(s.log, planId), Added(s.calls[i], planId);
    var t := AdvanceCall(s, i, now, eventId);
    assert forall j :: 0 <= j < |t.calls| ==> t.calls[j].job == s.calls[j].job && (j != i ==> t.calls[j] == s.calls[j]);
    assert forall j :: 0 <= j < |t.calls| ==> (Resolves(t.calls[j], requestId) <==> Resolves(s.calls[j], requestId));
    if i != c && !Resolves(s.calls[i], requestId) {
      OtherAddsNothing(s, c, i);
      assert states + added == states;
    }
    if i == c {
      SubmitterRecords(s, c, now);
      assert s.calls[c].pc == Done ==> states + added == states && t.calls[c].pc == Done;
    } else if Resolves(s.calls[i], requestId) {
      ResolverRecords(s, c, i, now, states[2..]);
      assert (states + added)[2..] == states[2..] + added;
    }
  }

  lemma OtherAddsNothing(s: State, c: nat, i: nat)
    requires Inv(s) && PlanInv(s, c) && i < |s.calls| && i != c && !Resolves(s.calls[i], s.calls[c].job.requestId)
    ensures Added(s.calls[i], s.calls[c].job.planId) == []
  {
    hide Inv, InOrder, VerdictsHeld, EventOf;
    if Added(s.calls[i], s.calls[c].job.planId) != [] { OwnersRecord(s, c, i); }
  }

  lemma VerdictsStay(log: seq<ControlEvent>, e: ControlEvent, states: seq<PlanState>, added: seq<PlanState>, requestId: string)
    requires VerdictsHeld(log, states, requestId) && VerdictsHeld(log, added, requestId) && CreatesAnew(log, e)
    ensures VerdictsHeld(log + [e], states + added, requestId)
  {
    hide Verdict;
    VerdictStays(log, e, requestId, Approve);
    VerdictStays(log, e, requestId, Deny);
  }

  lemma AddedHasVerdict(s: State, c: nat, i: nat, now: int)
    requires Inv(s) && PlanInv(s, c) && i < |s.calls|
    ensures VerdictsHeld(s.log, Added(s.calls[i], s.calls[c].job.planId), s.calls[c].job.requestId)
  {
    hide Inv, Verdict, VerdictsHeld, PcAfter;
    assert CallOk(s.log, s.calls[i]) by { assert Inv(s); CallsAreOk(s, i); }
    hide CallOk, EventOf;
    if i == c {
      SubmitterGivesNoVerdict(s, c);
    } else if Resolves(s.calls[i], s.calls[c].job.requestId) {
      ResolverRecords(s, c, i, now, PlanStates(s.log, s.calls[c].job.planId)[2..]);
      VerdictsOfAdded(s, c, i);
    } else {
      OtherAddsNothing(s, c, i);
      assert VerdictsHeld(s.log, [], s.calls[c].job.requestId) by { NoVerdictNeeded(s.log, s.calls[c].job.requestId); }
    }
  }

  lemma CallsAreOk(s: State, i: nat)
    requires Inv(s) && i < |s.calls|
    ensures CallOk(s.log, s.calls[i])
  {
  }

  lemma NoVerdictNeeded(log: seq<ControlEvent>, requestId: string)
    ensures VerdictsHeld(log, [], requestId)
  {
  }

  lemma SubmitterGivesNoVerdict(s: State, c: nat)
    requires Inv(s) && c < |s.calls| && s.calls[c].job.Submit?
    ensures VerdictsHeld(s.log, Added(s.calls[c], s.calls[c].job.planId), s.calls[c].job.requestId)
  {
    assert CallOk(s.log, s.calls[c]);
    hide Backed, KindBacked;
  }

  lemma VerdictsOfAdded(s: State, c: nat, i: nat)
    requires i < |s.calls| && c < |s.calls| && s.calls[c].job.Submit?
    requires PlanApproved in Added(s.calls[i], s.calls[c].job.planId) ==> Verdict(s.log, s.calls[c].job.requestId, Approve)
    requires Rejected in Added(s.calls[i], s.calls[c].job.planId) ==> Verdict(s.log, s.calls[c].job.requestId, Deny)
    ensures VerdictsHeld(s.log, Added(s.calls[i], s.calls[c].job.planId), s.calls[c].job.requestId)
  {
  }

  lemma AdvanceKeepsPlanInv(s: State, c: nat, i: nat, now: int, eventId: string)
    requires Inv(s) && PlanInv(s, c) && i < |s.calls|
    ensures PlanInv(AdvanceCall(s, i, now, eventId), c)
  {
    hide Inv, PlanStates, PcAfter, InOrder, Added, VerdictsHeld, CreationsMatch, PostureAfter, HiddenAfter, Fold;
    var planId, requestId := s.calls[c].job.planId, s.calls[c].job.requestId;
    var t := AdvanceCall(s, i, now, eventId);
    AdvanceAdds(s, i, now, eventId, planId);
    AdvanceKeepsOrder(s, c, i, now, eventId);
    AddedHasVerdict(s, c, i, now);
    if EventOf(s.calls[i]).Some? {
      var e := t.log[|s.log|];
      assert t.log == s.log + [e];
      CreationsStay(s, c, i, e);
      OwnEventsCreateAnew(s, i, e);
      VerdictsStay(s.log, e, PlanStates(s.log, planId), Added(s.calls[i], planId), requestId);
    } else {
      assert Added(s.calls[i], planId) == [] by { NothingAdded(s.calls[i], planId); }
      assert PlanStates(s.log, planId) + [] == PlanStates(s.log, planId);
    }
  }

  lemma NothingAdded(c: Call, planId: string)
    requires EventOf(c).None?
    ensures Added(c, planId) == []
  {
  }

  lemma OthersKeepPlanInv(s: State, c: nat, e: ControlEvent)
    requires Inv(s) && PlanInv(s, c) && OthersMayAppend(s, e)
    ensures PlanInv(s.(log := s.log + [e]), c)
  {
    hide Inv, InOrder, Verdict;
    var planId, requestId := s.calls[c].job.planId, s.calls[c].job.requestId;
    PlanStatesMore(s.log, e, planId);
    NoVerdictNeeded(s.log, requestId);
    VerdictsStay(s.log, e, PlanStates(s.log, planId), [], requestId);
    assert PlanStates(s.log, planId) + [] == PlanStates(s.log, planId);
  }

  lemma InvokeKeepsPlanInv(s: State, c: nat, job: Job)
    requires Inv(s) && PlanInv(s, c) && FreshIds(s, job) && Orderly(s, Invoke(job), s.calls[c].job.requestId)
    ensures PlanInv(InvokeCall(s, job), c)
  {
    hide Inv, PlanStates, VerdictsHeld, CreationsMatch;
    var t := InvokeCall(s, job);
    assert forall j :: 0 <= j < |s.calls| ==> t.calls[j] == s.calls[j];
    hide FreshIds;
    InvokeKeepsOrder(s, c, job, PlanStates(s.log, s.calls[c].job.planId));
  }

  lemma InvokeKeepsOrder(s: State, c: nat, job: Job, states: seq<PlanState>)
    requires InOrder(s.calls, c, states) && Orderly(s, Invoke(job), s.calls[c].job.requestId)
    ensures InOrder(InvokeCall(s, job).calls, c, states)
  {
    var t := InvokeCall(s, job);
    assert forall j :: 0 <= j < |s.calls| ==> t.calls[j] == s.calls[j];
    if forall i :: 0 <= i < |t.calls| ==> !Resolves(t.calls[i], s.calls[c].job.requestId) {
      assert forall i :: 0 <= i < |s.calls| ==> !Resolves(s.calls[i], s.calls[c].job.requestId);
    }
  }

  /** A call that submits a plan starts with nothing recorded. */
  lemma SubmitStartsInOrder(s: State, job: Job)
    requires Inv(s) && FreshIds(s, job) && job.Submit?
    ensures PlanInv(InvokeCall(s, job), |s.calls|)
  {
    NoPlanStates(s.log, job.planId);
    assert forall k :: 0 <= k < |s.log| ==> !Creates(s.log[k].body, job.requestId) && !CreatesFor(s.log[k].body, job.planId);
    hide Inv, PlanStates;
  }

  lemma NextKeepsPlanInv(s: State, step: Step, t: State, c: nat)
    requires Inv(s) && PlanInv(s, c) && Next(s, step, t) && Orderly(s, step, s.calls[c].job.requestId)
    ensures PlanInv(t, c)
  {
    match step {
      case Invoke(job) =>
        hide Inv, PlanInv, FreshIds, Orderly, InvokeCall;
        InvokeKeepsPlanInv(s, c, job);
      case Advance(i, now, eventId) =>
        hide Inv, PlanInv, AdvanceCall;
        AdvanceKeepsPlanInv(s, c, i, now, eventId);
      case OthersAppend(e) =>
        hide Inv, PlanInv, OthersMayAppend;
        OthersKeepPlanInv(s, c, e);
      case _ =>
        hide InOrder, PlanStates, Inv;
    }
  }

  ghost predicate IsOrderlyRun(states: seq<State>, steps: seq<Step>, requestId: string) {
    IsRun(states, steps) && forall k :: 0 <= k < |steps| ==> Orderly(states[k], steps[k], requestId)
  }

  lemma {:induction false} RunsKeepPlanInv(states: seq<State>, steps: seq<Step>, k: nat, c: nat)
    requires IsRun(states, steps) && k <= |steps| && c < |states[k].calls| && states[k].calls[c].job.Submit?
    requires IsOrderlyRun(states, steps, states[k].calls[c].job.requestId)
    ensures PlanInv(states[k], c)
  {
    hide Next, Inv, PlanInv, Orderly;
    if k > 0 {
      var s, step := states[k - 1], steps[k - 1];
      RunsKeepInv(states, steps, k - 1);
      if c < |s.calls| {
        StepKeepsJobs(s, step, states[k], c);
        RunsKeepPlanInv(states, steps, k - 1, c);
        NextKeepsPlanInv(s, step, states[k], c);
      } else {
        NewCallIsInvoked(s, step, states[k], c);
        SubmitStartsInOrder(s, step.job);
      }
    }
  }

  lemma NewCallIsInvoked(s: State, step: Step, t: State, c: nat)
    requires Next(s, step, t) && |s.calls| <= c < |t.calls| && t.calls[c].job.Submit?
    ensures step.Invoke? && c == |s.calls| && step.job == t.calls[c].job && FreshIds(s, step.job) && t == InvokeCall(s, step.job)
  {
    hide PcAfter, EventOf, FreshIds;
  }

  predicate InPlanOrder(states: seq<PlanState>) {
    states <= [Ready, AwaitingApproval, PlanApproved, VerificationPending] || states <= [Ready, AwaitingApproval, Rejected]
  }

  /**
   In every orderly run a plan's events are ready, awaiting approval, then approved and verification pending, or
   rejected; and the last two only after the request is decided so.
   */
  lemma PlanEventsAreInOrder(states: seq<State>, steps: seq<Step>, k: nat, c: nat)
    requires IsRun(states, steps) && k <= |steps| && c < |states[k].calls| && states[k].calls[c].job.Submit?
    requires IsOrderlyRun(states, steps, states[k].calls[c].job.requestId)
    ensures var s := states[k];
            var recorded := PlanStates(s.log, s.calls[c].job.planId);
            && InPlanOrder(recorded)
            && (PlanApproved in recorded ==> Verdict(s.log, s.calls[c].job.requestId, Approve))
            && (Rejected in recorded ==> Verdict(s.log, s.calls[c].job.requestId, Deny))
  {
    RunsKeepPlanInv(states, steps, k, c);
    hide Next, Verdict, PlanStates, CreationsMatch;
    OrderedStates(states[k].calls, c, PlanStates(states[k].log, states[k].calls[c].job.planId));
  }

  lemma OrderedStates(calls: seq<Call>, c: nat, states: seq<PlanState>)
    requires InOrder(calls, c, states)
    ensures InPlanOrder(states)
  {
    if i :| 0 <= i < |calls| && Resolves(calls[i], calls[c].job.requestId) {
      assert states == [Ready, AwaitingApproval] + states[2..];
    }
  }

  // ---- Why the order needs resolves to wait

  const YES: RequestStore.Operation := RequestStore.Resolve(Approve, None, None, None)

  /** A submission up to the creation of its request. */
  lemma SubmitToCreated(s: State, job: Job) returns (created: State)
    requires Inv(s) && FreshIds(s, job) && job.Submit?
    ensures var c := |s.calls|;
            var s1 := InvokeCall(s, job);
            created == AdvanceCall(AdvanceCall(s1, c, s.clock, ""), c, s.clock, "")
    ensures |created.calls| == |s.calls| + 1 && created.calls[|s.calls|] == Call(job, AppendAwaiting) && created.clock == s.clock
    ensures PlanStates(created.log, job.planId) == [Ready]
    ensures Lookup(Project(created.log, s.clock), job.requestId) == Some(ApprovalRequest(job, s.clock))
  {
    hide Fold, Project, Inv, PlanStates, ApprovalRequest, FreshIds;
    var c := |s.calls|;
    var r := ApprovalRequest(job, s.clock);
    var s1 := InvokeCall(s, job);
    var s2 := AdvanceCall(s1, c, s.clock, "");
    SubmitSegments(s1, c);
    created := AdvanceCall(s2, c, s.clock, "");
    SubmitSegments(s2, c);
    NoPlanStates(s.log, job.planId) by { FreshPlan(s, job); }
    AdvanceAdds(s1, c, s.clock, "", job.planId);
    AdvanceAdds(s2, c, s.clock, "", job.planId);
    RequestIsNew(job, s.clock);
    NewRequestIsPending(s2.log, created.log[|s2.log|], r, s.clock);
    hide AdvanceCall;
  }

  lemma FreshPlan(s: State, job: Job)
    requires FreshIds(s, job) && job.Submit?
    ensures forall k :: 0 <= k < |s.log| ==> !OfPlan(s.log[k].body, job.planId)
  {
  }

  lemma RequestIsNew(job: Job, clock: int)
    requires job.Submit?
    ensures var r := ApprovalRequest(job, clock);
            r.requestId == job.requestId && r.state == Pending && clock < r.expiresAt && r.kind == PlanApproval
            && r.proposedInput.PlanProposal? && r.proposedInput.planId == job.planId
  {
  }

  /** The first two segments of a submission. */
  lemma SubmitSegments(s: State, c: nat)
    requires c < |s.calls| && s.calls[c].job.Submit?
    ensures var t := AdvanceCall(s, c, s.clock, "");
            && |t.calls| == |s.calls| && t.calls[c].job == s.calls[c].job && t.clock == s.clock
            && (s.calls[c].pc == AppendReady ==>
                  t.calls[c].pc == AppendRequest(ApprovalRequest(s.calls[c].job, s.clock)) && Added(s.calls[c], s.calls[c].job.planId) == [Ready])
            && (s.calls[c].pc.AppendRequest? ==>
                  t.calls[c].pc == AppendAwaiting && Added(s.calls[c], s.calls[c].job.planId) == []
                  && |t.log| == |s.log| + 1 && t.log == s.log + [t.log[|s.log|]]
                  && t.log[|s.log|].body == RequestCreated(s.calls[c].pc.record, None))
  {
    hide Fold, Project, ApprovalRequest;
  }

  lemma NewRequestIsPending(log: seq<ControlEvent>, e: ControlEvent, r: ControlRequest, now: int)
    requires e.body == RequestCreated(r, None) && r.state == Pending && now < r.expiresAt
    ensures Lookup(Project(log + [e], now), r.requestId) == Some(r)
  {
    ProjectedRequest(log + [e], now, r.requestId);
    hide Project;
  }

  /** The verdict on a request nobody has settled is what the next reader sees. */
  lemma VerdictIsSeen(log: seq<ControlEvent>, e: ControlEvent, r: ControlRequest, now: int)
    requires Lookup(Project(log, now), r.requestId) == Some(r) && r.state == Pending
    requires e.body == RequestStore.EventFor(YES, r.requestId)
    ensures Lookup(Project(log + [e], now), r.requestId) ==
            Some(Settle(r, e)) && Settle(r, e).state == Approved
  {
    assert (log + [e])[..|log|] == log;
    ApplyToRequest(Fold(log), e, r.requestId);
    hide Apply;
  }

  /** What a reader finds is the request's approved record. */
  predicate IsApproved(log: seq<ControlEvent>, now: int, requestId: string, r: ControlRequest) {
    && Lookup(Project(log, now), requestId) == Some(r)
    && r.requestId == requestId && r.state == Approved && r.kind == PlanApproval && HasPlan(r)
  }

  /** A whole resolve of a pending request, up to its first plan event; nothing else moves. */
  lemma ResolveToApproved(s: State, r: ControlRequest) returns (states: seq<State>, steps: seq<Step>)
    requires Lookup(Project(s.log, s.clock), r.requestId) == Some(r)
    requires r.state == Pending && s.clock < r.expiresAt && r.kind == PlanApproval && HasPlan(r)
    ensures |states| == 7 && |steps| == 6 && states[0] == s
    ensures forall k :: 0 <= k < 6 ==> Next(states[k], steps[k], states[k + 1])
    ensures steps[0] == Invoke(ResolveRequest(r.requestId, YES)) && forall k :: 1 <= k < 6 ==> steps[k].Advance?
    ensures states[1] == InvokeCall(s, ResolveRequest(r.requestId, YES))
    ensures var t, d := states[6], |s.calls|;
            && t.clock == s.clock && |t.calls| == d + 1 && t.calls[..d] == s.calls
            && PlanStates(t.log, r.proposedInput.planId) == PlanStates(s.log, r.proposedInput.planId)
            && t.calls[d].pc.AppendApproved? && t.calls[d].pc.resolved.proposedInput == r.proposedInput
            && t.calls[d].job.ResolveRequest?
    ensures var t, d := states[6], |s.calls|; IsApproved(t.log, t.clock, r.requestId, t.calls[d].pc.resolved)
  {
    hide Project, Fold, Expire, FreshIds, PlanStates, AdvanceCall, Settle;
    var d, now := |s.calls|, s.clock;
    var s1 := InvokeCall(s, ResolveRequest(r.requestId, YES));
    assert Next(s, Invoke(ResolveRequest(r.requestId, YES)), s1) by { FreshToResolve(s, r.requestId); }
    ResolveReads(s1, d, r);
    var s2 := AdvanceCall(s1, d, now, "");
    var s3 := AdvanceCall(s2, d, now, "");
    var s4 := AdvanceCall(s3, d, now, "");
    ResolveDecides(s3, d, r);
    PlanStatesMore(s.log, s4.log[|s.log|], r.proposedInput.planId);
    var s5 := AdvanceCall(s4, d, now, "");
    var s6 := AdvanceCall(s5, d, now, "");
    states := [s, s1, s2, s3, s4, s5, s6];
    steps := [Invoke(ResolveRequest(r.requestId, YES)), Advance(d, now, ""), Advance(d, now, ""), Advance(d, now, ""),
              Advance(d, now, ""), Advance(d, now, "")];
  }

  /** The two reads before the verdict is appended. */
  lemma ResolveReads(s: State, d: nat, r: ControlRequest)
    requires d < |s.calls| && s.calls[d] == Call(ResolveRequest(r.requestId, YES), ReadBefore)
    requires Lookup(Project(s.log, s.clock), r.requestId) == Some(r) && r.state == Pending && s.clock < r.expiresAt
    ensures var t := AdvanceCall(s, d, s.clock, ""); |t.calls| == |s.calls| && t.clock == s.clock
    ensures var t := AdvanceCall(AdvanceCall(s, d, s.clock, ""), d, s.clock, "");
            && t.log == s.log && t.clock == s.clock
            && t.calls == s.calls[d := Call(s.calls[d].job, AppendOutcome(Some(r.kind), RequestStore.EventFor(YES, r.requestId), r.turnId))]
  {
    hide Project, Fold, Expire;
    var t := AdvanceCall(s, d, s.clock, "");
    assert t.log == s.log && t.calls[d].pc == Reading(Some(r.kind));
  }

  /** The verdict, the read after it, and the decision. */
  lemma ResolveDecides(s: State, d: nat, r: ControlRequest)
    requires d < |s.calls|
    requires s.calls[d] == Call(ResolveRequest(r.requestId, YES), AppendOutcome(Some(r.kind), RequestStore.EventFor(YES, r.requestId), r.turnId))
    requires Lookup(Project(s.log, s.clock), r.requestId) == Some(r) && r.state == Pending && r.kind == PlanApproval && HasPlan(r)
    ensures var a := AdvanceCall(s, d, s.clock, "");
            && |a.calls| == |s.calls| && a.clock == s.clock
            && |a.log| == |s.log| + 1 && a.log == s.log + [a.log[|s.log|]]
            && a.log[|s.log|].body == RequestStore.EventFor(YES, r.requestId)
            && var b := AdvanceCall(a, d, s.clock, "");
               && |b.calls| == |s.calls| && b.clock == s.clock
               && var t := AdvanceCall(b, d, s.clock, "");
                  && t.log == a.log && t.clock == s.clock
                  && t.calls == s.calls[d := Call(s.calls[d].job, AppendApproved(Settle(r, a.log[|s.log|])))]
                  && Settle(r, a.log[|s.log|]).proposedInput == r.proposedInput
                  && IsApproved(t.log, t.clock, r.requestId, Settle(r, a.log[|s.log|]))
  {
    hide Project, Fold, Expire;
    var a := AdvanceCall(s, d, s.clock, "");
    var e := a.log[|s.log|];
    VerdictIsSeen(s.log, e, r, s.clock);
    var b := AdvanceCall(a, d, s.clock, "");
    assert b.log == a.log && b.calls[d].pc == Deciding(Some(PlanApproval), Settle(r, e));
  }

  lemma FreshToResolve(s: State, requestId: string)
    ensures FreshIds(s, ResolveRequest(requestId, YES))
  {
  }

  /**
   Without that wait the order fails: from every reachable state a plan can be submitted and resolved so that the
   ledger records it approved before it records that it awaits approval.
   */
  lemma EarlyResolveBreaksTheOrder(s: State, job: Job) returns (states: seq<State>, steps: seq<Step>)
    requires Inv(s) && FreshIds(s, job) && job.Submit?
    ensures states != [] && |states| == |steps| + 1 && states[0] == s
    ensures forall k :: 0 <= k < |steps| ==> Next(states[k], steps[k], states[k + 1])
    ensures PlanStates(states[|steps|].log, job.planId) == [Ready, PlanApproved, AwaitingApproval]
  {
    hide Fold, Project, Inv, FreshIds, PlanStates, PostureAfter, HiddenAfter, PcAfter, ApprovalRequest, TurnOf, IsApproved, Emit;
    var c, d := |s.calls|, |s.calls| + 1;
    var s1 := InvokeCall(s, job);
    var s2 := AdvanceCall(s1, c, s.clock, "");
    var s3 := SubmitToCreated(s, job);
    var r := ApprovalRequest(job, s.clock);
    RequestIsNew(job, s.clock);
    var middle, taken := ResolveToApproved(s3, r);
    var s9 := middle[6];
    assert s9.calls[c] == s9.calls[..d][c];
    var s10 := AdvanceCall(s9, d, s.clock, "");
    AdvanceAdds(s9, d, s.clock, "", job.planId);
    var s11 := AdvanceCall(s10, c, s.clock, "");
    AdvanceAdds(s10, c, s.clock, "", job.planId);
    states := [s, s1, s2] + middle + [s10, s11];
    steps := [Invoke(job), Advance(c, s.clock, ""), Advance(c, s.clock, "")] + taken + [Advance(d, s.clock, ""), Advance(c, s.clock, "")];
    hide AdvanceCall, InvokeCall;
  }

  /** Plan and verification events leave every request as it is. */
  lemma OtherEventKeepsRequests(log: seq<ControlEvent>, e: ControlEvent, now: int, id: string)
    requires e.body.PlanLifecycle? || e.body.Verification?
    ensures Lookup(Project(log + [e], now), id) == Lookup(Project(log, now), id)
  {
    assert (log + [e])[..|log|] == log;
    ApplyToRequest(Fold(log), e, id);
    hide Apply;
  }

  /** A segment that records a plan or a verification event. */
  lemma RecordingSegment(s: State, i: nat, id: string)
    requires i < |s.calls| && EventOf(s.calls[i]).Some?
    requires EventOf(s.calls[i]).value.PlanLifecycle? || EventOf(s.calls[i]).value.Verification?
    ensures var t := AdvanceCall(s, i, s.clock, "");
            && |t.calls| == |s.calls| && t.clock == s.clock
            && t.calls == s.calls[i := s.calls[i].(pc := PcAfter(s, s.calls[i], s.clock))]
            && Lookup(Project(t.log, t.clock), id) == Lookup(Project(s.log, s.clock), id)
  {
    hide PcAfter, EventOf, Fold, PostureAfter, HiddenAfter, Project;
    var t := AdvanceCall(s, i, s.clock, "");
    assert t.log == s.log + [t.log[|s.log|]];
    OtherEventKeepsRequests(s.log, t.log[|s.log|], s.clock, id);
  }

  function Thrice(s: State, i: nat): (t: State)
    requires i < |s.calls|
    ensures |t.calls| == |s.calls|
  {
    AdvanceCall(AdvanceCall(AdvanceCall(s, i, s.clock, ""), i, s.clock, ""), i, s.clock, "")
  }

  /** The three segments behind an approval record the plan approved and its verification pending. */
  lemma ApprovalIsRecorded(s: State, i: nat, r: ControlRequest)
    requires i < |s.calls| && s.calls[i].pc == AppendApproved(r) && s.calls[i].job.ResolveRequest? && HasPlan(r)
    ensures var t := Thrice(s, i);
            && t.clock == s.clock && t.calls == s.calls[i := Call(s.calls[i].job, Done)]
            && Lookup(Project(t.log, t.clock), r.requestId) == Lookup(Project(s.log, s.clock), r.requestId)
            && PlanStates(t.log, r.proposedInput.planId)
               == PlanStates(s.log, r.proposedInput.planId) + [PlanApproved, VerificationPending]
  {
    hide AdvanceCall, PlanStates, Project;
    var planId := r.proposedInput.planId;
    var a := AdvanceCall(s, i, s.clock, "");
    RecordingSegment(s, i, r.requestId);
    AdvanceAdds(s, i, s.clock, "", planId);
    var b := AdvanceCall(a, i, s.clock, "");
    RecordingSegment(a, i, r.requestId);
    AdvanceAdds(a, i, s.clock, "", planId);
    RecordingSegment(b, i, r.requestId);
    AdvanceAdds(b, i, s.clock, "", planId);
  }

  /** A whole submission, left alone. */
  lemma SubmitToDone(s: State, job: Job) returns (done: State)
    requires Inv(s) && FreshIds(s, job) && job.Submit?
    ensures done == Thrice(InvokeCall(s, job), |s.calls|)
    ensures |done.calls| == |s.calls| + 1 && done.calls[|s.calls|] == Call(job, Done) && done.clock == s.clock
    ensures PlanStates(done.log, job.planId) == [Ready, AwaitingApproval]
    ensures Lookup(Project(done.log, s.clock), job.requestId) == Some(ApprovalRequest(job, s.clock))
  {
    hide AdvanceCall, PlanStates, Project, FreshIds, Inv, ApprovalRequest;
    var c := |s.calls|;
    var created := SubmitToCreated(s, job);
    done := AdvanceCall(created, c, s.clock, "");
    RecordingSegment(created, c, job.requestId);
    AdvanceAdds(created, c, s.clock, "", job.planId);
  }

  ghost predicate IsPath(states: seq<State>, steps: seq<Step>) {
    |states| == |steps| + 1 && forall k :: 0 <= k < |steps| ==> Next(states[k], steps[k], states[k + 1])
  }

  lemma JoinPaths(a: seq<State>, taken: seq<Step>, b: seq<State>, next: seq<Step>)
    requires IsPath(a, taken) && IsPath(b, next) && a[|taken|] == b[0]
    ensures IsPath(a + b[1..], taken + next)
  {
    hide Next;
    var states, steps := a + b[1..], taken + next;
    forall k | 0 <= k < |steps| ensures Next(states[k], steps[k], states[k + 1]) {
      if k >= |taken| {
        assert states[k] == b[k - |taken|] && states[k + 1] == b[k + 1 - |taken|] && steps[k] == next[k - |taken|];
      } else {
        assert states[k] == a[k] && states[k + 1] == a[k + 1];
      }
    }
  }

  function ThreeStates(s: State, i: nat): (states: seq<State>)
    requires i < |s.calls|
    ensures |states| == 4 && states[0] == s && states[3] == Thrice(s, i)
  {
    var a := AdvanceCall(s, i, s.clock, "");
    var b := AdvanceCall(a, i, s.clock, "");
    [s, a, b, Thrice(s, i)]
  }

  function ThreeSteps(s: State, i: nat): (steps: seq<Step>)
    ensures |steps| == 3 && forall k :: 0 <= k < 3 ==> steps[k].Advance?
  {
    [Advance(i, s.clock, ""), Advance(i, s.clock, ""), Advance(i, s.clock, "")]
  }

  lemma ThreeSegments(s: State, i: nat)
    requires i < |s.calls|
    ensures IsPath(ThreeStates(s, i), ThreeSteps(s, i))
  {
    hide PcAfter, EventOf, Emit, PostureAfter, HiddenAfter;
  }

  /** An approved plan is resolved again, and recorded again. */
  lemma AgainToRecorded(s: State, r: ControlRequest) returns (states: seq<State>, steps: seq<Step>)
    requires IsApproved(s.log, s.clock, r.requestId, r)
    ensures IsPath(states, steps) && |steps| == 7 && |states| == 8 && states[0] == s
    ensures steps[0] == Invoke(ResolveRequest(r.requestId, YES))
    ensures PlanStates(states[7].log, r.proposedInput.planId)
         == PlanStates(s.log, r.proposedInput.planId) + [PlanApproved, VerificationPending]
  {
    hide Project, Next, PlanStates, Thrice, ThreeStates, ThreeSteps;
    var a, taken := ResolveAgain(s, r, YES);
    ThreeSegments(a[4], |s.calls|);
    ApprovalIsRecorded(a[4], |s.calls|, r);
    JoinPaths(a, taken, ThreeStates(a[4], |s.calls|), ThreeSteps(a[4], |s.calls|));
    states, steps := a + ThreeStates(a[4], |s.calls|)[1..], taken + ThreeSteps(a[4], |s.calls|);
  }

  /** A pending plan request is resolved, and its approval recorded. */
  lemma FirstToRecorded(s: State, r: ControlRequest) returns (states: seq<State>, steps: seq<Step>, approved: ControlRequest)
    requires Lookup(Project(s.log, s.clock), r.requestId) == Some(r)
    requires r.state == Pending && s.clock < r.expiresAt && r.kind == PlanApproval && HasPlan(r)
    ensures IsPath(states, steps) && |steps| == 9 && |states| == 10 && states[0] == s
    ensures steps[0] == Invoke(ResolveRequest(r.requestId, YES)) && forall k :: 1 <= k < 9 ==> steps[k].Advance?
    ensures states[1] == InvokeCall(s, ResolveRequest(r.requestId, YES)) && states[9].clock == s.clock
    ensures IsApproved(states[9].log, states[9].clock, r.requestId, approved) && approved.proposedInput == r.proposedInput
    ensures |states[9].calls| == |s.calls| + 1 && states[9].calls[|s.calls|].pc == Done && states[9].calls[..|s.calls|] == s.calls
    ensures PlanStates(states[9].log, r.proposedInput.planId)
         == PlanStates(s.log, r.proposedInput.planId) + [PlanApproved, VerificationPending]
  {
    hide Project, Next, PlanStates, Thrice, ThreeStates, ThreeSteps;
    var d := |s.calls|;
    var a, taken := ResolveToApproved(s, r);
    approved := a[6].calls[d].pc.resolved;
    ThreeSegments(a[6], d);
    ApprovalIsRecorded(a[6], d, approved);
    JoinPaths(a, taken, ThreeStates(a[6], d), ThreeSteps(a[6], d));
    states, steps := a + ThreeStates(a[6], d)[1..], taken + ThreeSteps(a[6], d);
    assert states[9] == Thrice(a[6], d);
  }

  /** A plan is submitted and awaits approval. */
  lemma SubmitRun(s: State, job: Job) returns (states: seq<State>, steps: seq<Step>)
    requires Inv(s) && FreshIds(s, job) && job.Submit?
    ensures IsPath(states, steps) && |steps| == 4 && |states| == 5 && states[0] == s && states[4].clock == s.clock
    ensures |states[4].calls| == |s.calls| + 1 && states[4].calls[|s.calls|].pc == Done
    ensures PlanStates(states[4].log, job.planId) == [Ready, AwaitingApproval]
    ensures Lookup(Project(states[4].log, s.clock), job.requestId) == Some(ApprovalRequest(job, s.clock))
  {
    hide Project, PlanStates, Thrice, ThreeStates, ThreeSteps, AdvanceCall, FreshIds, Inv, ApprovalRequest;
    var c, s1 := |s.calls|, InvokeCall(s, job);
    var done := SubmitToDone(s, job);
    assert IsPath([s, s1], [Invoke(job)]);
    hide Next;
    ThreeSegments(s1, c);
    JoinPaths([s, s1], [Invoke(job)], ThreeStates(s1, c), ThreeSteps(s1, c));
    states, steps := [s, s1] + ThreeStates(s1, c)[1..], [Invoke(job)] + ThreeSteps(s1, c);
  }

  /**
   Resolving once is needed too: from every reachable state a plan can be submitted and then resolved twice, each call
   starting after the one before has returned, so that the ledger records it approved twice.
   */
  lemma SecondResolveRecordsAgain(s: State, job: Job) returns (states: seq<State>, steps: seq<Step>)
    requires Inv(s) && FreshIds(s, job) && job.Submit?
    ensures IsPath(states, steps) && |steps| == 20 && |states| == 21 && states[0] == s
    ensures steps[4] == steps[13] == Invoke(ResolveRequest(job.requestId, YES))
    ensures |states[4].calls| == |s.calls| + 1 && states[4].calls[|s.calls|].pc == Done
    ensures |states[13].calls| == |s.calls| + 2 && states[13].calls[|s.calls|].pc == states[13].calls[|s.calls| + 1].pc == Done
    ensures PlanStates(states[20].log, job.planId)
         == [Ready, AwaitingApproval, PlanApproved, VerificationPending, PlanApproved, VerificationPending]
  {
    hide Project, Inv, FreshIds, PlanStates, Next, ApprovalRequest, IsPath;
    var r := ApprovalRequest(job, s.clock);
    var a, submitting := SubmitRun(s, job);
    RequestIsNew(job, s.clock);
    var b, resolving, approved := FirstToRecorded(a[4], r);
    var c, again := AgainToRecorded(b[9], approved);
    JoinPaths(a, submitting, b, resolving);
    JoinPaths(a + b[1..], submitting + resolving, c, again);
    states, steps := a + b[1..] + c[1..], submitting + resolving + again;
  }
}
