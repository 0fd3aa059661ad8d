/** Which plan src/plan/PlanLifecycle.ts puts up for approval, and what its events say of it. */
module PlanContents {
  import opened Outcomes
  import opened ControlEvents
  import opened Projection
  import opened Lifecycle = PlanLifecycle
  import opened PlanOrder
  import Text

  /** The request asks for approval of the submitted plan, its text trimmed, for half an hour. */
  predicate Proposes(r: ControlRequest, job: Job)
    requires job.Submit?
  {
    && r.requestId == job.requestId && r.kind == PlanApproval && r.state == Pending
    && r.sessionKey == job.sessionKey && r.turnId == Some(job.turnId)
    && r.prompt == "Approve this plan before execution tools are unlocked."
    && r.proposedInput == PlanProposal(job.planId, Text.Trim(job.plan))
    && r.expiresAt == r.createdAt + 1_800_000
    && r.resolvedAt == None && r.decision == None && r.feedback == None && r.updatedInput == None && r.answer == None && r.cancelReason == None
  }

  /** An event of the plan carries its trimmed text, and a rejection the feedback its request was denied with. */
  predicate SaysPlan(log: seq<ControlEvent>, e: ControlEvent, job: Job)
    requires job.Submit?
  {
    && e.body.PlanLifecycle? && e.turnId == Some(job.turnId) && e.body.plan == Some(Text.Trim(job.plan))
    && e.body.planState in {Ready, AwaitingApproval, PlanApproved, VerificationPending, Rejected}
    && e.body.planRequest == (if e.body.planState == Ready then None else Some(job.requestId))
    && (if e.body.planState == Rejected then
          var decided := Decided(log, job.requestId);
          decided.Some? && decided.value.state == Denied && e.body.planFeedback == decided.value.feedback
        else e.body.planFeedback == None)
  }

  predicate TellsOf(log: seq<ControlEvent>, e: ControlEvent, job: Job)
    requires job.Submit?
  {
    && (Creates(e.body, job.requestId) ==> e.turnId == Some(job.turnId) && e.body.idempotencyKey == None && Proposes(e.body.request, job))
    && (OfPlan(e.body, job.planId) ==> SaysPlan(log, e, job))
  }

  /** Whatever the ledger holds of the plan of call `c` is as submitted. */
  ghost predicate Told(s: State, c: nat)
    requires c < |s.calls| && s.calls[c].job.Submit?
  {
    && CreationsMatch(s.log, s.calls[c].job.planId, s.calls[c].job.requestId)
    && (s.calls[c].pc.AppendRequest? ==> Proposes(s.calls[c].pc.record, s.calls[c].job))
    && forall j :: 0 <= j < |s.log| ==> TellsOf(s.log, s.log[j], s.calls[c].job)
  }

  /** A decided request still asks what it was created to ask. */
  lemma DecidedAsks(log: seq<ControlEvent>, job: Job)
    requires job.Submit? && Decided(log, job.requestId).Some?
    requires forall j :: 0 <= j < |log| ==> TellsOf(log, log[j], job)
    ensures var r := Decided(log, job.requestId).value;
            && r.requestId == job.requestId && r.turnId == Some(job.turnId)
            && r.proposedInput == PlanProposal(job.planId, Text.Trim(job.plan))
  {
    hide SaysPlan;
    var k := LastCreation(log, job.requestId).value;
    assert TellsOf(log, log[k], job) && Creates(log[k].body, job.requestId);
  }

  lemma TellingStays(log: seq<ControlEvent>, more: ControlEvent, e: ControlEvent, job: Job)
    requires job.Submit? && TellsOf(log, e, job) && CreatesAnew(log, more)
    ensures TellsOf(log + [more], e, job)
  {
    hide Decided, CreatesAnew, Proposes;
    if Decided(log, job.requestId).Some? && Decided(log, job.requestId).value.state == Denied {
      DecisionStays(log, more, job.requestId);
    }
  }

  /** What call `i` appends tells of the plan. */
  lemma AppendedTells(s: State, c: nat, i: nat, e: ControlEvent)
    requires Inv(s) && c < |s.calls| && s.calls[c].job.Submit? && Told(s, c) && i < |s.calls|
    requires EventOf(s.calls[i]) == Some(e.body) && e.turnId == TurnOf(s.calls[i])
    ensures TellsOf(s.log, e, s.calls[c].job)
  {
    var job := s.calls[c].job;
    assert CallOk(s.log, s.calls[i]);
    if Creates(e.body, job.requestId) {
      hide Backed, KindBacked, Proposes;
      EmitsOnlyOwnCreations(s, s.calls[i]);
      OneSubmitter(s, c, i);
    } else if OfPlan(e.body, job.planId) {
      OwnersRecord(s, c, i);
      if i != c { ResolverTells(s, c, i, e); }
    }
  }

  lemma OneSubmitter(s: State, c: nat, i: nat)
    requires Inv(s) && c < |s.calls| && i < |s.calls| && s.calls[c].job.Submit? && s.calls[i].job.Submit?
    requires s.calls[i].job.requestId == s.calls[c].job.requestId
    ensures i == c
  {
    hide CallOk;
  }

  lemma ResolverTells(s: State, c: nat, i: nat, e: ControlEvent)
    requires Inv(s) && c < |s.calls| && s.calls[c].job.Submit? && Told(s, c) && i < |s.calls|
    requires Resolves(s.calls[i], s.calls[c].job.requestId) && OfPlan(e.body, s.calls[c].job.planId)
    requires EventOf(s.calls[i]) == Some(e.body) && e.turnId == TurnOf(s.calls[i])
    ensures SaysPlan(s.log, e, s.calls[c].job)
  {
    assert CallOk(s.log, s.calls[i]);
    var pc := s.calls[i].pc;
    assert pc.AppendApproved? || pc.AppendVerificationPending? || pc.AppendRejected?;
    assert Decided(s.log, pc.resolved.requestId) == Some(pc.resolved);
    hide Decided, CreationsMatch, Proposes;
    DecidedAsks(s.log, s.calls[c].job);
  }

  lemma AdvanceKeepsTold(s: State, c: nat, i: nat, now: int, eventId: string)
    requires Inv(s) && c < |s.calls| && s.calls[c].job.Submit? && Told(s, c) && i < |s.calls|
    ensures var t := AdvanceCall(s, i, now, eventId); c < |t.calls| && t.calls[c].job == s.calls[c].job && Told(t, c)
  {
    var t, job := AdvanceCall(s, i, now, eventId), s.calls[c].job;
    RecordIsAsked(s, c, now);
    hide PcAfter, PostureAfter, HiddenAfter, Fold, Inv, TellsOf, Proposes;
    if EventOf(s.calls[i]).Some? {
      var e := t.log[|s.log|];
      assert t.log == s.log + [e];
      OwnEventsCreateAnew(s, i, e);
      AppendedTells(s, c, i, e);
      CreationsStay(s, c, i, e);
      hide EventOf, CreationsMatch;
      forall j | 0 <= j < |t.log| ensures TellsOf(t.log, t.log[j], job) {
        TellingStays(s.log, e, t.log[j], job);
      }
    }
  }

  lemma RecordIsAsked(s: State, c: nat, now: int)
    requires Inv(s) && c < |s.calls| && s.calls[c].job.Submit?
    ensures var next := PcAfter(s, s.calls[c], now); next.AppendRequest? ==> Proposes(next.record, s.calls[c].job)
  {
    hide Project;
  }

  lemma NextKeepsTold(s: State, step: Step, t: State, c: nat)
    requires Inv(s) && c < |s.calls| && s.calls[c].job.Submit? && Told(s, c) && Next(s, step, t)
    ensures c < |t.calls| && t.calls[c].job == s.calls[c].job && Told(t, c)
  {
    match step {
      case Advance(i, now, eventId) =>
        hide Inv, AdvanceCall, Told;
        AdvanceKeepsTold(s, c, i, now, eventId);
      case OthersAppend(e) =>
        hide Inv, SaysPlan, Proposes;
        var job := s.calls[c].job;
        assert TellsOf(s.log, e, job);
        forall j | 0 <= j < |t.log| ensures TellsOf(t.log, t.log[j], job) {
          TellingStays(s.log, e, t.log[j], job);
        }
      case _ =>
        hide Inv, TellsOf, FreshIds, CreationsMatch, Proposes;
    }
  }

  lemma SubmitStartsTold(s: State, job: Job)
    requires FreshIds(s, job) && job.Submit?
    ensures Told(InvokeCall(s, job), |s.calls|)
  {
    hide SaysPlan, Proposes;
  }

  /**
   In every run, whatever calls and other code do: a submission asks for the approval of exactly its plan, trimmed, and
   every event of that plan carries that text, a rejection also the feedback.
   */
  lemma {:induction false} SubmittedPlanIsTold(states: seq<State>, steps: seq<Step>, k: nat, c: nat)
    requires IsRun(states, steps) && k <= |steps| && c < |states[k].calls| && states[k].calls[c].job.Submit?
    ensures Told(states[k], c)
  {
    hide Next, Inv, Told;
    if k > 0 {
      var s, step := states[k - 1], steps[k - 1];
      RunsKeepInv(states, steps, k - 1);
      if c < |s.calls| {
        StepKeepsJobs(s, step, states[k], c);
        SubmittedPlanIsTold(states, steps, k - 1, c);
        NextKeepsTold(s, step, states[k], c);
      } else {
        NewCallIsInvoked(s, step, states[k], c);
        SubmitStartsTold(s, step.job);
      }
    }
  }

  // ---- Entering plan mode

  /** The plan of an `Enter` call has one kind of event only, and no request. */
  ghost predicate OnlyEntered(s: State, c: nat)
    requires c < |s.calls| && s.calls[c].job.Enter?
  {
    var job := s.calls[c].job;
    forall j :: 0 <= j < |s.log| ==> EntersOnly(s.log[j], job)
  }

  predicate EntersOnly(e: ControlEvent, job: Job)
    requires job.Enter?
  {
    && !CreatesFor(e.body, job.planId)
    && (OfPlan(e.body, job.planId) ==>
          && e.turnId == Some(job.turnId) && e.body.planState == Entered
          && e.body.planRequest == None && e.body.plan == None && e.body.planFeedback == None)
  }

  lemma AppendedEntersOnly(s: State, c: nat, i: nat, e: ControlEvent)
    requires Inv(s) && c < |s.calls| && s.calls[c].job.Enter? && OnlyEntered(s, c) && i < |s.calls|
    requires EventOf(s.calls[i]) == Some(e.body) && e.turnId == TurnOf(s.calls[i])
    ensures EntersOnly(e, s.calls[c].job)
  {
    assert CallOk(s.log, s.calls[i]);
    assert i != c && !s.calls[i].job.ResolveRequest? ==> s.calls[i].job.planId != s.calls[c].job.planId;
    hide KindBacked, Decided, Verdict, Uncreated, DistinctIds, UniqueCreations, AllCreatedPending;
    var pc := s.calls[i].pc;
    if pc.AppendApproved? || pc.AppendVerificationPending? || pc.AppendRejected? {
      var k :| 0 <= k < |s.log| && SameRequest(s.log[k].body, pc.resolved);
      assert EntersOnly(s.log[k], s.calls[c].job);
    }
  }

  lemma NextKeepsEntered(s: State, step: Step, t: State, c: nat)
    requires Inv(s) && c < |s.calls| && s.calls[c].job.Enter? && OnlyEntered(s, c) && Next(s, step, t)
    ensures c < |t.calls| && t.calls[c].job == s.calls[c].job && OnlyEntered(t, c)
  {
    hide Inv, PcAfter, PostureAfter, HiddenAfter, Fold, FreshIds, TurnOf, EventOf, EntersOnly;
    match step {
      case Advance(i, now, eventId) =>
        if EventOf(s.calls[i]).Some? { AppendedEntersOnly(s, c, i, t.log[|s.log|]); }
      case OthersAppend(e) =>
        assert EntersOnly(e, s.calls[c].job) by { OthersDoNotEnter(s, e, s.calls[c].job); }
      case _ =>
    }
  }

  lemma OthersDoNotEnter(s: State, e: ControlEvent, job: Job)
    requires OthersMayAppend(s, e) && job.Enter?
    ensures EntersOnly(e, job)
  {
  }

  lemma EnterStarts(s: State, job: Job)
    requires FreshIds(s, job) && job.Enter?
    ensures OnlyEntered(InvokeCall(s, job), |s.calls|)
  {
  }

  /** In every run a plan id drawn by entering plan mode stands for an entered plan without text, and for nothing else. */
  lemma {:induction false} EnteredPlanIsTold(states: seq<State>, steps: seq<Step>, k: nat, c: nat)
    requires IsRun(states, steps) && k <= |steps| && c < |states[k].calls| && states[k].calls[c].job.Enter?
    ensures OnlyEntered(states[k], c)
  {
    hide Next, Inv, OnlyEntered;
    if k > 0 {
      var s, step := states[k - 1], steps[k - 1];
      RunsKeepInv(states, steps, k - 1);
      if c < |s.calls| {
        StepKeepsJobs(s, step, states[k], c);
        EnteredPlanIsTold(states, steps, k - 1, c);
        NextKeepsEntered(s, step, states[k], c);
      } else {
        NewEnterIsInvoked(s, step, states[k], c);
        EnterStarts(s, step.job);
      }
    }
  }

  lemma NewEnterIsInvoked(s: State, step: Step, t: State, c: nat)
    requires Next(s, step, t) && |s.calls| <= c < |t.calls| && t.calls[c].job.Enter?
    ensures step.Invoke? && c == |s.calls| && step.job == t.calls[c].job && FreshIds(s, step.job) && t == InvokeCall(s, step.job)
  {
    hide PcAfter, EventOf, FreshIds;
  }
}
