/**
 When an approval keeps the order of a plan's events, for src/plan/PlanLifecycle.ts: the condition of the order theorem
 is exact.
 */
module PlanOrderExact {
  import opened Outcomes
  import opened ControlEvents
  import opened Projection
  import opened Lifecycle = PlanLifecycle
  import opened PlanOrder

  // ---- What follows a step

  /** Whatever calls and other code do from `s` on, but for another resolve of the request. */
  ghost predicate Continues(s: State, states: seq<State>, steps: seq<Step>, requestId: string) {
    && IsPath(states, steps) && states[0] == s
    && forall k :: 0 <= k < |steps| ==> !(steps[k].Invoke? && Resolves(Call(steps[k].job, ReadBefore), requestId))
  }

  /** However the calls go on, the plan's events stay in order. */
  ghost predicate KeepsOrder(s: State, planId: string, requestId: string) {
    forall states: seq<State>, steps: seq<Step> :: Continues(s, states, steps, requestId) ==> InPlanOrder(PlanStates(states[|steps|].log, planId))
  }

  // ---- What a resolving call has left behind

  /** The request is settled, or past its deadline. */
  predicate Closed(s: State, requestId: string) {
    var decided := Decided(s.log, requestId);
    decided.Some? && (decided.value.state != Pending || decided.value.expiresAt <= s.clock)
  }

  /** A call that has not had its outcome yet. */
  predicate IsEarly(pc: Pc) {
    pc.ReadBefore? || pc.Reading? || pc.AppendOutcome?
  }

  /** The submission of call `c` creates its request, and a resolving call leaves it closed. */
  ghost predicate Closing(s: State, c: nat)
    requires c < |s.calls| && s.calls[c].job.Submit?
  {
    && (s.calls[c].pc.AppendAwaiting? || s.calls[c].pc.Done? ==> Decided(s.log, s.calls[c].job.requestId).Some?)
    && forall i :: 0 <= i < |s.calls| && Resolves(s.calls[i], s.calls[c].job.requestId) ==>
         IsEarly(s.calls[i].pc) || Closed(s, s.calls[c].job.requestId)
  }

  lemma DecidedStays(log: seq<ControlEvent>, e: ControlEvent, id: string)
    requires Decided(log, id).Some? && CreatesAnew(log, e)
    ensures Decided(log + [e], id).Some?
    ensures Decided(log, id).value.state != Pending ==> Decided(log + [e], id) == Decided(log, id)
    ensures Decided(log + [e], id).value.state != Pending || Decided(log + [e], id) == Decided(log, id)
    ensures IsTerminalFor(e.body, id) ==> Decided(log + [e], id).value.state != Pending
  {
    DecidedOfMore(log, e, id);
    assert Creates(log[LastCreation(log, id).value].body, id);
    if Decided(log, id).value.state == Pending && IsTerminalFor(e.body, id) { SettledIsNotPending(Decided(log, id).value, e, id); }
  }

  /** `t` is `s` with at most one event more, which creates no request in use, at a later time. */
  ghost predicate Grows(s: State, t: State) {
    && s.clock <= t.clock
    && (t.log == s.log || (|t.log| == |s.log| + 1 && t.log == s.log + [t.log[|s.log|]] && CreatesAnew(s.log, t.log[|s.log|])))
  }

  lemma ClosedStays(s: State, t: State, id: string)
    requires Grows(s, t) && Decided(s.log, id).Some?
    ensures Decided(t.log, id).Some? && (Closed(s, id) ==> Closed(t, id))
  {
    hide Decided, CreatesAnew;
    if t.log != s.log { DecidedStays(s.log, t.log[|s.log|], id); }
  }

  lemma AdvanceGrows(s: State, i: nat, now: int, eventId: string)
    requires Inv(s) && i < |s.calls|
    ensures Grows(s, AdvanceCall(s, i, now, eventId))
  {
    hide Inv, CreatesAnew, PcAfter, PostureAfter, HiddenAfter, Fold, EventOf;
    var t := AdvanceCall(s, i, now, eventId);
    if EventOf(s.calls[i]).Some? { OwnEventsCreateAnew(s, i, t.log[|s.log|]); }
  }

  /** A resolving call that gets past its outcome leaves the request closed. */
  lemma ResolverCloses(s: State, i: nat, now: int, eventId: string)
    requires Inv(s) && i < |s.calls| && s.calls[i].job.ResolveRequest? && now <= s.clock
    requires Decided(s.log, s.calls[i].job.requestId).Some?
    requires IsEarly(s.calls[i].pc)
    ensures var t := AdvanceCall(s, i, now, eventId); IsEarly(t.calls[i].pc) || Closed(t, s.calls[i].job.requestId)
  {
    hide Project, Decided, Backed, KindBacked, Fold, CreatesAnew, UniqueCreations, AllCreatedPending, DistinctIds;
    var c, t := s.calls[i], AdvanceCall(s, i, now, eventId);
    assert CallOk(s.log, c);
    AdvanceGrows(s, i, now, eventId);
    if c.pc.Reading? {
      ProjectedRequest(s.log, now, c.job.requestId);
    } else if c.pc.AppendOutcome? {
      DecidedStays(s.log, t.log[|s.log|], c.job.requestId);
    }
  }

  lemma SubmitterCreates(s: State, c: nat, now: int, eventId: string)
    requires Inv(s) && c < |s.calls| && s.calls[c].job.Submit? && s.calls[c].pc.AppendRequest?
    ensures Decided(AdvanceCall(s, c, now, eventId).log, s.calls[c].job.requestId).Some?
  {
    hide Decided, Fold, UniqueCreations, AllCreatedPending, DistinctIds;
    var t := AdvanceCall(s, c, now, eventId);
    assert CallOk(s.log, s.calls[c]);
    assert t.log == s.log + [t.log[|s.log|]];
    DecidedOfMore(s.log, t.log[|s.log|], s.calls[c].job.requestId);
  }

  lemma AdvanceMovesOne(s: State, i: nat, now: int, eventId: string)
    requires i < |s.calls|
    ensures var t := AdvanceCall(s, i, now, eventId);
            && |t.calls| == |s.calls| && t.calls[i] == s.calls[i].(pc := PcAfter(s, s.calls[i], now))
            && forall j :: 0 <= j < |t.calls| && j != i ==> t.calls[j] == s.calls[j]
  {
    hide PcAfter, EventOf, PostureAfter, HiddenAfter, Emit;
  }

  lemma AdvanceKeepsClosing(s: State, c: nat, i: nat, now: int, eventId: string)
    requires Inv(s) && PlanInv(s, c) && Closing(s, c) && i < |s.calls| && now <= s.clock
    ensures Closing(AdvanceCall(s, i, now, eventId), c)
  {
    var id, t := s.calls[c].job.requestId, AdvanceCall(s, i, now, eventId);
    assert CallOk(s.log, s.calls[c]);
    SubmitterGoesOn(s, c, now);
    ResolversWait(s, c);
    hide Inv, PcAfter, AdvanceCall, Decided, PlanInv, Closed, Grows, CallOk, IsEarly;
    AdvanceMovesOne(s, i, now, eventId);
    AdvanceGrows(s, i, now, eventId);
    if Decided(s.log, id).Some? {
      ClosedStays(s, t, id);
      if Resolves(s.calls[i], id) && IsEarly(s.calls[i].pc) { ResolverCloses(s, i, now, eventId); }
    } else if i == c && s.calls[c].pc.AppendRequest? {
      SubmitterCreates(s, c, now, eventId);
    }
  }

  lemma SubmitterGoesOn(s: State, c: nat, now: int)
    requires c < |s.calls| && CallOk(s.log, s.calls[c]) && s.calls[c].job.Submit?
    ensures var pc, next := s.calls[c].pc, PcAfter(s, s.calls[c], now);
            (next.AppendAwaiting? || next.Done?) && !pc.AppendRequest? ==> pc.AppendAwaiting? || pc.Done?
  {
  }

  lemma NextKeepsClosing(s: State, step: Step, t: State, c: nat)
    requires Inv(s) && PlanInv(s, c) && Closing(s, c) && Next(s, step, t)
    ensures Closing(t, c)
  {
    var id := s.calls[c].job.requestId;
    hide PlanInv, Decided, PcAfter, EventOf;
    match step {
      case Advance(i, now, eventId) =>
        hide Inv, AdvanceCall, Closing;
        AdvanceKeepsClosing(s, c, i, now, eventId);
      case OthersAppend(e) =>
        hide Inv;
        if Decided(s.log, id).Some? { ClosedStays(s, t, id); }
        ResolversWait(s, c);
      case Invoke(job) =>
        hide Inv, FreshIds;
        assert forall j :: 0 <= j < |s.calls| ==> t.calls[j] == s.calls[j];
      case TimePasses(clock) =>
        hide Inv;
        if Decided(s.log, id).Some? { ClosedStays(s, t, id); }
        ResolversWait(s, c);
      case _ =>
        hide Inv;
    }
  }

  /** A call that resolves the request began after the submission had returned. */
  lemma ResolversWait(s: State, c: nat)
    requires PlanInv(s, c) && Closing(s, c)
    ensures forall i :: 0 <= i < |s.calls| && Resolves(s.calls[i], s.calls[c].job.requestId) ==>
              s.calls[c].pc == Done && Decided(s.log, s.calls[c].job.requestId).Some?
  {
    hide VerdictsHeld, CreationsMatch, Decided, PlanStates;
  }

  lemma {:induction false} RunsKeepClosing(states: seq<State>, steps: seq<Step>, k: nat, c: nat)
    requires IsRun(states, steps) && k <= |steps| && c < |states[k].calls| && states[k].calls[c].job.Submit?
    requires IsOrderlyRun(states, steps, states[k].calls[c].job.requestId)
    ensures Closing(states[k], c)
  {
    hide Next, Inv, PlanInv, Orderly, Closing;
    if k > 0 {
      var s, step := states[k - 1], steps[k - 1];
      RunsKeepInv(states, steps, k - 1);
      if c < |s.calls| {
        StepKeepsJobs(s, step, states[k], c);
        RunsKeepPlanInv(states, steps, k - 1, c);
        RunsKeepClosing(states, steps, k - 1, c);
        NextKeepsClosing(s, step, states[k], c);
      } else {
        NewCallIsInvoked(s, step, states[k], c);
        SubmitStartsClosing(s, step.job);
      }
    }
  }

  lemma SubmitStartsClosing(s: State, job: Job)
    requires FreshIds(s, job) && job.Submit?
    ensures Closing(InvokeCall(s, job), |s.calls|)
  {
  }

  // ---- When the order is kept

  /** What the calls do from a state in which the plan is in order keeps it so, if nothing resolves it anew. */
  lemma {:induction false} ContinuingKeepsPlanInv(s: State, c: nat, states: seq<State>, steps: seq<Step>, n: nat)
    requires Inv(s) && PlanInv(s, c) && Continues(s, states, steps, s.calls[c].job.requestId) && n <= |steps|
    ensures Inv(states[n]) && PlanInv(states[n], c) && states[n].calls[c].job == s.calls[c].job
  {
    hide Inv, Next, InOrder, CreationsMatch, VerdictsHeld;
    if n > 0 {
      ContinuingKeepsPlanInv(s, c, states, steps, n - 1);
      NextKeepsInv(states[n - 1], steps[n - 1], states[n]);
      NextKeepsPlanInv(states[n - 1], steps[n - 1], states[n], c);
      StepKeepsJobs(states[n - 1], steps[n - 1], states[n], c);
    }
  }

  lemma PlanInvIsInOrder(s: State, c: nat)
    requires PlanInv(s, c)
    ensures InPlanOrder(PlanStates(s.log, s.calls[c].job.planId))
  {
    hide InPlanOrder, CreationsMatch, VerdictsHeld, PlanStates;
    OrderedStates(s.calls, c, PlanStates(s.log, s.calls[c].job.planId));
  }

  /** The step that starts resolving leaves the plan in order if it is the first, and the submission is over. */
  lemma OrderlyResolveKeepsOrder(s: State, c: nat)
    requires Inv(s) && PlanInv(s, c) && s.calls[c].pc == Done
    requires forall i :: 0 <= i < |s.calls| ==> !Resolves(s.calls[i], s.calls[c].job.requestId)
    ensures KeepsOrder(InvokeCall(s, ResolveRequest(s.calls[c].job.requestId, YES)), s.calls[c].job.planId, s.calls[c].job.requestId)
  {
    var job := ResolveRequest(s.calls[c].job.requestId, YES);
    var t := InvokeCall(s, job);
    assert t.calls[c] == s.calls[c];
    OwnSubmission(s, c);
    FreshToResolve(s, job.requestId);
    NextKeepsInv(s, Invoke(job), t);
    InvokeKeepsPlanInv(s, c, job);
    hide Inv, PlanInv, Continues, InvokeCall;
    forall states: seq<State>, steps: seq<Step> | Continues(t, states, steps, job.requestId)
      ensures InPlanOrder(PlanStates(states[|steps|].log, s.calls[c].job.planId))
    {
      assert |states| == |steps| + 1 by { PathLength(t, states, steps, job.requestId); }
      ContinuingKeepsPlanInv(t, c, states, steps, |steps|);
      PlanInvIsInOrder(states[|steps|], c);
    }
  }

  lemma PathLength(s: State, states: seq<State>, steps: seq<Step>, requestId: string)
    requires Continues(s, states, steps, requestId)
    ensures |states| == |steps| + 1
  {
  }

  /** Only one call submits the request. */
  lemma OwnSubmission(s: State, c: nat)
    requires Inv(s) && c < |s.calls| && s.calls[c].job.Submit?
    ensures forall i :: 0 <= i < |s.calls| && s.calls[i].job.Submit? && s.calls[i].job.requestId == s.calls[c].job.requestId ==> i == c
  {
    hide CallOk;
  }

  // ---- When it is not

  /** A reader finds the plan's request pending. */
  predicate IsOpen(s: State, requestId: string) {
    var found := Lookup(Project(s.log, s.clock), requestId);
    found.Some? && found.value.state == Pending
  }

  lemma OpenRequest(s: State, c: nat, r: ControlRequest)
    requires Inv(s) && PlanInv(s, c) && Lookup(Project(s.log, s.clock), s.calls[c].job.requestId) == Some(r) && r.state == Pending
    ensures r.requestId == s.calls[c].job.requestId && AsksFor(r, s.calls[c].job.planId) && s.clock < r.expiresAt
    ensures !Closed(s, r.requestId) && (s.calls[c].pc.AppendAwaiting? || s.calls[c].pc.Done?)
  {
    assert CallOk(s.log, s.calls[c]);
    hide Project, InOrder, VerdictsHeld, Decided, PlanStates;
    ProjectedIsBacked(s.log, s.clock, s.calls[c].job.requestId, r);
    ActedOnAsks(s.log, r, s.calls[c].job.planId, s.calls[c].job.requestId);
    ProjectedRequest(s.log, s.clock, s.calls[c].job.requestId);
    assert Creates(s.log[LastCreation(s.log, r.requestId).value].body, r.requestId) by { DecidedIsCreated(s.log, r.requestId); }
  }

  lemma DecidedIsCreated(log: seq<ControlEvent>, id: string)
    requires Decided(log, id).Some?
    ensures LastCreation(log, id).Some?
  {
  }

  lemma TailOfPath(states: seq<State>, steps: seq<Step>)
    requires IsPath(states, steps) && steps != []
    ensures IsPath(states[1..], steps[1..])
  {
    hide Next;
  }

  /** One more segment of call `i`. */
  lemma OneMoreSegment(states: seq<State>, steps: seq<Step>, i: nat)
    requires IsPath(states, steps) && i < |states[|steps|].calls|
    ensures var s := states[|steps|];
            IsPath(states + [AdvanceCall(s, i, s.clock, "")], steps + [Advance(i, s.clock, "")])
  {
    var s := states[|steps|];
    assert IsPath([s, AdvanceCall(s, i, s.clock, "")], [Advance(i, s.clock, "")]);
    hide Next, AdvanceCall;
    JoinPaths(states, steps, [s, AdvanceCall(s, i, s.clock, "")], [Advance(i, s.clock, "")]);
  }

  /** A segment that records a plan approved. */
  lemma RecordsApproved(s: State, i: nat, planId: string)
    requires i < |s.calls| && s.calls[i].pc.AppendApproved? && HasPlan(s.calls[i].pc.resolved)
    requires s.calls[i].pc.resolved.proposedInput.planId == planId
    ensures PlanStates(AdvanceCall(s, i, s.clock, "").log, planId) == PlanStates(s.log, planId) + [PlanApproved]
  {
    hide AdvanceCall, PlanStates;
    AdvanceAdds(s, i, s.clock, "", planId);
    assert PlanEvent(s.calls[i].pc.resolved, PlanApproved, None).planState == PlanApproved;
  }

  lemma OnlyReady(s: State, c: nat)
    requires PlanInv(s, c) && s.calls[c].pc == AppendAwaiting
    ensures PlanStates(s.log, s.calls[c].job.planId) == [Ready]
  {
    hide PlanStates, VerdictsHeld, CreationsMatch;
  }

  /** A whole resolve of an open request, from its first segment to the one that records the plan approved. */
  lemma ContinueToApproved(s: State, r: ControlRequest) returns (states: seq<State>, steps: seq<Step>)
    requires Lookup(Project(s.log, s.clock), r.requestId) == Some(r)
    requires r.state == Pending && s.clock < r.expiresAt && r.kind == PlanApproval && HasPlan(r)
    ensures |states| == |steps| + 1 && Continues(InvokeCall(s, ResolveRequest(r.requestId, YES)), states, steps, r.requestId)
    ensures PlanStates(states[|steps|].log, r.proposedInput.planId) == PlanStates(s.log, r.proposedInput.planId) + [PlanApproved]
  {
    hide Project, PlanStates, InvokeCall, IsApproved, Next, AdvanceCall;
    var a, taken := ResolveToApproved(s, r);
    assert IsPath(a, taken);
    var d, last := |s.calls|, a[6];
    TailOfPath(a, taken);
    OneMoreSegment(a[1..], taken[1..], d);
    RecordsApproved(last, d, r.proposedInput.planId);
    states, steps := a[1..] + [AdvanceCall(last, d, last.clock, "")], taken[1..] + [Advance(d, last.clock, "")];
  }

  /** Resolving an open request whose submission waits to record that it awaits approval. */
  lemma EarlyResolveBreaks(s: State, c: nat, r: ControlRequest) returns (states: seq<State>, steps: seq<Step>)
    requires Inv(s) && PlanInv(s, c) && s.calls[c].pc == AppendAwaiting
    requires Lookup(Project(s.log, s.clock), s.calls[c].job.requestId) == Some(r) && r.state == Pending
    ensures var id := s.calls[c].job.requestId; Continues(InvokeCall(s, ResolveRequest(id, YES)), states, steps, id)
    ensures |states| == |steps| + 1 && !InPlanOrder(PlanStates(states[|steps|].log, s.calls[c].job.planId))
  {
    hide Inv, Project, PlanStates, InvokeCall, Closed, Continues, InOrder, CreationsMatch, VerdictsHeld;
    OnlyReady(s, c);
    OpenRequest(s, c, r);
    states, steps := ContinueToApproved(s, r);
    assert PlanStates(states[|steps|].log, s.calls[c].job.planId)[1] == PlanApproved;
  }

  // ---- A second call goes on behind the approval

  /** The kind a call took down is that of a plan approval, or it took down none. */
  predicate KindFits(before: Option<RequestKind>) {
    before == None || before == Some(PlanApproval)
  }

  /** Call `i` resolves the approved request and has not acted on it. */
  ghost predicate WillApprove(s: State, i: nat, r: ControlRequest) {
    && i < |s.calls| && Resolves(s.calls[i], r.requestId) && IsApproved(s.log, s.clock, r.requestId, r)
    && match s.calls[i].pc
       case ReadBefore => true
       case Reading(before) => KindFits(before)
       case AppendOutcome(before, body, _) => KindFits(before) && IsTerminalFor(body, r.requestId)
       case Rereading(before) => KindFits(before)
       case Deciding(before, resolved) => KindFits(before) && resolved == r
       case AppendApproved(resolved) => resolved == r
       case _ => false
  }

  function SegmentsLeft(pc: Pc): nat {
    match pc
    case ReadBefore => 4
    case Reading(_) => 3
    case AppendOutcome(_, _, _) => 3
    case Rereading(_) => 2
    case Deciding(_, _) => 1
    case _ => 0
  }

  lemma TerminalKeepsApproved(log: seq<ControlEvent>, e: ControlEvent, now: int, r: ControlRequest)
    requires IsApproved(log, now, r.requestId, r) && IsTerminalFor(e.body, r.requestId)
    ensures IsApproved(log + [e], now, r.requestId, r)
  {
    hide Project, Decided;
    ProjectedRequest(log, now, r.requestId);
    DecidedStays(log, e, r.requestId);
    ProjectedRequest(log + [e], now, r.requestId);
  }

  lemma StillWillApprove(s: State, i: nat, r: ControlRequest, planId: string)
    requires WillApprove(s, i, r) && !s.calls[i].pc.AppendApproved?
    ensures var t := AdvanceCall(s, i, s.clock, "");
            && WillApprove(t, i, r) && SegmentsLeft(t.calls[i].pc) < SegmentsLeft(s.calls[i].pc)
            && PlanStates(t.log, planId) == PlanStates(s.log, planId)
  {
    hide Project, Fold, PlanStates;
    var t := AdvanceCall(s, i, s.clock, "");
    AdvanceAdds(s, i, s.clock, "", planId);
    assert PlanStates(s.log, planId) + [] == PlanStates(s.log, planId);
    if s.calls[i].pc.AppendOutcome? {
      assert t.log == s.log + [t.log[|s.log|]];
      TerminalKeepsApproved(s.log, t.log[|s.log|], s.clock, r);
    }
  }

  /** Left alone, the call comes to record the approval; nothing is recorded of a plan before that. */
  lemma GoesOnToApprove(s: State, i: nat, r: ControlRequest, planId: string) returns (states: seq<State>, steps: seq<Step>)
    requires WillApprove(s, i, r)
    ensures IsPath(states, steps) && |states| == |steps| + 1 && states[0] == s && forall k :: 0 <= k < |steps| ==> steps[k].Advance?
    ensures i < |states[|steps|].calls| && states[|steps|].calls[i].pc == AppendApproved(r)
    ensures PlanStates(states[|steps|].log, planId) == PlanStates(s.log, planId)
    decreases SegmentsLeft(s.calls[i].pc)
  {
    hide PlanStates, IsApproved;
    if s.calls[i].pc.AppendApproved? {
      return [s], [];
    }
    StillWillApprove(s, i, r, planId);
    var t := AdvanceCall(s, i, s.clock, "");
    var a, taken := GoesOnToApprove(t, i, r, planId);
    assert IsPath([s, t], [Advance(i, s.clock, "")]);
    hide Next, AdvanceCall;
    JoinPaths([s, t], [Advance(i, s.clock, "")], a, taken);
    states, steps := [s, t] + a[1..], [Advance(i, s.clock, "")] + taken;
  }

  lemma {:induction false} PathKeepsInv(states: seq<State>, steps: seq<Step>, n: nat)
    requires IsPath(states, steps) && Inv(states[0]) && n <= |steps|
    ensures Inv(states[n])
  {
    hide Next, Inv;
    if n > 0 {
      PathKeepsInv(states, steps, n - 1);
      NextKeepsInv(states[n - 1], steps[n - 1], states[n]);
    }
  }

  lemma EarlyCallWillApprove(s: State, i: nat, r: ControlRequest)
    requires Inv(s) && i < |s.calls| && Resolves(s.calls[i], r.requestId) && IsEarly(s.calls[i].pc)
    requires IsApproved(s.log, s.clock, r.requestId, r)
    ensures WillApprove(s, i, r)
  {
    assert CallOk(s.log, s.calls[i]);
    ProjectedIsBacked(s.log, s.clock, r.requestId, r);
    hide Project, Backed, KindBacked, UniqueCreations, AllCreatedPending, DistinctIds;
    var pc := s.calls[i].pc;
    if !pc.ReadBefore? && pc.before.Some? { KindsAgree(s.log, pc.before.value, r); }
  }

  /** Where the plan stands while the request is open and a call resolves it. */
  lemma OpenAndResolved(s: State, c: nat, i: nat)
    requires PlanInv(s, c) && i < |s.calls| && Resolves(s.calls[i], s.calls[c].job.requestId) && IsEarly(s.calls[i].pc)
    ensures PlanStates(s.log, s.calls[c].job.planId) == [Ready, AwaitingApproval]
  {
    hide PlanStates, VerdictsHeld, CreationsMatch;
    var states := PlanStates(s.log, s.calls[c].job.planId);
    assert states == [Ready, AwaitingApproval] + states[2..];
  }

  /** Resolving an open request that another call is resolving. */
  lemma SecondResolveBreaks(s: State, c: nat, i: nat, r: ControlRequest) returns (states: seq<State>, steps: seq<Step>)
    requires Inv(s) && PlanInv(s, c) && Closing(s, c)
    requires i < |s.calls| && Resolves(s.calls[i], s.calls[c].job.requestId)
    requires Lookup(Project(s.log, s.clock), s.calls[c].job.requestId) == Some(r) && r.state == Pending
    ensures var id := s.calls[c].job.requestId; Continues(InvokeCall(s, ResolveRequest(id, YES)), states, steps, id)
    ensures |states| == |steps| + 1 && !InPlanOrder(PlanStates(states[|steps|].log, s.calls[c].job.planId))
  {
    hide Inv, Project, PlanStates, InvokeCall, Closed, IsApproved, Next, AdvanceCall, InOrder, CreationsMatch, VerdictsHeld, WillApprove;
    var planId := s.calls[c].job.planId;
    OpenRequest(s, c, r);
    OpenAndResolved(s, c, i);
    var a, taken, approved := FirstToRecorded(s, r);
    PathKeepsInv(a, taken, 9);
    assert a[9].calls[i] == a[9].calls[..|s.calls|][i] == s.calls[i];
    assert approved.requestId == r.requestId && IsApproved(a[9].log, a[9].clock, approved.requestId, approved) by { ApprovedIs(a[9], r.requestId, approved); }
    EarlyCallWillApprove(a[9], i, approved);
    var b, more := GoesOnToApprove(a[9], i, approved, planId);
    var last := b[|more|];
    RecordsApproved(last, i, planId);
    TailOfPath(a, taken);
    JoinPaths(a[1..], taken[1..], b, more);
    OneMoreSegment(a[1..] + b[1..], taken[1..] + more, i);
    states := a[1..] + b[1..] + [AdvanceCall(last, i, last.clock, "")];
    steps := taken[1..] + more + [Advance(i, last.clock, "")];
  }

  lemma ApprovedIs(s: State, id: string, r: ControlRequest)
    requires IsApproved(s.log, s.clock, id, r)
    ensures r.requestId == id
  {
  }

  /**
   The order is kept exactly by orderly resolving: an approving call that starts on an open request leaves the plan's
   events in order, whatever all calls do then, if and only if the submission has returned and no other call resolves it.
   */
  lemma OrderIsKeptExactlyWhen(states: seq<State>, steps: seq<Step>, c: nat)
    requires IsRun(states, steps) && c < |states[|steps|].calls| && states[|steps|].calls[c].job.Submit?
    requires IsOrderlyRun(states, steps, states[|steps|].calls[c].job.requestId)
    requires IsOpen(states[|steps|], states[|steps|].calls[c].job.requestId)
    ensures var s := states[|steps|];
            var id, planId := s.calls[c].job.requestId, s.calls[c].job.planId;
            KeepsOrder(InvokeCall(s, ResolveRequest(id, YES)), planId, id) <==>
            s.calls[c].pc == Done && forall i :: 0 <= i < |s.calls| ==> !Resolves(s.calls[i], id)
  {
    var n := |steps|;
    var s := states[n];
    var id := s.calls[c].job.requestId;
    RunsKeepInv(states, steps, n);
    RunsKeepPlanInv(states, steps, n, c);
    RunsKeepClosing(states, steps, n, c);
    var r := Lookup(Project(s.log, s.clock), id).value;
    hide Next, Inv, PlanInv, Closing, InvokeCall, Project, Continues, InPlanOrder, Orderly;
    OpenRequest(s, c, r);
    if s.calls[c].pc != Done {
      var a, taken := EarlyResolveBreaks(s, c, r);
    } else if i :| 0 <= i < |s.calls| && Resolves(s.calls[i], id) {
      var a, taken := SecondResolveBreaks(s, c, i, r);
    } else {
      OrderlyResolveKeepsOrder(s, c);
    }
  }
}
