/** Which events the calls of src/control/ControlRequestStore.ts append, and when. */
module RequestOutcomes {
  import opened Outcomes
  import opened ControlEvents
  import opened Projection
  import opened Store = RequestStore

  /** The event that a call asks for, with the request's turn. */
  predicate IsAsked(body: EventBody, op: Operation, requestId: string) {
    match op
    case Resolve(decision, feedback, updatedInput, answer) =>
      && body.RequestResolved? && body.requestId == requestId && body.decision == decision
      && body.feedback == feedback && body.updatedInput == updatedInput && body.answer == answer
    case Cancel(reason) => body.RequestCancelled? && body.requestId == requestId && body.reason == reason
  }

  /** A call that reads an id no event has created fails, and no other call does. */
  lemma UnknownIdIsNotFound(log: seq<ControlEvent>, now: int, requestId: string, op: Operation, clock: int)
    ensures AfterRead(Project(log, now), requestId, op, clock) == NotFound <==> forall k :: 0 <= k < |log| ==> !Creates(log[k].body, requestId)
  {
    ProjectedRequest(log, now, requestId);
    hide Project;
    var k := LastCreation(log, requestId);
    if k.Some? { assert Creates(log[k.value].body, requestId); }
  }

  /**
   What a call does with what it reads: a settled request, or one whose deadline had passed when it asked, is its answer; a
   pending one it settles as asked, but a resolve whose deadline has passed by now times it out instead.
   */
  lemma ReadDecides(s: State, i: nat, t: State, created: ControlRequest)
    requires Inv(s, created) && i < |s.calls| && s.calls[i].pc.Reading? && Next(s, Read(i), t, created.requestId)
    ensures var outcome := Outcome(s.log, created);
            var pc, op := t.calls[i].pc, s.calls[i].op;
            if outcome.state != Pending then pc == Returned(outcome)
            else if created.expiresAt <= s.calls[i].pc.now then pc == Returned(Expired(created))
            else
              && pc.Appending? && pc.turnId == created.turnId
              && if op.Resolve? && created.expiresAt <= s.clock then pc.body == RequestTimedOut(created.requestId)
                 else IsAsked(pc.body, op, created.requestId)
  {
    hide Project, Outcome, CreatedPending, Fold;
    ReadSees(s.log, s.calls[i].pc.now, created);
    OutcomeIsCreatedOrSettled(s.log, created);
  }

  // ---- Over whole runs

  /** The event is call `i`'s: what it asked for, or the timeout of a deadline that had passed. */
  predicate Owns(c: Call, e: ControlEvent, created: ControlRequest) {
    && e.turnId == created.turnId
    && (IsAsked(e.body, c.op, created.requestId)
        || (c.op.Resolve? && e.body == RequestTimedOut(created.requestId) && created.expiresAt <= e.ts))
  }

  /** Calls are about to append what they own, and every terminal event since `start` is some call's. */
  ghost predicate Owned(s: State, start: nat, created: ControlRequest) {
    && start <= |s.log|
    && (forall i :: 0 <= i < |s.calls| && s.calls[i].pc.Appending? ==> WillOwn(s, i, created))
    && forall n :: start <= n < |s.log| && IsTerminalFor(s.log[n].body, created.requestId) ==> HasOwner(s, n, created)
  }

  ghost predicate HasOwner(s: State, n: nat, created: ControlRequest)
    requires n < |s.log|
  {
    exists i :: 0 <= i < |s.calls| && Owns(s.calls[i], s.log[n], created)
  }

  predicate WillOwn(s: State, i: nat, created: ControlRequest)
    requires i < |s.calls| && s.calls[i].pc.Appending?
  {
    && s.calls[i].pc.turnId == created.turnId
    && (IsAsked(s.calls[i].pc.body, s.calls[i].op, created.requestId)
        || (s.calls[i].op.Resolve? && s.calls[i].pc.body == RequestTimedOut(created.requestId) && created.expiresAt <= s.clock))
  }

  lemma OwnersStay(s: State, t: State, n: nat, created: ControlRequest)
    requires n < |s.log| && n < |t.log| && t.log[n] == s.log[n] && HasOwner(s, n, created)
    requires |s.calls| <= |t.calls| && forall i :: 0 <= i < |s.calls| ==> t.calls[i].op == s.calls[i].op
    ensures HasOwner(t, n, created)
  {
    var i :| 0 <= i < |s.calls| && Owns(s.calls[i], s.log[n], created);
    assert Owns(t.calls[i], t.log[n], created);
  }

  lemma NextKeepsOps(s: State, step: Step, t: State, requestId: string)
    requires Next(s, step, t, requestId)
    ensures |s.calls| <= |t.calls| && forall i :: 0 <= i < |s.calls| ==> t.calls[i].op == s.calls[i].op
    ensures s.clock <= t.clock && |s.log| <= |t.log| <= |s.log| + 1 && t.log[..|s.log|] == s.log
  {
    hide Project, AfterRead, Fold;
  }

  lemma NextKeepsOwned(s: State, step: Step, t: State, start: nat, created: ControlRequest)
    requires Inv(s, created) && Owned(s, start, created) && Next(s, step, t, created.requestId)
    ensures Owned(t, start, created)
  {
    NextKeepsOps(s, step, t, created.requestId);
    if step.Read? { ReadDecides(s, step.i, t, created); }
    hide Project, Outcome, CreatedPending, AfterRead, Fold, CallOk, IsAsked;
    forall n | start <= n < |t.log| && IsTerminalFor(t.log[n].body, created.requestId) ensures HasOwner(t, n, created) {
      if n < |s.log| {
        assert t.log[n] == t.log[..|s.log|][n] == s.log[n];
        OwnersStay(s, t, n, created);
      } else if step.Append? {
        assert WillOwn(s, step.i, created);
        assert Owns(t.calls[step.i], t.log[n], created);
      }
    }
    forall i | 0 <= i < |t.calls| && t.calls[i].pc.Appending? ensures WillOwn(t, i, created) {
      if i < |s.calls| && s.calls[i].pc.Appending? { assert WillOwn(s, i, created); }
    }
  }

  /**
   In every run each event that settles the request is one that some call asked for, field by field, or the timeout of a
   deadline that had passed.
   */
  lemma {:induction false} EverySettlementIsAsked(states: seq<State>, steps: seq<Step>, created: ControlRequest)
    requires IsRun(states, steps, created)
    ensures Owned(states[|steps|], |states[0].log|, created)
  {
    if steps != [] {
      hide Next, Inv, Init, Owned;
      var n := |steps| - 1;
      assert IsRun(states[..n + 1], steps[..n], created);
      EverySettlementIsAsked(states[..n + 1], steps[..n], created);
      RunsKeepInv(states[..n + 1], steps[..n], created);
      NextKeepsOwned(states[n], steps[n], states[n + 1], |states[0].log|, created);
    }
  }
}
