/**
 `create` of src/control/ControlRequestStore.ts under one idempotency key, called any number of times. A call reads the
 events, and later either appends its request or, if it found one, reads again; between two awaits others take steps.
 */
module RequestCreation {
  import opened Outcomes
  import opened ControlEvents
  import opened Projection

  predicate HasKey(e: ControlEvent, key: string) {
    e.body.RequestCreated? && e.body.idempotencyKey == Some(key)
  }

  /** `events.find`: the request of the first creation event with the key. */
  function Existing(log: seq<ControlEvent>, key: string): Option<ControlRequest> {
    if log == [] then None
    else
      var before := Existing(log[..|log| - 1], key);
      if before.Some? then before
      else if HasKey(log[|log| - 1], key) then Some(log[|log| - 1].body.request) else None
  }

  /** What a call returns that found `existing`. */
  function Answer(existing: ControlRequest, log: seq<ControlEvent>, now: int): ControlRequest {
    var projected := Project(log, now).requests;
    if existing.requestId in projected then projected[existing.requestId] else existing
  }

  datatype Pc = Started | Found(existing: ControlRequest) | Appending | Returned(record: ControlRequest)

  /** A call with the record it makes if it finds none. */
  datatype Call = Call(record: ControlRequest, pc: Pc)

  datatype State = State(log: seq<ControlEvent>, calls: seq<Call>)

  datatype Step =
    | Invoke(record: ControlRequest)
    | Read(i: nat)
    | Append(i: nat, eventId: string, seqNo: int, ts: int, sessionKey: string, turnId: Option<string>)
    | Reread(i: nat, now: int)
    | OthersAppend(event: ControlEvent)

  function WithPc(s: State, i: nat, pc: Pc): State
    requires i < |s.calls|
  {
    s.(calls := s.calls[i := s.calls[i].(pc := pc)])
  }

  function AfterRead(log: seq<ControlEvent>, key: string): Pc {
    var existing := Existing(log, key);
    if existing.Some? then Found(existing.value) else Appending
  }

  /** Other callers append anything but a creation with this key. */
  ghost predicate Next(s: State, step: Step, t: State, key: string) {
    match step
    case Invoke(record) => t == s.(calls := s.calls + [Call(record, Started)])
    case Read(i) => i < |s.calls| && s.calls[i].pc == Started && t == WithPc(s, i, AfterRead(s.log, key))
    case Append(i, eventId, seqNo, ts, sessionKey, turnId) =>
      && i < |s.calls| && s.calls[i].pc == Appending
      && var e := ControlEvent(eventId, seqNo, ts, sessionKey, turnId, RequestCreated(s.calls[i].record, Some(key)));
         t == WithPc(s, i, Returned(s.calls[i].record)).(log := s.log + [e])
    case Reread(i, now) =>
      && i < |s.calls| && s.calls[i].pc.Found?
      && t == WithPc(s, i, Returned(Answer(s.calls[i].pc.existing, s.log, now)))
    case OthersAppend(e) => !HasKey(e, key) && t == s.(log := s.log + [e])
  }

  // ---- A retry

  lemma {:induction false} ExistingStays(log: seq<ControlEvent>, more: seq<ControlEvent>, key: string)
    requires Existing(log, key).Some?
    ensures Existing(log + more, key) == Existing(log, key)
  {
    if more == [] {
      assert log + more == log;
    } else {
      ExistingStays(log, more[..|more| - 1], key);
      assert (log + more)[..|log + more| - 1] == log + more[..|more| - 1];
    }
  }

  lemma {:induction false} ExistingIsCreated(log: seq<ControlEvent>, key: string)
    ensures Existing(log, key).Some? ==>
              exists k :: 0 <= k < |log| && HasKey(log[k], key) && log[k].body.request == Existing(log, key).value
  {
    if log != [] { ExistingIsCreated(log[..|log| - 1], key); }
  }

  lemma AnswerIsDecided(existing: ControlRequest, log: seq<ControlEvent>, now: int, k: nat)
    requires k < |log| && Creates(log[k].body, existing.requestId)
    ensures Decided(log, existing.requestId).Some?
    ensures Answer(existing, log, now) == SeenAt(Decided(log, existing.requestId).value, now)
    ensures Answer(existing, log, now).requestId == existing.requestId
  {
    hide Project;
    ProjectedRequest(log, now, existing.requestId);
  }

  /**
   Creating again with the key, after whatever events have followed, appends nothing, and returns the first request as
   those events have decided it and a reader at `now` sees it.
   */
  lemma CreateRetryIsIdempotent(log: seq<ControlEvent>, more: seq<ControlEvent>, last: seq<ControlEvent>, key: string, now: int)
    requires Existing(log, key).Some?
    ensures var first := Existing(log, key).value;
            && AfterRead(log + more, key) == Found(first)
            && Decided(log + more + last, first.requestId).Some?
            && Answer(first, log + more + last, now) == SeenAt(Decided(log + more + last, first.requestId).value, now)
  {
    var first := Existing(log, key).value;
    ExistingStays(log, more, key);
    ExistingIsCreated(log, key);
    var k :| 0 <= k < |log| && HasKey(log[k], key) && log[k].body.request == first;
    assert (log + more + last)[k] == log[k];
    hide Answer, Decided, AfterRead, Existing;
    assert AfterRead(log + more, key) == Found(first) by { FoundIsExisting(log + more, key); }
    AnswerIsDecided(first, log + more + last, now, k);
  }

  lemma FoundIsExisting(log: seq<ControlEvent>, key: string)
    ensures Existing(log, key).Some? ==> AfterRead(log, key) == Found(Existing(log, key).value)
  {
  }

  // ---- How many creations are logged

  function KeyCount(log: seq<ControlEvent>, key: string): nat {
    if log == [] then 0 else KeyCount(log[..|log| - 1], key) + (if HasKey(log[|log| - 1], key) then 1 else 0)
  }

  lemma {:induction false} ExistingExactlyWhenCounted(log: seq<ControlEvent>, key: string)
    ensures Existing(log, key).Some? <==> KeyCount(log, key) > 0
  {
    if log != [] { ExistingExactlyWhenCounted(log[..|log| - 1], key); }
  }

  function AppendingCount(calls: seq<Call>): nat {
    if calls == [] then 0
    else AppendingCount(calls[..|calls| - 1]) + (if calls[|calls| - 1].pc == Appending then 1 else 0)
  }

  predicate AnyAppend(steps: seq<Step>) {
    exists a :: 0 <= a < |steps| && steps[a].Append?
  }

  /** The reads before the first append. */
  ghost function EarlyReads(steps: seq<Step>): nat {
    if steps == [] then 0
    else
      var front := steps[..|steps| - 1];
      EarlyReads(front) + (if steps[|steps| - 1].Read? && !AnyAppend(front) then 1 else 0)
  }

  lemma CountOfMore(log: seq<ControlEvent>, e: ControlEvent, key: string)
    ensures KeyCount(log + [e], key) == KeyCount(log, key) + (if HasKey(e, key) then 1 else 0)
  {
    assert (log + [e])[..|log|] == log;
  }

  lemma AppendingOfMore(calls: seq<Call>, c: Call)
    ensures AppendingCount(calls + [c]) == AppendingCount(calls) + (if c.pc == Appending then 1 else 0)
  {
    assert (calls + [c])[..|calls|] == calls;
  }

  lemma {:induction false} AppendingOfUpdate(calls: seq<Call>, i: nat, c: Call)
    requires i < |calls|
    ensures AppendingCount(calls[i := c]) == AppendingCount(calls)
            - (if calls[i].pc == Appending then 1 else 0) + (if c.pc == Appending then 1 else 0)
  {
    var n := |calls| - 1;
    if i == n {
      assert calls[i := c][..n] == calls[..n];
    } else {
      AppendingOfUpdate(calls[..n], i, c);
      assert calls[i := c][..n] == calls[..n][i := c];
    }
  }

  /** Once a call has found or made a request there is a creation to find, and its answer is about such a one. */
  ghost predicate CallOk(log: seq<ControlEvent>, c: Call, key: string) {
    match c.pc
    case Found(existing) => CreatedUnder(log, existing.requestId, key)
    case Returned(record) => CreatedUnder(log, record.requestId, key)
    case _ => true
  }

  ghost predicate CreatedUnder(log: seq<ControlEvent>, requestId: string, key: string) {
    exists k :: 0 <= k < |log| && HasKey(log[k], key) && log[k].body.request.requestId == requestId
  }

  ghost predicate AllOk(s: State, key: string) {
    forall i :: 0 <= i < |s.calls| ==> CallOk(s.log, s.calls[i], key)
  }

  lemma CreatedStays(log: seq<ControlEvent>, e: ControlEvent, requestId: string, key: string)
    requires CreatedUnder(log, requestId, key)
    ensures CreatedUnder(log + [e], requestId, key)
  {
    var k :| 0 <= k < |log| && HasKey(log[k], key) && log[k].body.request.requestId == requestId;
    assert (log + [e])[k] == log[k];
  }

  lemma CallsStayOk(log: seq<ControlEvent>, e: ControlEvent, c: Call, key: string)
    requires CallOk(log, c, key)
    ensures CallOk(log + [e], c, key)
  {
    hide CreatedUnder;
    match c.pc {
      case Found(existing) => CreatedStays(log, e, existing.requestId, key);
      case Returned(record) => CreatedStays(log, e, record.requestId, key);
      case _ =>
    }
  }

  lemma NextKeepsOk(s: State, step: Step, t: State, key: string)
    requires AllOk(s, key) && Next(s, step, t, key)
    ensures AllOk(t, key)
  {
    hide CallOk, Answer, Existing, HasKey;
    forall j | 0 <= j < |t.calls| ensures CallOk(t.log, t.calls[j], key) {
      StepKeepsCall(s, step, t, key, j);
    }
  }

  lemma StepKeepsCall(s: State, step: Step, t: State, key: string, j: nat)
    requires AllOk(s, key) && Next(s, step, t, key) && j < |t.calls|
    ensures CallOk(t.log, t.calls[j], key)
  {
    hide Answer, Existing, CreatedUnder;
    if j < |s.calls| {
      assert CallOk(s.log, s.calls[j], key);
      if |t.log| > |s.log| {
        assert t.log == s.log + [t.log[|s.log|]];
        CallsStayOk(s.log, t.log[|s.log|], s.calls[j], key);
      }
      match step {
        case Read(i) =>
          if i == j { FoundIsCreated(s.log, key); }
        case Append(i, _, _, _, _, _) =>
          if i == j { NewIsCreated(s.log, t.log[|s.log|], key); }
        case Reread(i, now) =>
          if i == j { AnswerIsCreated(s.log, s.calls[i].pc.existing, key, now); }
        case _ =>
      }
    }
  }

  lemma FoundIsCreated(log: seq<ControlEvent>, key: string)
    ensures Existing(log, key).Some? ==> CreatedUnder(log, Existing(log, key).value.requestId, key)
  {
    ExistingIsCreated(log, key);
  }

  lemma NewIsCreated(log: seq<ControlEvent>, e: ControlEvent, key: string)
    requires HasKey(e, key)
    ensures CreatedUnder(log + [e], e.body.request.requestId, key)
  {
    assert (log + [e])[|log|] == e;
  }

  lemma AnswerIsCreated(log: seq<ControlEvent>, existing: ControlRequest, key: string, now: int)
    requires CreatedUnder(log, existing.requestId, key)
    ensures Answer(existing, log, now).requestId == existing.requestId
  {
    var k :| 0 <= k < |log| && HasKey(log[k], key) && log[k].body.request.requestId == existing.requestId;
    hide Answer;
    AnswerIsDecided(existing, log, now, k);
  }

  ghost predicate IsRun(states: seq<State>, steps: seq<Step>, key: string) {
    && |states| == |steps| + 1 && states[0].calls == [] && KeyCount(states[0].log, key) == 0
    && forall k :: 0 <= k < |steps| ==> Next(states[k], steps[k], states[k + 1], key)
  }

  /** The creations logged and those about to be are as many as the reads before the first append. */
  ghost predicate Counted(s: State, steps: seq<Step>, key: string) {
    && KeyCount(s.log, key) + AppendingCount(s.calls) == EarlyReads(steps)
    && (KeyCount(s.log, key) == 0 <==> !AnyAppend(steps))
  }

  lemma NextKeepsCount(s: State, step: Step, t: State, steps: seq<Step>, key: string)
    requires Counted(s, steps, key) && Next(s, step, t, key)
    ensures Counted(t, steps + [step], key)
  {
    hide KeyCount, AppendingCount, Answer, Existing, AnyAppend;
    assert (steps + [step])[..|steps|] == steps;
    AnyOfMore(steps, step);
    match step {
      case Invoke(record) => AppendingOfMore(s.calls, Call(record, Started));
      case Read(i) =>
        ExistingExactlyWhenCounted(s.log, key);
        AppendingOfUpdate(s.calls, i, t.calls[i]);
      case Append(i, _, _, _, _, _) =>
        AppendingOfUpdate(s.calls, i, t.calls[i]);
        CountOfMore(s.log, t.log[|s.log|], key);
      case Reread(i, _) => AppendingOfUpdate(s.calls, i, t.calls[i]);
      case OthersAppend(e) => CountOfMore(s.log, e, key);
    }
  }

  lemma AnyOfMore(steps: seq<Step>, step: Step)
    ensures AnyAppend(steps + [step]) <==> AnyAppend(steps) || step.Append?
  {
    var more := steps + [step];
    if AnyAppend(steps) {
      var a :| 0 <= a < |steps| && steps[a].Append?;
      assert more[a].Append?;
    }
    if step.Append? { assert more[|steps|].Append?; }
  }

  lemma {:induction false} RunsKeepCount(states: seq<State>, steps: seq<Step>, key: string)
    requires IsRun(states, steps, key)
    ensures Counted(states[|steps|], steps, key) && AllOk(states[|steps|], key)
  {
    if steps == [] {
      hide KeyCount;
    } else {
      hide Next, Counted, AllOk, KeyCount;
      var n := |steps| - 1;
      RunsKeepCount(states[..n + 1], steps[..n], key);
      NextKeepsCount(states[n], steps[n], states[n + 1], steps[..n], key);
      NextKeepsOk(states[n], steps[n], states[n + 1], key);
      assert steps[..n] + [steps[n]] == steps;
    }
  }

  // ---- Whole runs

  ghost predicate AllReturned(s: State) {
    forall i :: 0 <= i < |s.calls| ==> s.calls[i].pc.Returned?
  }

  /** A second call reads before the first append. */
  ghost predicate SecondReadIsEarly(steps: seq<Step>) {
    exists i, j :: 0 <= i < j < |steps| && steps[i].Read? && steps[j].Read? && !AnyAppend(steps[..j])
  }

  lemma {:induction false} NoneAppending(calls: seq<Call>)
    requires forall i :: 0 <= i < |calls| ==> calls[i].pc.Returned?
    ensures AppendingCount(calls) == 0
  {
    if calls != [] { NoneAppending(calls[..|calls| - 1]); }
  }

  lemma {:induction false} EarlyReadsExist(steps: seq<Step>)
    ensures EarlyReads(steps) > 0 ==> exists i :: 0 <= i < |steps| && steps[i].Read?
    ensures !AnyAppend(steps) && (exists i :: 0 <= i < |steps| && steps[i].Read?) ==> EarlyReads(steps) > 0
  {
    if steps != [] {
      var front := steps[..|steps| - 1];
      EarlyReadsExist(front);
      if AnyAppend(front) { AppendsStay(front, steps); }
      if i :| 0 <= i < |front| && front[i].Read? { assert steps[i].Read?; }
      if j :| 0 <= j < |steps| && steps[j].Read? { assert j < |front| ==> front[j].Read?; }
    }
  }

  lemma AppendsStay(front: seq<Step>, steps: seq<Step>)
    requires front <= steps && AnyAppend(front)
    ensures AnyAppend(steps)
  {
    var a :| 0 <= a < |front| && front[a].Append?;
    assert steps[a].Append?;
  }

  lemma {:induction false} SecondIsEarlyExactlyWhen(steps: seq<Step>)
    ensures SecondReadIsEarly(steps) <==> EarlyReads(steps) > 1
  {
    if steps != [] {
      var n := |steps| - 1;
      var front := steps[..n];
      SecondIsEarlyExactlyWhen(front);
      EarlyReadsExist(front);
      hide AnyAppend;
      SecondOfMore(steps);
    }
  }

  lemma SecondOfMore(steps: seq<Step>)
    requires steps != []
    ensures var n := |steps| - 1;
            SecondReadIsEarly(steps) <==>
            || SecondReadIsEarly(steps[..n])
            || (steps[n].Read? && !AnyAppend(steps[..n]) && exists i :: 0 <= i < n && steps[..n][i].Read?)
  {
    hide AnyAppend;
    var n := |steps| - 1;
    var front := steps[..n];
    assert forall j :: 0 <= j < n ==> front[..j] == steps[..j];
    if i, j :| 0 <= i < j < |steps| && steps[i].Read? && steps[j].Read? && !AnyAppend(steps[..j]) {
      assert front[i].Read?;
      if j < n { assert front[j].Read? && front[..j] == steps[..j]; }
    }
    if i, j :| 0 <= i < j < |front| && front[i].Read? && front[j].Read? && !AnyAppend(front[..j]) {
      assert steps[i].Read? && steps[j].Read? && !AnyAppend(steps[..j]);
    }
    if i :| 0 <= i < n && front[i].Read? {
      assert steps[i].Read?;
    }
  }

  lemma {:induction false} CreatedIsCounted(log: seq<ControlEvent>, k: nat, key: string)
    requires k < |log| && HasKey(log[k], key)
    ensures KeyCount(log, key) > 0
  {
    hide HasKey;
    if k < |log| - 1 { CreatedIsCounted(log[..|log| - 1], k, key); }
  }

  lemma {:induction false} TwoAreCounted(log: seq<ControlEvent>, i: nat, j: nat, key: string)
    requires i < j < |log| && HasKey(log[i], key) && HasKey(log[j], key)
    ensures KeyCount(log, key) > 1
  {
    hide HasKey;
    var front := log[..|log| - 1];
    if j < |log| - 1 { TwoAreCounted(front, i, j, key); } else { CreatedIsCounted(front, i, key); }
  }

  lemma OneCreationOneId(log: seq<ControlEvent>, a: string, b: string, key: string)
    requires KeyCount(log, key) == 1 && CreatedUnder(log, a, key) && CreatedUnder(log, b, key)
    ensures a == b
  {
    var i: nat :| i < |log| && HasKey(log[i], key) && log[i].body.request.requestId == a;
    var j: nat :| j < |log| && HasKey(log[j], key) && log[j].body.request.requestId == b;
    hide HasKey, KeyCount;
    if i < j { TwoAreCounted(log, i, j, key); }
    if j < i { TwoAreCounted(log, j, i, key); }
  }

  lemma ReturnedIsCreated(s: State, i: nat, key: string)
    requires AllOk(s, key) && AllReturned(s) && i < |s.calls|
    ensures CreatedUnder(s.log, s.calls[i].pc.record.requestId, key) && KeyCount(s.log, key) > 0
  {
    assert CallOk(s.log, s.calls[i], key);
    var k: nat :| k < |s.log| && HasKey(s.log[k], key);
    CreatedIsCounted(s.log, k, key);
  }

  /**
   When all calls have returned, as many requests are created as calls read before the first append. So exactly one is
   if and only if no second call reads before the first one appends, and then every call returns that request.
   */
  lemma OneRequestExactlyWhen(states: seq<State>, steps: seq<Step>, key: string)
    requires IsRun(states, steps, key) && AllReturned(states[|steps|]) && states[|steps|].calls != []
    ensures var s := states[|steps|];
            && KeyCount(s.log, key) == EarlyReads(steps)
            && (KeyCount(s.log, key) == 1 <==> !SecondReadIsEarly(steps))
            && (!SecondReadIsEarly(steps) ==>
                  forall i, j :: 0 <= i < |s.calls| && 0 <= j < |s.calls| ==>
                    s.calls[i].pc.record.requestId == s.calls[j].pc.record.requestId)
  {
    var s := states[|steps|];
    RunsKeepCount(states, steps, key);
    NoneAppending(s.calls);
    SecondIsEarlyExactlyWhen(steps);
    hide KeyCount, EarlyReads, SecondReadIsEarly, IsRun, AnyAppend, AllOk, AppendingCount, CreatedUnder;
    ReturnedIsCreated(s, 0, key);
    if !SecondReadIsEarly(steps) {
      forall i, j | 0 <= i < |s.calls| && 0 <= j < |s.calls|
        ensures s.calls[i].pc.record.requestId == s.calls[j].pc.record.requestId
      {
        ReturnedIsCreated(s, i, key);
        ReturnedIsCreated(s, j, key);
        OneCreationOneId(s.log, s.calls[i].pc.record.requestId, s.calls[j].pc.record.requestId, key);
      }
    }
  }

  /** From every log without the key there is a run in which two calls return two requests. */
  lemma OverlappingCreatesDuplicate(log: seq<ControlEvent>, key: string, first: ControlRequest, second: ControlRequest)
    returns (states: seq<State>, steps: seq<Step>)
    requires KeyCount(log, key) == 0
    ensures IsRun(states, steps, key) && states[0] == State(log, [])
    ensures states[|steps|].calls == [Call(first, Returned(first)), Call(second, Returned(second))]
    ensures KeyCount(states[|steps|].log, key) == 2
  {
    hide Answer, KeyCount;
    ExistingExactlyWhenCounted(log, key);
    var s0 := State(log, []);
    var s1 := State(log, [Call(first, Started)]);
    var s2 := State(log, [Call(first, Started), Call(second, Started)]);
    var s3 := State(log, [Call(first, Appending), Call(second, Started)]);
    var s4 := State(log, [Call(first, Appending), Call(second, Appending)]);
    var a := ControlEvent("a", 1, 0, "", None, RequestCreated(first, Some(key)));
    var b := ControlEvent("b", 2, 0, "", None, RequestCreated(second, Some(key)));
    var s5 := State(log + [a], [Call(first, Returned(first)), Call(second, Appending)]);
    var s6 := State(log + [a] + [b], [Call(first, Returned(first)), Call(second, Returned(second))]);
    CountOfMore(log, a, key);
    CountOfMore(log + [a], b, key);
    states := [s0, s1, s2, s3, s4, s5, s6];
    steps := [Invoke(first), Invoke(second), Read(0), Read(1), Append(0, "a", 1, 0, "", None), Append(1, "b", 2, 0, "", None)];
    hide Existing;
    assert Next(s0, steps[0], s1, key) && Next(s1, steps[1], s2, key);
    assert Next(s2, steps[2], s3, key) && Next(s3, steps[3], s4, key);
    assert Next(s4, steps[4], s5, key) && Next(s5, steps[5], s6, key);
    hide Next;
  }
}
