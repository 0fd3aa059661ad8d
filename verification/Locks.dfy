/**
 What both promise-chain locks promise: bodies run one at a time, in the order in
 which they were queued, and a queued body starts once those ahead have ended.
 */
module Fifo {
  /** A body's progress; it ends by returning or by throwing. */
  datatype Phase = Waiting | Running | Ended(threw: bool)

  /** Ended bodies, then at most one running, then waiting ones. */
  ghost predicate InOrder(phases: seq<Phase>) {
    forall i, j :: 0 <= i < j < |phases| && phases[j] != Waiting ==> phases[i].Ended?
  }

  datatype Action = Enter | Start(i: nat) | Finish(i: nat, threw: bool) | Internal

  /** The simple queue that the locks refine; internal steps of a lock are not seen. */
  ghost predicate Next(s: seq<Phase>, a: Action, t: seq<Phase>) {
    match a
    case Enter => t == s + [Waiting]
    case Start(i) => i < |s| && s[i] == Waiting && (forall j :: 0 <= j < i ==> s[j].Ended?) && t == s[i := Running]
    case Finish(i, threw) => i < |s| && s[i] == Running && t == s[i := Ended(threw)]
    case Internal => t == s
  }

  lemma NextKeepsOrder(s: seq<Phase>, a: Action, t: seq<Phase>)
    requires InOrder(s) && Next(s, a, t)
    ensures InOrder(t)
  {
  }

  lemma MutualExclusion(s: seq<Phase>, i: nat, j: nat)
    requires InOrder(s) && i < |s| && j < |s| && s[i] == Running && s[j] == Running
    ensures i == j
  {
  }
}

/** `AsyncMutex` of src/Session.ts: each call chains a promise that `release` fulfils. */
module AsyncMutex {
  import opened Fifo

  /**
   A call of `run`. `prev` is the promise it awaits: 0 is the initial resolved one,
   k + 1 the chain promise of call k. `held` is fulfilled by `release`; `settled` says
   the call's own chain promise, `prev.then(() => held)`, is fulfilled.
   */
  datatype Call = Call(prev: nat, phase: Phase, held: bool, settled: bool)

  datatype State = State(calls: seq<Call>, chain: nat)

  const INIT: State := State([], 0)

  predicate Resolved(s: State, p: nat) {
    p == 0 || (p <= |s.calls| && s.calls[p - 1].settled)
  }

  predicate CanStart(s: State, i: nat) {
    i < |s.calls| && s.calls[i].phase == Waiting && Resolved(s, s.calls[i].prev)
  }

  predicate CanSettle(s: State, i: nat) {
    i < |s.calls| && !s.calls[i].settled && s.calls[i].held && Resolved(s, s.calls[i].prev)
  }

  datatype Step = Run | Begin(i: nat) | End(i: nat, threw: bool) | Settle(i: nat)

  ghost predicate Next(s: State, step: Step, t: State) {
    match step
    case Run => t == State(s.calls + [Call(s.chain, Waiting, false, false)], |s.calls| + 1)
    case Begin(i) => CanStart(s, i) && t == s.(calls := s.calls[i := s.calls[i].(phase := Running)])
    case End(i, threw) =>
      && i < |s.calls| && s.calls[i].phase == Running
      && t == s.(calls := s.calls[i := s.calls[i].(phase := Ended(threw), held := true)])
    case Settle(i) => CanSettle(s, i) && t == s.(calls := s.calls[i := s.calls[i].(settled := true)])
  }

  ghost predicate Inv(s: State) {
    && s.chain == |s.calls|
    && forall i :: 0 <= i < |s.calls| ==>
        && s.calls[i].prev == i
        && (s.calls[i].held <==> s.calls[i].phase.Ended?)
        && (s.calls[i].settled ==> s.calls[i].held)
        && (s.calls[i].phase != Waiting ==> Resolved(s, i))
  }

  function Phases(s: State): (p: seq<Phase>)
    ensures |p| == |s.calls| && forall i :: 0 <= i < |p| ==> p[i] == s.calls[i].phase
  {
    seq(|s.calls|, i requires 0 <= i < |s.calls| => s.calls[i].phase)
  }

  function Seen(step: Step): Action {
    match step
    case Run => Enter
    case Begin(i) => Start(i)
    case End(i, threw) => Finish(i, threw)
    case Settle(i) => Internal
  }

  lemma NextKeepsCall(s: State, step: Step, t: State, i: nat)
    requires Inv(s) && Next(s, step, t) && i < |t.calls|
    ensures t.calls[i].prev == i && (t.calls[i].held <==> t.calls[i].phase.Ended?)
    ensures (t.calls[i].settled ==> t.calls[i].held) && (t.calls[i].phase != Waiting ==> Resolved(t, i))
  {
  }

  lemma NextKeepsInv(s: State, step: Step, t: State)
    requires Inv(s) && Next(s, step, t)
    ensures Inv(t)
  {
    forall i | 0 <= i < |t.calls|
      ensures t.calls[i].prev == i && (t.calls[i].held <==> t.calls[i].phase.Ended?)
      ensures (t.calls[i].settled ==> t.calls[i].held) && (t.calls[i].phase != Waiting ==> Resolved(t, i))
    {
      NextKeepsCall(s, step, t, i);
    }
    hide Resolved;
  }

  /** A fulfilled promise means that every earlier body has ended. */
  lemma {:induction false} ResolvedMeansEnded(s: State, p: nat)
    requires Inv(s) && p <= |s.calls| && Resolved(s, p)
    ensures forall j :: 0 <= j < p ==> s.calls[j].phase.Ended?
  {
    if p > 0 {
      ResolvedMeansEnded(s, p - 1);
    }
  }

  /** Every step of the mutex is a step of the queue. */
  lemma StepRefinesQueue(s: State, step: Step, t: State)
    requires Inv(s) && Next(s, step, t)
    ensures Fifo.Next(Phases(s), Seen(step), Phases(t))
  {
    if step.Begin? {
      ResolvedMeansEnded(s, step.i);
    }
  }

  ghost predicate IsRun(states: seq<State>, steps: seq<Step>) {
    && |states| == |steps| + 1 && states[0] == INIT
    && forall k :: 0 <= k < |steps| ==> Next(states[k], steps[k], states[k + 1])
  }

  /** Mutual exclusion and first come, first served, over every interleaving. */
  lemma {:induction false} RunsInOrder(states: seq<State>, steps: seq<Step>)
    requires IsRun(states, steps)
    ensures var s := states[|steps|];
            && Inv(s) && InOrder(Phases(s))
            && forall i, j :: 0 <= i < |s.calls| && 0 <= j < |s.calls| && s.calls[i].phase == s.calls[j].phase == Running ==> i == j
  {
    if steps != [] {
      var n := |steps| - 1;
      RunsInOrder(states[..n + 1], steps[..n]);
      NextKeepsInv(states[n], steps[n], states[n + 1]);
      StepRefinesQueue(states[n], steps[n], states[n + 1]);
      NextKeepsOrder(Phases(states[n]), Seen(steps[n]), Phases(states[n + 1]));
    }
    OneBodyRuns(states[|steps|]);
  }

  lemma OneBodyRuns(s: State)
    requires InOrder(Phases(s))
    ensures forall i, j :: 0 <= i < |s.calls| && 0 <= j < |s.calls| && s.calls[i].phase == s.calls[j].phase == Running ==> i == j
  {
    var p := Phases(s);
    forall i, j | 0 <= i < |s.calls| && 0 <= j < |s.calls| && s.calls[i].phase == s.calls[j].phase == Running ensures i == j {
      assert p[i] == p[j] == Running;
      MutualExclusion(p, i, j);
    }
  }

  /** Steps the event loop takes on its own. */
  ghost predicate Quiescent(s: State) {
    forall i :: 0 <= i < |s.calls| ==> !CanStart(s, i) && !CanSettle(s, i)
  }

  /** When nothing is left for the event loop, a waiting body has a running one ahead of it. */
  lemma {:induction false} NoBodyIsForgotten(s: State, i: nat)
    requires Inv(s) && Quiescent(s) && i < |s.calls| && s.calls[i].phase == Waiting
    ensures exists j :: 0 <= j < i && s.calls[j].phase == Running
  {
    assert !CanStart(s, i) && i > 0 && !CanSettle(s, i - 1);
    if s.calls[i - 1].phase == Waiting {
      NoBodyIsForgotten(s, i - 1);
    }
  }

  function Work(calls: seq<Call>): nat {
    if calls == [] then 0
    else Work(calls[..|calls| - 1]) + (if calls[|calls| - 1].phase == Waiting then 1 else 0)
         + (if calls[|calls| - 1].settled then 0 else 1)
  }

  /** The event loop's own steps come to an end: each takes one unit off the work left. */
  lemma OwnStepsEnd(s: State, step: Step, t: State)
    requires Next(s, step, t) && (step.Begin? || step.Settle?)
    ensures Work(t.calls) == Work(s.calls) - 1
  {
    WorkAfterUpdate(s.calls, step.i, t.calls[step.i]);
  }

  lemma {:induction false} WorkAfterUpdate(calls: seq<Call>, i: nat, c: Call)
    requires i < |calls|
    ensures Work(calls[i := c]) - Work([c]) == Work(calls) - Work([calls[i]])
  {
    var n := |calls| - 1;
    assert [c][..0] == [] && [calls[i]][..0] == [];
    if i < n {
      WorkAfterUpdate(calls[..n], i, c);
      assert calls[i := c][..n] == calls[..n][i := c];
    } else {
      assert calls[i := c][..n] == calls[..n];
    }
  }
}

/**
 `withAppendLock` of src/control/ControlEventLedger.ts on one path: a static map entry
 holds the clean-up promise of the last call and is deleted when it is still the last.
 */
module AppendLock {
  import opened Fifo
  import opened Outcomes

  /** A call: the clean-up promise it found in the map, its body, and its own clean-up. */
  datatype Call = Call(previous: Option<nat>, phase: Phase, cleaned: bool)

  /** `entry` is the call whose clean-up promise the map holds for the path, if any. */
  datatype State = State(calls: seq<Call>, entry: Option<nat>)

  const INIT: State := State([], None)

  predicate CanStart(s: State, i: nat) {
    && i < |s.calls| && s.calls[i].phase == Waiting
    && match s.calls[i].previous
       case None => true
       case Some(p) => p < |s.calls| && s.calls[p].cleaned
  }

  predicate CanCleanUp(s: State, i: nat) {
    i < |s.calls| && s.calls[i].phase.Ended? && !s.calls[i].cleaned
  }

  datatype Step = Queue | Begin(i: nat) | End(i: nat, threw: bool) | CleanUp(i: nat)

  function Queued(s: State): State {
    State(s.calls + [Call(s.entry, Waiting, false)], Some(|s.calls|))
  }

  function Begun(s: State, i: nat): State
    requires i < |s.calls|
  {
    s.(calls := s.calls[i := s.calls[i].(phase := Running)])
  }

  function EndedBy(s: State, i: nat, threw: bool): State
    requires i < |s.calls|
  {
    s.(calls := s.calls[i := s.calls[i].(phase := Ended(threw))])
  }

  function CleanedUp(s: State, i: nat): State
    requires i < |s.calls|
  {
    State(s.calls[i := s.calls[i].(cleaned := true)], if s.entry == Some(i) then None else s.entry)
  }

  ghost predicate Next(s: State, step: Step, t: State) {
    match step
    case Queue => t == Queued(s)
    case Begin(i) => CanStart(s, i) && t == Begun(s, i)
    case End(i, threw) => i < |s.calls| && s.calls[i].phase == Running && t == EndedBy(s, i, threw)
    case CleanUp(i) => CanCleanUp(s, i) && t == CleanedUp(s, i)
  }

  ghost predicate CleanBefore(s: State, i: nat) {
    forall j :: 0 <= j < i && j < |s.calls| ==> s.calls[j].cleaned
  }

  ghost predicate Inv(s: State) {
    && (s.entry == None ==> CleanBefore(s, |s.calls|))
    && (s.entry.Some? ==> s.entry.value + 1 == |s.calls|)
    && forall i :: 0 <= i < |s.calls| ==>
        && (s.calls[i].cleaned ==> s.calls[i].phase.Ended?)
        && (s.calls[i].phase != Waiting ==> CleanBefore(s, i))
        && (s.calls[i].previous.None? ==> CleanBefore(s, i))
        && (s.calls[i].previous.Some? ==> s.calls[i].previous.value + 1 == i)
  }

  function Phases(s: State): (p: seq<Phase>)
    ensures |p| == |s.calls| && forall i :: 0 <= i < |p| ==> p[i] == s.calls[i].phase
  {
    seq(|s.calls|, i requires 0 <= i < |s.calls| => s.calls[i].phase)
  }

  function Seen(step: Step): Action {
    match step
    case Queue => Enter
    case Begin(i) => Start(i)
    case End(i, threw) => Finish(i, threw)
    case CleanUp(i) => Internal
  }

  /** The call before a startable one has cleaned up, and so has every earlier one. */
  lemma StartableIsNext(s: State, i: nat)
    requires Inv(s) && CanStart(s, i)
    ensures CleanBefore(s, i)
  {
    if s.calls[i].previous.Some? {
      assert CleanBefore(s, i - 1);
    }
  }

  lemma NextKeepsInv(s: State, step: Step, t: State)
    requires Inv(s) && Next(s, step, t)
    ensures Inv(t)
  {
    if step.Begin? { StartableIsNext(s, step.i); }
    if step.CleanUp? {
      assert CleanBefore(s, step.i);
      forall j | 0 <= j < |t.calls| && CleanBefore(s, j) ensures CleanBefore(t, j) {}
    } else {
      forall j | 0 <= j <= |s.calls| && CleanBefore(s, j) ensures CleanBefore(t, j) {}
    }
  }

  /** Every step of the lock is a step of the queue, though the map entry comes and goes. */
  lemma StepRefinesQueue(s: State, step: Step, t: State)
    requires Inv(s) && Next(s, step, t)
    ensures Fifo.Next(Phases(s), Seen(step), Phases(t))
  {
    if step.Begin? { StartableIsNext(s, step.i); }
  }

  ghost predicate IsRun(states: seq<State>, steps: seq<Step>) {
    && |states| == |steps| + 1 && states[0] == INIT
    && forall k :: 0 <= k < |steps| ==> Next(states[k], steps[k], states[k + 1])
  }

  lemma {:induction false} RunsInOrder(states: seq<State>, steps: seq<Step>)
    requires IsRun(states, steps)
    ensures var s := states[|steps|];
            && Inv(s) && InOrder(Phases(s))
            && forall i, j :: 0 <= i < |s.calls| && 0 <= j < |s.calls| && s.calls[i].phase == s.calls[j].phase == Running ==> i == j
    ensures var s := states[|steps|]; s.entry == None ==> forall i :: 0 <= i < |s.calls| ==> s.calls[i].phase.Ended?
  {
    if steps != [] {
      var n := |steps| - 1;
      RunsInOrder(states[..n + 1], steps[..n]);
      NextKeepsInv(states[n], steps[n], states[n + 1]);
      StepRefinesQueue(states[n], steps[n], states[n + 1]);
      NextKeepsOrder(Phases(states[n]), Seen(steps[n]), Phases(states[n + 1]));
    }
    OneBodyRuns(states[|steps|]);
    EntryOnlyWhileBusy(states[|steps|]);
  }

  lemma OneBodyRuns(s: State)
    requires InOrder(Phases(s))
    ensures forall i, j :: 0 <= i < |s.calls| && 0 <= j < |s.calls| && s.calls[i].phase == s.calls[j].phase == Running ==> i == j
  {
    var p := Phases(s);
    forall i, j | 0 <= i < |s.calls| && 0 <= j < |s.calls| && s.calls[i].phase == s.calls[j].phase == Running ensures i == j {
      assert p[i] == p[j] == Running;
      MutualExclusion(p, i, j);
    }
  }

  ghost predicate Quiescent(s: State) {
    forall i :: 0 <= i < |s.calls| ==> !CanStart(s, i) && !CanCleanUp(s, i)
  }

  lemma {:induction false} NoBodyIsForgotten(s: State, i: nat)
    requires Inv(s) && Quiescent(s) && i < |s.calls| && s.calls[i].phase == Waiting
    ensures exists j :: 0 <= j < i && s.calls[j].phase == Running
  {
    assert !CanStart(s, i);
    var p := s.calls[i].previous.value;
    assert !CanCleanUp(s, p);
    if s.calls[p].phase == Waiting {
      NoBodyIsForgotten(s, p);
    }
  }

  function Work(calls: seq<Call>): nat {
    if calls == [] then 0
    else Work(calls[..|calls| - 1]) + (if calls[|calls| - 1].phase == Waiting then 1 else 0)
         + (if calls[|calls| - 1].cleaned then 0 else 1)
  }

  lemma OwnStepsEnd(s: State, step: Step, t: State)
    requires Next(s, step, t) && (step.Begin? || step.CleanUp?)
    ensures Work(t.calls) == Work(s.calls) - 1
  {
    WorkAfterUpdate(s.calls, step.i, t.calls[step.i]);
  }

  lemma {:induction false} WorkAfterUpdate(calls: seq<Call>, i: nat, c: Call)
    requires i < |calls|
    ensures Work(calls[i := c]) - Work([c]) == Work(calls) - Work([calls[i]])
  {
    var n := |calls| - 1;
    assert [c][..0] == [] && [calls[i]][..0] == [];
    if i < n {
      WorkAfterUpdate(calls[..n], i, c);
      assert calls[i := c][..n] == calls[..n][i := c];
    } else {
      assert calls[i := c][..n] == calls[..n];
    }
  }

  /** The map entry is gone only when the path is idle. */
  lemma EntryOnlyWhileBusy(s: State)
    requires Inv(s)
    ensures s.entry == None ==> forall i :: 0 <= i < |s.calls| ==> s.calls[i].phase.Ended?
  {
  }
}
