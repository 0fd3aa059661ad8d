/** What an append of src/control/ControlEventLedger.ts writes is what its caller asked for, under the next number. */
module LedgerInputs {
  import opened Outcomes
  import opened ControlEvents
  import opened JsonLines
  import opened Ledger

  // ---- The contents of an event

  /** The event holds the input; what the input leaves open is the ledger's own session and some clock `now`. */
  predicate Holds(event: ControlEvent, input: Input, ownSession: string, now: int) {
    && event.body == input.body && event.turnId == input.turnId
    && (if input.ts.Some? then event.ts == input.ts.value else event.ts == now)
    && (if input.sessionKey.Some? then event.sessionKey == input.sessionKey.value else event.sessionKey == ownSession)
  }

  /** Since step `k` call `i` has given the event its id and its time. */
  ghost predicate Stamps(steps: seq<Step>, k: nat, m: nat, i: nat, event: ControlEvent, input: Input, ownSession: string) {
    exists n :: k < n < m <= |steps| && steps[n].Number? && steps[n].i == i && steps[n].eventId == event.eventId
             && Holds(event, input, ownSession, steps[n].now)
  }

  /** The event of a call that has one. */
  function EventOf(pc: Pc): Option<ControlEvent> {
    match pc
    case Writing(event, _) => Some(event)
    case Mirroring(event) => Some(event)
    case Returned(event) => Some(event)
    case _ => None
  }

  /** Call `i` of epoch `epoch`, queued by step `k`, has appended nothing but its input, and that only if it is accepted. */
  ghost predicate Keeps(s: State, steps: seq<Step>, k: nat, m: nat, epoch: nat, i: nat, input: Input, ownSession: string, accepts: Input -> bool) {
    && epoch <= s.epoch
    && (forall n :: 0 <= n < |s.log| && s.log[n].epoch == epoch && s.log[n].call == i ==>
          accepts(input) && Stamps(steps, k, m, i, s.log[n].event, input, ownSession))
    && (s.epoch == epoch ==>
          && i < |s.appends| && s.appends[i].input == input && s.appends[i].ownSession == ownSession
          && (s.appends[i].pc.Validating? || s.appends[i].pc.Failed? || accepts(input))
          && (EventOf(s.appends[i].pc).Some? ==> Stamps(steps, k, m, i, EventOf(s.appends[i].pc).value, input, ownSession)))
  }

  lemma StampsStay(steps: seq<Step>, k: nat, m: nat, i: nat, event: ControlEvent, input: Input, ownSession: string)
    requires Stamps(steps, k, m, i, event, input, ownSession) && m < |steps|
    ensures Stamps(steps, k, m + 1, i, event, input, ownSession)
  {
  }

  lemma QueuedKeeps(s: State, steps: seq<Step>, k: nat, t: State, input: Input, ownSession: string, c: Codec<ControlEvent>, accepts: Input -> bool)
    requires Inv(s, c) && k < |steps| && steps[k] == Call(input, ownSession) && Next(s, steps[k], t, c, accepts)
    ensures Keeps(t, steps, k, k + 1, s.epoch, |s.appends|, input, ownSession, accepts)
  {
    hide RecordsIn, Sorted, LockOk, CallOk;
  }

  lemma NextKeeps(s: State, steps: seq<Step>, k: nat, m: nat, t: State, epoch: nat, i: nat, input: Input, ownSession: string,
                  c: Codec<ControlEvent>, accepts: Input -> bool)
    requires Keeps(s, steps, k, m, epoch, i, input, ownSession, accepts) && k < m < |steps| && Next(s, steps[m], t, c, accepts)
    ensures Keeps(t, steps, k, m + 1, epoch, i, input, ownSession, accepts)
  {
    hide RecordsIn, Stamps, Holds, AtBoundary, NewEvent;
    forall event | Stamps(steps, k, m, i, event, input, ownSession) ensures Stamps(steps, k, m + 1, i, event, input, ownSession) {
      StampsStay(steps, k, m, i, event, input, ownSession);
    }
    if steps[m].Number? && steps[m].i == i && s.epoch == epoch {
      NumberStamps(s, steps, k, m, t, i, input, ownSession, c, accepts);
    }
  }

  lemma NumberStamps(s: State, steps: seq<Step>, k: nat, m: nat, t: State, i: nat, input: Input, ownSession: string,
                     c: Codec<ControlEvent>, accepts: Input -> bool)
    requires k < m < |steps| && steps[m].Number? && steps[m].i == i && Next(s, steps[m], t, c, accepts)
    requires i < |s.appends| && s.appends[i].input == input && s.appends[i].ownSession == ownSession
    ensures i < |t.appends| && t.appends[i].pc.Writing? && Stamps(steps, k, m + 1, i, t.appends[i].pc.event, input, ownSession)
  {
    hide RecordsIn;
    assert Holds(t.appends[i].pc.event, input, ownSession, steps[m].now);
  }

  lemma {:induction false} RunKeeps(states: seq<State>, steps: seq<Step>, c: Codec<ControlEvent>, accepts: Input -> bool,
                                    k: nat, m: nat, input: Input, ownSession: string)
    requires Lawful(c) && IsRun(states, steps, c, accepts) && k < m <= |steps| && steps[k] == Call(input, ownSession)
    ensures Keeps(states[m], steps, k, m, states[k].epoch, |states[k].appends|, input, ownSession, accepts)
  {
    hide Next, Keeps, Inv, Lawful;
    if m == k + 1 {
      assert IsRun(states[..k + 1], steps[..k], c, accepts);
      RunsKeepInv(states[..k + 1], steps[..k], c, accepts);
      QueuedKeeps(states[k], steps, k, states[m], input, ownSession, c, accepts);
    } else {
      RunKeeps(states, steps, c, accepts, k, m - 1, input, ownSession);
      NextKeeps(states[m - 1], steps, k, m - 1, states[m], states[k].epoch, |states[k].appends|, input, ownSession, c, accepts);
    }
  }

  /**
   Whatever else happens, an append that step `k` queues logs and returns events with its input's fields alone, under the
   id and, if the input has none, at the time that it took; and an input that is not accepted logs and returns nothing.
   The epoch tells whether a crash has come in between.
   */
  lemma AppendsWhatWasAsked(states: seq<State>, steps: seq<Step>, c: Codec<ControlEvent>, accepts: Input -> bool,
                            k: nat, m: nat, input: Input, ownSession: string)
    requires Lawful(c) && IsRun(states, steps, c, accepts) && k < m <= |steps| && steps[k] == Call(input, ownSession)
    ensures var s, epoch, i := states[m], states[k].epoch, |states[k].appends|;
            && (forall n :: 0 <= n < |s.log| && s.log[n].epoch == epoch && s.log[n].call == i ==>
                  accepts(input) && Stamps(steps, k, m, i, s.log[n].event, input, ownSession))
            && (s.epoch == epoch ==>
                  && i < |s.appends|
                  && (EventOf(s.appends[i].pc).Some? ==>
                        accepts(input) && Stamps(steps, k, m, i, EventOf(s.appends[i].pc).value, input, ownSession)))
  {
    hide Next, Lawful, Stamps, IsRun;
    RunKeeps(states, steps, c, accepts, k, m, input, ownSession);
  }

  // ---- Numbers without gaps

  /** The number after the last one. */
  function Following(log: seq<Entry>): int {
    if log == [] then 1 else log[|log| - 1].event.seqNo + 1
  }

  /** From entry `start` on each event has the number after the one before it, and so has the one being written. */
  ghost predicate GapFree(s: State, start: nat, c: Codec<ControlEvent>) {
    && start <= |s.log|
    && (forall n :: start <= n < |s.log| ==> s.log[n].event.seqNo == Following(s.log[..n]))
    && forall i :: 0 <= i < |s.appends| && IsWriting(s, i, c) ==> s.appends[i].pc.event.seqNo == Following(s.log)
  }

  /** Call `i` has not written the whole text of its event. */
  predicate IsWriting(s: State, i: nat, c: Codec<ControlEvent>) {
    IsRunning(s, i) && s.appends[i].pc.Writing? && s.appends[i].pc.written < |c.encode(s.appends[i].pc.event)|
  }

  lemma NextSeqFollows(s: State)
    requires Sorted(s.log)
    ensures NextSeq(Events(s.log)) == Following(s.log)
  {
    var events := Events(s.log);
    if events != [] {
      var last := s.log[|s.log| - 1];
      assert events[|events| - 1] == last.event && last.event in events;
      forall e | e in events ensures e.seqNo <= last.event.seqNo {
        var n :| 0 <= n < |events| && events[n] == e;
        if n < |s.log| - 1 { assert Before(s.log[n], last); }
      }
    }
  }

  /** A step that logs nothing and lets no one begin to write with another number. */
  ghost predicate Quiet(s: State, t: State, c: Codec<ControlEvent>) {
    && t.log == s.log
    && forall j :: 0 <= j < |t.appends| && IsWriting(t, j, c) ==>
         || (j < |s.appends| && IsWriting(s, j, c) && s.appends[j].pc.event == t.appends[j].pc.event)
         || t.appends[j].pc.event.seqNo == Following(s.log)
  }

  /** A step that logs an event with the following number, and after which no call writes. */
  ghost predicate Logs(s: State, t: State, c: Codec<ControlEvent>) {
    && |t.log| == |s.log| + 1 && t.log[..|s.log|] == s.log && t.log[|s.log|].event.seqNo == Following(s.log)
    && forall j :: 0 <= j < |t.appends| ==> !IsWriting(t, j, c)
  }

  lemma LoggingKeepsNumbers(s: State, t: State, start: nat, c: Codec<ControlEvent>)
    requires GapFree(s, start, c) && Logs(s, t, c)
    ensures GapFree(t, start, c)
  {
    hide IsWriting;
    forall n | start <= n < |t.log| ensures t.log[n].event.seqNo == Following(t.log[..n]) {
      assert n < |s.log| ==> t.log[n] == t.log[..|s.log|][n] == s.log[n];
      assert t.log[..n] == t.log[..|s.log|][..n] == s.log[..n];
    }
  }

  /** Acknowledging changes no number. */
  lemma AcknowledgingKeepsNumbers(s: State, t: State, start: nat, c: Codec<ControlEvent>)
    requires GapFree(s, start, c) && s.log != [] && t.log == Acknowledged(s.log) && forall j :: 0 <= j < |t.appends| ==> !IsWriting(t, j, c)
    ensures GapFree(t, start, c)
  {
    hide IsWriting;
    forall n | start <= n < |t.log| ensures t.log[n].event.seqNo == Following(t.log[..n]) {
      assert t.log[..n] == s.log[..n];
    }
  }

  lemma WriteKeepsNumbers(s: State, i: nat, n: nat, t: State, start: nat, c: Codec<ControlEvent>, accepts: Input -> bool)
    requires Inv(s, c) && GapFree(s, start, c) && Next(s, Write(i, n), t, c, accepts)
    ensures GapFree(t, start, c)
  {
    OthersAreNotRunning(s, i);
    hide RecordsIn, Inv;
    assert forall j :: 0 <= j < |t.appends| && j != i ==> !IsRunning(t, j);
    if t.log != s.log {
      assert Logs(s, t, c);
      LoggingKeepsNumbers(s, t, start, c);
    } else {
      assert Quiet(s, t, c);
    }
  }

  lemma MirrorKeepsNumbers(s: State, i: nat, t: State, start: nat, c: Codec<ControlEvent>, accepts: Input -> bool)
    requires Inv(s, c) && GapFree(s, start, c) && Next(s, Mirror(i), t, c, accepts)
    ensures GapFree(t, start, c)
  {
    OthersAreNotRunning(s, i);
    hide RecordsIn, Inv;
    assert forall j :: 0 <= j < |t.appends| ==> !IsWriting(t, j, c);
    AcknowledgingKeepsNumbers(s, t, start, c);
  }

  lemma NumberIsQuiet(s: State, step: Step, t: State, c: Codec<ControlEvent>, accepts: Input -> bool)
    requires Inv(s, c) && step.Number? && Next(s, step, t, c, accepts)
    ensures Quiet(s, t, c)
  {
    NextSeqFollows(s);
    assert RecordsIn(s.file, c) == Events(s.log);
    hide RecordsIn, Inv, NextSeq, Following;
  }

  lemma OtherStepIsQuiet(s: State, step: Step, t: State, c: Codec<ControlEvent>, accepts: Input -> bool)
    requires Inv(s, c) && !step.Number? && !step.Write? && !step.Mirror? && Next(s, step, t, c, accepts)
    ensures Quiet(s, t, c)
  {
    if step.Begin? { assert CallOk(s, step.i, c); }
    assert |s.appends| == |s.lock.calls|;
    hide RecordsIn, Inv, Following, CallOk, AtBoundary;
  }

  lemma NextKeepsNumbers(s: State, step: Step, t: State, start: nat, c: Codec<ControlEvent>, accepts: Input -> bool)
    requires Inv(s, c) && GapFree(s, start, c) && Next(s, step, t, c, accepts)
    ensures GapFree(t, start, c)
  {
    hide Next, Inv;
    match step {
      case Write(i, n) => WriteKeepsNumbers(s, i, n, t, start, c, accepts);
      case Mirror(i) => MirrorKeepsNumbers(s, i, t, start, c, accepts);
      case Number(_, _, _) => NumberIsQuiet(s, step, t, c, accepts);
      case _ => OtherStepIsQuiet(s, step, t, c, accepts);
    }
  }

  lemma OthersAreNotRunning(s: State, i: nat)
    requires LockOk(s.lock) && |s.appends| == |s.lock.calls| && IsRunning(s, i)
    ensures forall j :: 0 <= j < |s.appends| && j != i ==> !IsRunning(s, j)
  {
    hide LockOk;
    forall j | 0 <= j < |s.appends| && j != i ensures !IsRunning(s, j) {
      OthersDoNotRun(s, i, j);
    }
  }

  /** Whatever fails, the events logged since the start are numbered without a gap, from 1 on in an empty file. */
  lemma {:induction false} NumbersHaveNoGaps(states: seq<State>, steps: seq<Step>, c: Codec<ControlEvent>, accepts: Input -> bool, m: nat)
    requires Lawful(c) && IsRun(states, steps, c, accepts) && m <= |steps|
    ensures GapFree(states[m], |states[0].log|, c)
  {
    hide Next, Inv, Lawful;
    if m == 0 {
      assert states[0].appends == [];
    } else {
      NumbersHaveNoGaps(states, steps, c, accepts, m - 1);
      assert IsRun(states[..m], steps[..m - 1], c, accepts);
      RunsKeepInv(states[..m], steps[..m - 1], c, accepts);
      NextKeepsNumbers(states[m - 1], steps[m - 1], states[m], |states[0].log|, c, accepts);
    }
  }
}
