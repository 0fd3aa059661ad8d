/**
 The append-only log of src/control/ControlEventLedger.ts: several callers append under
 the promise lock of the path, one character at a time, and may fail or crash anywhere.
 */
module Ledger {
  import opened Outcomes
  import opened Fifo
  import opened ControlEvents
  import opened JsonLines
  import AppendLock

  /** The codec is JSON.stringify, and JSON.parse followed by `isControlEvent`. */
  method ReadAll(file: string, c: Codec<ControlEvent>) returns (events: seq<ControlEvent>)
    ensures events == RecordsIn(file, c)
  {
    events := ReadLines(file, c);
  }

  // ---- Appending

  /** Where an append stands between two awaits. */
  datatype Pc =
    | Validating
    | Bounding
    | Numbering
    | Writing(event: ControlEvent, written: nat)
    | Mirroring(event: ControlEvent)
    | Returned(event: ControlEvent)
    | Failed

  /** What a caller asks to append: the time and the session are optional. */
  datatype Input = Input(body: EventBody, turnId: Option<string>, ts: Option<int>, sessionKey: Option<string>)

  /** One call of `append`; ledger instances of one path share the lock and the file, each has a session of its own. */
  datatype Append = Append(input: Input, ownSession: string, pc: Pc)

  /** History: an event whose text is wholly in the file, and the call that wrote it. */
  datatype Entry = Entry(event: ControlEvent, epoch: nat, call: nat, returned: bool)

  /** `epoch` counts process starts; a crash drops the lock and the calls, not the file. */
  datatype State = State(lock: AppendLock.State, appends: seq<Append>, file: string, epoch: nat, log: seq<Entry>)

  datatype Step =
    | Call(input: Input, ownSession: string)
    | Begin(i: nat)
    | Validate(i: nat)
    | EnsureBoundary(i: nat)
    | Number(i: nat, eventId: string, now: int)
    | Write(i: nat, n: nat)
    | Mirror(i: nat)
    | Fail(i: nat)
    | CleanUp(i: nat)
    | Crash

  function MaxSeq(events: seq<ControlEvent>): (m: int)
    requires events != []
    ensures forall e :: e in events ==> e.seqNo <= m
    ensures exists e :: e in events && e.seqNo == m
  {
    var last := events[|events| - 1];
    if |events| == 1 then last.seqNo
    else
      var m := MaxSeq(events[..|events| - 1]);
      assert events == events[..|events| - 1] + [last];
      assert last in events;
      if last.seqNo > m then last.seqNo else m
  }

  function NextSeq(events: seq<ControlEvent>): int {
    if events == [] then 1 else MaxSeq(events) + 1
  }

  /** The input with its missing fields filled in. */
  function NewEvent(a: Append, eventId: string, seqNo: int, now: int): ControlEvent {
    ControlEvent(eventId, seqNo, if a.input.ts.Some? then a.input.ts.value else now,
                 if a.input.sessionKey.Some? then a.input.sessionKey.value else a.ownSession, a.input.turnId, a.input.body)
  }

  predicate IsRunning(s: State, i: nat) {
    i < |s.appends| && i < |s.lock.calls| && s.lock.calls[i].phase == Running
  }

  function WithPc(s: State, i: nat, pc: Pc): State
    requires i < |s.appends|
  {
    s.(appends := s.appends[i := s.appends[i].(pc := pc)])
  }

  /** The body ends: the lock sees whether it threw. */
  function EndWith(s: State, i: nat, pc: Pc): State
    requires i < |s.appends| && i < |s.lock.calls|
  {
    WithPc(s, i, pc).(lock := AppendLock.EndedBy(s.lock, i, pc.Failed?))
  }

  /** Writing goes on to character `n` of the event's line; its text may become complete. */
  function Written(s: State, i: nat, n: nat, c: Codec<ControlEvent>): State
    requires i < |s.appends| && s.appends[i].pc.Writing?
    requires s.appends[i].pc.written < n <= |c.encode(s.appends[i].pc.event)| + 1
  {
    var e, m := s.appends[i].pc.event, s.appends[i].pc.written;
    var text := c.encode(e);
    var t := WithPc(s, i, if n == |text| + 1 then Mirroring(e) else Writing(e, n));
    t.(file := s.file + (text + "\n")[m..n],
       log := if m < |text| <= n then s.log + [Entry(e, s.epoch, i, false)] else s.log)
  }

  /** `accepts` is validateControlEventInput; `now` the clock of the call. Fail is an I/O error of whatever call is awaited. */
  ghost predicate Next(s: State, step: Step, t: State, c: Codec<ControlEvent>, accepts: Input -> bool) {
    match step
    case Call(input, ownSession) =>
      t == s.(lock := AppendLock.Queued(s.lock), appends := s.appends + [Append(input, ownSession, Validating)])
    case Begin(i) =>
      AppendLock.CanStart(s.lock, i) && t == s.(lock := AppendLock.Begun(s.lock, i))
    case Validate(i) =>
      && IsRunning(s, i) && s.appends[i].pc == Validating
      && t == if accepts(s.appends[i].input) then WithPc(s, i, Bounding) else EndWith(s, i, Failed)
    case EnsureBoundary(i) =>
      && IsRunning(s, i) && s.appends[i].pc == Bounding
      && t == WithPc(s, i, Numbering).(file := if AtBoundary(s.file) then s.file else s.file + "\n")
    case Number(i, eventId, now) =>
      && IsRunning(s, i) && s.appends[i].pc == Numbering
      && t == WithPc(s, i, Writing(NewEvent(s.appends[i], eventId, NextSeq(RecordsIn(s.file, c)), now), 0))
    case Write(i, n) =>
      && IsRunning(s, i) && s.appends[i].pc.Writing?
      && s.appends[i].pc.written < n <= |c.encode(s.appends[i].pc.event)| + 1
      && t == Written(s, i, n, c)
    case Mirror(i) =>
      && IsRunning(s, i) && s.appends[i].pc.Mirroring? && s.log != []
      && t == EndWith(s, i, Returned(s.appends[i].pc.event)).(log := Acknowledged(s.log))
    case Fail(i) =>
      IsRunning(s, i) && t == EndWith(s, i, Failed)
    case CleanUp(i) =>
      AppendLock.CanCleanUp(s.lock, i) && t == s.(lock := AppendLock.CleanedUp(s.lock, i))
    case Crash =>
      t == State(AppendLock.INIT, [], s.file, s.epoch + 1, s.log)
  }

  function Acknowledged(log: seq<Entry>): seq<Entry>
    requires log != []
  {
    log[|log| - 1 := log[|log| - 1].(returned := true)]
  }

  function Events(log: seq<Entry>): (events: seq<ControlEvent>)
    ensures |events| == |log| && forall k :: 0 <= k < |log| ==> events[k] == log[k].event
  {
    seq(|log|, k requires 0 <= k < |log| => log[k].event)
  }

  predicate Before(a: Entry, b: Entry) {
    a.event.seqNo < b.event.seqNo && (a.epoch < b.epoch || (a.epoch == b.epoch && a.call < b.call))
  }

  /** Sequence numbers and lock order both go up strictly. */
  ghost predicate Sorted(log: seq<Entry>) {
    forall a, b :: 0 <= a < b < |log| ==> Before(log[a], log[b])
  }

  ghost predicate Init(s: State, c: Codec<ControlEvent>) {
    && s.lock == AppendLock.INIT && s.appends == []
    && RecordsIn(s.file, c) == Events(s.log) && Sorted(s.log)
    && forall k :: 0 <= k < |s.log| ==> s.log[k].epoch < s.epoch
  }

  // ---- What every step keeps

  /** Everything logged came before call `i` of this epoch. */
  ghost predicate LogBefore(s: State, i: nat) {
    forall k :: 0 <= k < |s.log| ==> s.log[k].epoch < s.epoch || (s.log[k].epoch == s.epoch && s.log[k].call < i)
  }

  ghost predicate SeqBefore(s: State, e: ControlEvent) {
    forall k :: 0 <= k < |s.log| ==> s.log[k].event.seqNo < e.seqNo
  }

  ghost predicate LoggedLast(s: State, i: nat, e: ControlEvent) {
    && s.log != [] && s.log[|s.log| - 1] == Entry(e, s.epoch, i, false)
    && LogBefore(s.(log := s.log[..|s.log| - 1]), i)
  }

  /** The file is a boundary followed by the first `n` characters of the event's line. */
  ghost predicate EndsWithPart(s: State, e: ControlEvent, n: nat, c: Codec<ControlEvent>) {
    var line := c.encode(e) + "\n";
    && n <= |line| && n <= |s.file|
    && var base := s.file[..|s.file| - n];
       && AtBoundary(base) && s.file == base + line[..n]
       && RecordsIn(base, c) == Events(if n < |c.encode(e)| || s.log == [] then s.log else s.log[..|s.log| - 1])
  }

  /** What holds of a call by the phase the lock has it in. */
  ghost predicate CallOk(s: State, i: nat, c: Codec<ControlEvent>)
    requires i < |s.appends| && i < |s.lock.calls|
  {
    var pc := s.appends[i].pc;
    match s.lock.calls[i].phase
    case Waiting => pc == Validating
    case Ended(threw) => (threw <==> pc.Failed?) && (pc.Failed? || (pc.Returned? && Entry(pc.event, s.epoch, i, true) in s.log))
    case Running =>
      match pc
      case Validating => LogBefore(s, i)
      case Bounding => LogBefore(s, i)
      case Numbering => LogBefore(s, i) && AtBoundary(s.file)
      case Writing(e, n) =>
        && n <= |c.encode(e)| && EndsWithPart(s, e, n, c)
        && if n < |c.encode(e)| then LogBefore(s, i) && SeqBefore(s, e) else LoggedLast(s, i, e)
      case Mirroring(e) => LoggedLast(s, i, e)
      case _ => false
  }

  ghost predicate LogFromStarted(s: State) {
    forall k :: 0 <= k < |s.log| ==>
      || s.log[k].epoch < s.epoch
      || (s.log[k].epoch == s.epoch && s.log[k].call < |s.lock.calls| && s.lock.calls[s.log[k].call].phase != Waiting)
  }

  ghost predicate LockOk(lock: AppendLock.State) {
    AppendLock.Inv(lock) && InOrder(AppendLock.Phases(lock))
  }

  ghost predicate Inv(s: State, c: Codec<ControlEvent>) {
    && LockOk(s.lock) && |s.appends| == |s.lock.calls|
    && RecordsIn(s.file, c) == Events(s.log) && Sorted(s.log) && LogFromStarted(s)
    && forall i :: 0 <= i < |s.appends| ==> CallOk(s, i, c)
  }

  lemma LockStep(l: AppendLock.State, step: AppendLock.Step, l': AppendLock.State)
    requires LockOk(l) && AppendLock.Next(l, step, l')
    ensures LockOk(l')
  {
    AppendLock.NextKeepsInv(l, step, l');
    AppendLock.StepRefinesQueue(l, step, l');
    NextKeepsOrder(AppendLock.Phases(l), AppendLock.Seen(step), AppendLock.Phases(l'));
  }

  /** While call `i` runs, every other call has ended or waits. */
  lemma OthersDoNotRun(s: State, i: nat, j: nat)
    requires LockOk(s.lock) && i < |s.lock.calls| && j < |s.lock.calls| && i != j
    requires s.lock.calls[i].phase == Running
    ensures if j < i then s.lock.calls[j].phase.Ended? else s.lock.calls[j].phase == Waiting
  {
    var p := AppendLock.Phases(s.lock);
    assert p[i] == Running;
    assert p[j] == s.lock.calls[j].phase;
  }

  /** A call that is not running keeps its state while the log only gains. */
  lemma OtherCallKept(s: State, t: State, j: nat, c: Codec<ControlEvent>)
    requires j < |s.appends| && j < |s.lock.calls| && j < |t.appends| && j < |t.lock.calls|
    requires s.lock.calls[j].phase != Running && t.lock.calls[j].phase == s.lock.calls[j].phase
    requires t.appends[j] == s.appends[j] && t.epoch == s.epoch
    requires forall e :: e in s.log && e.returned ==> e in t.log
    requires CallOk(s, j, c)
    ensures CallOk(t, j, c)
  {
  }

  lemma CallKeepsInv(s: State, input: Input, ownSession: string, t: State, c: Codec<ControlEvent>, accepts: Input -> bool)
    requires Inv(s, c) && Next(s, Call(input, ownSession), t, c, accepts)
    ensures Inv(t, c)
  {
    hide RecordsIn, Sorted, LockOk, AppendLock.Inv;
    LockStep(s.lock, AppendLock.Queue, t.lock);
    forall j | 0 <= j < |t.appends| ensures CallOk(t, j, c) {
      if j < |s.appends| {
        assert CallOk(s, j, c);
      }
    }
  }

  lemma BeginKeepsInv(s: State, i: nat, t: State, c: Codec<ControlEvent>, accepts: Input -> bool)
    requires Inv(s, c) && Next(s, Begin(i), t, c, accepts)
    ensures Inv(t, c)
  {
    hide RecordsIn, Sorted;
    LockStep(s.lock, AppendLock.Begin(i), t.lock);
    StartedAfterEnded(s, i);
    forall j | 0 <= j < |t.appends| ensures CallOk(t, j, c) {
      assert CallOk(s, j, c);
      if j != i {
        OthersDoNotRun(t, i, j);
        OtherCallKept(s, t, j, c);
      }
    }
  }

  lemma StartedAfterEnded(s: State, i: nat)
    requires LockOk(s.lock) && LogFromStarted(s) && i < |s.lock.calls| && s.lock.calls[i].phase == Waiting
    ensures LogBefore(s, i)
  {
    var p := AppendLock.Phases(s.lock);
    assert p[i] == Waiting;
    forall k | 0 <= k < |s.log| && s.log[k].epoch == s.epoch ensures s.log[k].call < i {
      assert p[s.log[k].call] != Waiting;
    }
  }

  /** Steps of the running call that leave the lock and the log alone. */
  lemma BodyStepKeepsInv(s: State, i: nat, t: State, c: Codec<ControlEvent>)
    requires Inv(s, c) && IsRunning(s, i) && t.lock == s.lock && t.epoch == s.epoch && t.log == s.log
    requires |t.appends| == |s.appends| && forall j :: 0 <= j < |s.appends| && j != i ==> t.appends[j] == s.appends[j]
    requires RecordsIn(t.file, c) == Events(s.log) && CallOk(t, i, c)
    ensures Inv(t, c)
  {
    hide RecordsIn, Sorted, LockOk;
    forall j | 0 <= j < |t.appends| && j != i ensures CallOk(t, j, c) {
      assert CallOk(s, j, c);
      OthersDoNotRun(s, i, j);
      OtherCallKept(s, t, j, c);
    }
  }

  /** The running call ends, by returning the event it logged last or by failing. */
  lemma EndKeepsInv(s: State, i: nat, pc: Pc, t: State, c: Codec<ControlEvent>)
    requires Inv(s, c) && IsRunning(s, i) && EndWith(s, i, pc).(log := t.log) == t
    requires if pc.Failed? then t.log == s.log
             else pc.Returned? && s.appends[i].pc == Mirroring(pc.event) && s.log != [] && t.log == Acknowledged(s.log)
    ensures Inv(t, c)
  {
    hide RecordsIn, LockOk;
    LockStep(s.lock, AppendLock.End(i, pc.Failed?), t.lock);
    assert CallOk(s, i, c);
    assert Events(t.log) == Events(s.log);
    if pc.Returned? {
      assert t.log[|t.log| - 1] == Entry(pc.event, s.epoch, i, true);
      forall e | e in s.log && e.returned ensures e in t.log {
        var k :| 0 <= k < |s.log| && s.log[k] == e;
        assert t.log[k] == e;
      }
    }
    forall j | 0 <= j < |t.appends| && j != i ensures CallOk(t, j, c) {
      assert CallOk(s, j, c);
      OthersDoNotRun(s, i, j);
      OtherCallKept(s, t, j, c);
    }
  }

  lemma CleanUpKeepsInv(s: State, i: nat, t: State, c: Codec<ControlEvent>, accepts: Input -> bool)
    requires Inv(s, c) && Next(s, CleanUp(i), t, c, accepts)
    ensures Inv(t, c)
  {
    hide RecordsIn, Sorted, LockOk, AppendLock.Inv;
    LockStep(s.lock, AppendLock.CleanUp(i), t.lock);
    forall j | 0 <= j < |t.appends| ensures CallOk(t, j, c) {
      assert CallOk(s, j, c);
      assert t.lock.calls[j].phase == s.lock.calls[j].phase;
    }
  }

  lemma ValidateKeepsInv(s: State, i: nat, t: State, c: Codec<ControlEvent>, accepts: Input -> bool)
    requires Inv(s, c) && Next(s, Validate(i), t, c, accepts)
    ensures Inv(t, c)
  {
    hide RecordsIn, Sorted, LockOk;
    assert CallOk(s, i, c);
    if accepts(s.appends[i].input) {
      BodyStepKeepsInv(s, i, t, c);
    } else {
      EndKeepsInv(s, i, Failed, t, c);
    }
  }

  lemma EnsureBoundaryKeepsInv(s: State, i: nat, t: State, c: Codec<ControlEvent>, accepts: Input -> bool)
    requires Inv(s, c) && Next(s, EnsureBoundary(i), t, c, accepts)
    ensures Inv(t, c)
  {
    hide RecordsIn, Sorted, LockOk;
    assert CallOk(s, i, c);
    LineFeedAddsNothing(s.file, c);
    BodyStepKeepsInv(s, i, t, c);
  }

  lemma NextSeqIsLater(events: seq<ControlEvent>)
    ensures forall e :: e in events ==> e.seqNo < NextSeq(events)
  {
  }

  lemma NumberKeepsInv(s: State, step: Step, t: State, c: Codec<ControlEvent>, accepts: Input -> bool)
    requires Lawful(c) && Inv(s, c) && step.Number? && Next(s, step, t, c, accepts)
    ensures Inv(t, c)
  {
    var i := step.i;
    hide RecordsIn, Sorted, LockOk, NextSeq, OneLine, AppendLock.Inv, LogFromStarted;
    assert CallOk(s, i, c);
    var e := t.appends[i].pc.event;
    NextSeqIsLater(RecordsIn(s.file, c));
    forall k | 0 <= k < |s.log| ensures s.log[k].event.seqNo < e.seqNo {
      assert Events(s.log)[k] in RecordsIn(s.file, c);
    }
    assert OneLine(c.encode(e));
    NotEmpty(c.encode(e));
    assert s.file[..|s.file| - 0] == s.file && s.file == s.file + (c.encode(e) + "\n")[..0];
    BodyStepKeepsInv(s, i, t, c);
  }

  lemma NotEmpty(text: string)
    requires OneLine(text)
    ensures |text| > 0
  {
  }

  /** More of the line is in the file; the text below it is as it was. */
  lemma PartGrows(s: State, e: ControlEvent, m: nat, n: nat, c: Codec<ControlEvent>)
    requires EndsWithPart(s, e, m, c) && m < n <= |c.encode(e)| + 1
    ensures var line := c.encode(e) + "\n";
            var file := s.file + line[m..n];
            var base := s.file[..|s.file| - m];
            n <= |file| && file[..|file| - n] == base && file == base + line[..n]
  {
    hide RecordsIn, AtBoundary, Events;
    PrefixGrows(s.file[..|s.file| - m], c.encode(e) + "\n", m, n);
  }

  lemma PrefixGrows(base: string, line: string, m: nat, n: nat)
    requires m < n <= |line|
    ensures var file := base + line[..m] + line[m..n];
            file == base + line[..n] && n <= |file| && file[..|file| - n] == base
  {
    assert line[..n] == line[..m] + line[m..n];
  }

  lemma EventsOfLogged(log: seq<Entry>, entry: Entry)
    ensures Events(log + [entry]) == Events(log) + [entry.event]
    ensures (log + [entry])[..|log|] == log
  {
  }

  lemma SortedWithLast(s: State, i: nat, e: ControlEvent)
    requires Sorted(s.log) && LogBefore(s, i) && SeqBefore(s, e)
    ensures Sorted(s.log + [Entry(e, s.epoch, i, false)])
  {
  }

  lemma TornPartStays(s: State, i: nat, n: nat, t: State, c: Codec<ControlEvent>)
    requires Lawful(c) && IsRunning(s, i) && s.appends[i].pc.Writing? && CallOk(s, i, c)
    requires s.appends[i].pc.written < n < |c.encode(s.appends[i].pc.event)| && t == Written(s, i, n, c)
    ensures RecordsIn(t.file, c) == Events(s.log) && CallOk(t, i, c)
  {
    hide RecordsIn, Lawful;
    var e, m := s.appends[i].pc.event, s.appends[i].pc.written;
    PartGrows(s, e, m, n, c);
    PartlyWritten(s.file[..|s.file| - m], e, n, c);
    assert EndsWithPart(t, e, n, c);
    hide EndsWithPart;
    assert LogBefore(t, i) && SeqBefore(t, e);
  }

  lemma TextBecomesVisible(s: State, i: nat, n: nat, t: State, c: Codec<ControlEvent>)
    requires Lawful(c) && IsRunning(s, i) && s.appends[i].pc.Writing? && CallOk(s, i, c)
    requires s.appends[i].pc.written < |c.encode(s.appends[i].pc.event)| <= n <= |c.encode(s.appends[i].pc.event)| + 1
    requires t == Written(s, i, n, c)
    ensures t.log == s.log + [Entry(s.appends[i].pc.event, s.epoch, i, false)]
    ensures RecordsIn(t.file, c) == Events(t.log) && CallOk(t, i, c)
  {
    hide RecordsIn, Lawful;
    var e, m := s.appends[i].pc.event, s.appends[i].pc.written;
    PartGrows(s, e, m, n, c);
    PartlyWritten(s.file[..|s.file| - m], e, n, c);
    EventsOfLogged(s.log, Entry(e, s.epoch, i, false));
    assert t.log[..|t.log| - 1] == s.log;
    assert EndsWithPart(t, e, n, c);
    hide EndsWithPart;
    assert LogBefore(t.(log := s.log), i);
  }

  lemma LineFeedFollows(s: State, i: nat, t: State, c: Codec<ControlEvent>)
    requires Lawful(c) && IsRunning(s, i) && s.appends[i].pc.Writing? && CallOk(s, i, c)
    requires s.appends[i].pc.written == |c.encode(s.appends[i].pc.event)|
    requires t == Written(s, i, |c.encode(s.appends[i].pc.event)| + 1, c)
    ensures t.log == s.log && RecordsIn(t.file, c) == Events(s.log) && CallOk(t, i, c)
  {
    hide RecordsIn, Lawful;
    var e, m := s.appends[i].pc.event, s.appends[i].pc.written;
    PartGrows(s, e, m, m + 1, c);
    PartlyWritten(s.file[..|s.file| - m], e, m + 1, c);
    EventsOfLogged(s.log[..|s.log| - 1], s.log[|s.log| - 1]);
    assert s.log[..|s.log| - 1] + [s.log[|s.log| - 1]] == s.log;
    hide EndsWithPart;
    assert LogBefore(t.(log := s.log[..|s.log| - 1]), i);
  }

  /** What a write step does to the call and the file, and what the call could rely on. */
  ghost predicate Wrote(s: State, i: nat, n: nat, t: State, c: Codec<ControlEvent>) {
    && i < |s.appends| && IsRunning(s, i) && s.appends[i].pc.Writing? && CallOk(s, i, c)
    && var e, m := s.appends[i].pc.event, s.appends[i].pc.written;
       && m < n <= |c.encode(e)| + 1 && t == Written(s, i, n, c)
       && t.lock == s.lock && t.epoch == s.epoch && |t.appends| == |s.appends|
       && (forall j :: 0 <= j < |s.appends| && j != i ==> t.appends[j] == s.appends[j])
       && (m < |c.encode(e)| ==> LogBefore(s, i) && SeqBefore(s, e) && Sorted(s.log))
       && (n < |c.encode(e)| ==> t.log == s.log)
  }

  lemma WrittenFrame(s: State, i: nat, n: nat, t: State, c: Codec<ControlEvent>, accepts: Input -> bool)
    requires Inv(s, c) && Next(s, Write(i, n), t, c, accepts)
    ensures Wrote(s, i, n, t, c)
  {
    hide RecordsIn;
    assert CallOk(s, i, c);
  }

  lemma WriteKeepsInv(s: State, i: nat, n: nat, t: State, c: Codec<ControlEvent>, accepts: Input -> bool)
    requires Lawful(c) && Inv(s, c) && Next(s, Write(i, n), t, c, accepts)
    ensures Inv(t, c)
  {
    hide Inv, Next, RecordsIn, Lawful, Sorted, CallOk, EndsWithPart, LogBefore, SeqBefore, Written;
    WrittenFrame(s, i, n, t, c, accepts);
    var e, m := s.appends[i].pc.event, s.appends[i].pc.written;
    if n < |c.encode(e)| {
      TornPartStays(s, i, n, t, c);
      BodyStepKeepsInv(s, i, t, c);
    } else if m < |c.encode(e)| {
      TextBecomesVisible(s, i, n, t, c);
      SortedWithLast(s, i, e);
      LoggedKeepsInv(s, i, t, c);
    } else {
      LineFeedFollows(s, i, t, c);
      BodyStepKeepsInv(s, i, t, c);
    }
  }

  /** The running call's event has become visible. */
  lemma LoggedKeepsInv(s: State, i: nat, t: State, c: Codec<ControlEvent>)
    requires Inv(s, c) && IsRunning(s, i) && t.lock == s.lock && t.epoch == s.epoch
    requires s.appends[i].pc.Writing? && t.log == s.log + [Entry(s.appends[i].pc.event, s.epoch, i, false)]
    requires |t.appends| == |s.appends| && forall j :: 0 <= j < |s.appends| && j != i ==> t.appends[j] == s.appends[j]
    requires RecordsIn(t.file, c) == Events(t.log) && Sorted(t.log) && CallOk(t, i, c)
    ensures Inv(t, c)
  {
    hide RecordsIn, LockOk, Sorted;
    forall e | e in s.log ensures e in t.log {
      var k :| 0 <= k < |s.log| && s.log[k] == e;
      assert t.log[k] == e;
    }
    forall j | 0 <= j < |t.appends| && j != i ensures CallOk(t, j, c) {
      assert CallOk(s, j, c);
      OthersDoNotRun(s, i, j);
      OtherCallKept(s, t, j, c);
    }
  }

  lemma NextKeepsInv(s: State, step: Step, t: State, c: Codec<ControlEvent>, accepts: Input -> bool)
    requires Lawful(c) && Inv(s, c) && Next(s, step, t, c, accepts)
    ensures Inv(t, c)
  {
    hide RecordsIn, Lawful, CallOk, LockOk, Sorted, LogFromStarted, EndsWithPart, LoggedLast, LogBefore;
    match step {
      case Call(input, ownSession) => CallKeepsInv(s, input, ownSession, t, c, accepts);
      case Begin(i) => BeginKeepsInv(s, i, t, c, accepts);
      case Validate(i) => ValidateKeepsInv(s, i, t, c, accepts);
      case EnsureBoundary(i) => EnsureBoundaryKeepsInv(s, i, t, c, accepts);
      case Number(_, _, _) => NumberKeepsInv(s, step, t, c, accepts);
      case Write(i, n) => WriteKeepsInv(s, i, n, t, c, accepts);
      case Mirror(i) => MirrorKeepsInv(s, i, t, c, accepts);
      case Fail(i) => EndKeepsInv(s, i, Failed, t, c);
      case CleanUp(i) => CleanUpKeepsInv(s, i, t, c, accepts);
      case Crash => CrashKeepsInv(s, t, c, accepts);
    }
  }

  lemma MirrorKeepsInv(s: State, i: nat, t: State, c: Codec<ControlEvent>, accepts: Input -> bool)
    requires Inv(s, c) && Next(s, Mirror(i), t, c, accepts)
    ensures Inv(t, c)
  {
    hide Inv, RecordsIn;
    EndKeepsInv(s, i, Returned(s.appends[i].pc.event), t, c);
  }

  lemma CrashKeepsInv(s: State, t: State, c: Codec<ControlEvent>, accepts: Input -> bool)
    requires Inv(s, c) && Next(s, Crash, t, c, accepts)
    ensures Inv(t, c)
  {
    hide RecordsIn, Sorted;
    assert AppendLock.Phases(t.lock) == [];
  }

  // ---- Whole runs

  ghost predicate IsRun(states: seq<State>, steps: seq<Step>, c: Codec<ControlEvent>, accepts: Input -> bool) {
    && |states| == |steps| + 1 && Init(states[0], c)
    && forall k :: 0 <= k < |steps| ==> Next(states[k], steps[k], states[k + 1], c, accepts)
  }

  lemma {:induction false} RunsKeepInv(states: seq<State>, steps: seq<Step>, c: Codec<ControlEvent>, accepts: Input -> bool)
    requires Lawful(c) && IsRun(states, steps, c, accepts)
    ensures Inv(states[|steps|], c)
  {
    hide Next, RecordsIn, Sorted, Lawful;
    if steps == [] {
      assert AppendLock.Phases(states[0].lock) == [];
    } else {
      var n := |steps| - 1;
      RunsKeepInv(states[..n + 1], steps[..n], c, accepts);
      NextKeepsInv(states[n], steps[n], states[n + 1], c, accepts);
    }
  }

  /**
   After any interleaving of appends, I/O errors and crashes: reading the file gives exactly the
   logged events, whose sequence numbers and callers go up strictly, and an append that has
   returned is logged under its call.
   */
  lemma LedgerGuarantees(states: seq<State>, steps: seq<Step>, c: Codec<ControlEvent>, accepts: Input -> bool)
    requires Lawful(c) && IsRun(states, steps, c, accepts)
    ensures var s := states[|steps|];
            && RecordsIn(s.file, c) == Events(s.log)
            && Sorted(s.log)
            && forall i :: 0 <= i < |s.appends| && s.appends[i].pc.Returned? ==>
                 Entry(s.appends[i].pc.event, s.epoch, i, true) in s.log
  {
    hide RecordsIn, Sorted, Lawful, Next;
    RunsKeepInv(states, steps, c, accepts);
    var s := states[|steps|];
    forall i | 0 <= i < |s.appends| && s.appends[i].pc.Returned?
      ensures Entry(s.appends[i].pc.event, s.epoch, i, true) in s.log
    {
      assert CallOk(s, i, c);
    }
  }

  /** No step loses or changes what is logged, except that its append may still return. */
  lemma LogOnlyGrows(s: State, step: Step, t: State, c: Codec<ControlEvent>, accepts: Input -> bool)
    requires Next(s, step, t, c, accepts)
    ensures |s.log| <= |t.log|
    ensures forall k :: 0 <= k < |s.log| ==>
              t.log[k] == s.log[k] || t.log[k] == s.log[k].(returned := true)
  {
    hide RecordsIn;
  }

  /** So it is over whole runs, crashes included. */
  lemma {:induction false} LogStays(states: seq<State>, steps: seq<Step>, c: Codec<ControlEvent>, accepts: Input -> bool, k: nat, m: nat)
    requires IsRun(states, steps, c, accepts) && k <= m <= |steps|
    ensures |states[k].log| <= |states[m].log|
    ensures forall j :: 0 <= j < |states[k].log| ==>
              states[m].log[j] == states[k].log[j] || states[m].log[j] == states[k].log[j].(returned := true)
  {
    hide Next, RecordsIn;
    if k < m {
      LogStays(states, steps, c, accepts, k, m - 1);
      LogOnlyGrows(states[m - 1], steps[m - 1], states[m], c, accepts);
    }
  }

  lemma NoneTwice(s: State, c: Codec<ControlEvent>)
    requires RecordsIn(s.file, c) == Events(s.log) && Sorted(s.log)
    ensures var events := RecordsIn(s.file, c); forall a, b :: 0 <= a < b < |events| ==> events[a] != events[b]
  {
    hide RecordsIn;
    forall a, b | 0 <= a < b < |s.log| ensures s.log[a].event != s.log[b].event {
      assert Before(s.log[a], s.log[b]);
    }
  }

  ghost predicate OnlyAt(events: seq<ControlEvent>, e: ControlEvent, n: nat) {
    n < |events| && forall m :: 0 <= m < |events| ==> (events[m] == e <==> m == n)
  }

  /**
   Durability: once an append has returned, its event is in the file ever after, exactly once, whatever appends, I/O
   errors and crashes follow; and it stays logged as the event of that call.
   */
  lemma CompletedSurvives(states: seq<State>, steps: seq<Step>, c: Codec<ControlEvent>, accepts: Input -> bool, k: nat, i: nat)
    requires Lawful(c) && IsRun(states, steps, c, accepts) && k <= |steps|
    requires i < |states[k].appends| && states[k].appends[i].pc.Returned?
    ensures var event, s := states[k].appends[i].pc.event, states[|steps|];
            && Entry(event, states[k].epoch, i, true) in s.log
            && exists n :: OnlyAt(RecordsIn(s.file, c), event, n)
  {
    hide Next, RecordsIn, Sorted, Lawful;
    var event, s := states[k].appends[i].pc.event, states[|steps|];
    var entry := Entry(event, states[k].epoch, i, true);
    assert IsRun(states[..k + 1], steps[..k], c, accepts);
    LedgerGuarantees(states[..k + 1], steps[..k], c, accepts);
    assert entry in states[k].log;
    LedgerGuarantees(states, steps, c, accepts);
    LogStays(states, steps, c, accepts, k, |steps|);
    var n :| 0 <= n < |states[k].log| && states[k].log[n] == entry;
    assert s.log[n] == entry;
    NoneTwice(s, c);
    assert OnlyAt(RecordsIn(s.file, c), event, n);
  }
}
