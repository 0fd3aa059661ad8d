/**
 The scheduler of src/cron/CronScheduler.ts: its crons, its index file and its clock. Operations are taken one at a
 time and fire handlers leave the scheduler alone.
 */
module CronScheduler {
  import opened Outcomes
  import opened Calendar
  import opened CronSearch
  import opened CronParser

  /** `consecutiveFailures` as JSON and JavaScript leave it: a record on disk may lack it or hold null. */
  datatype Failures = Missing | Null | NaN | Count(n: nat)

  datatype CronRecord = CronRecord(
    cronId: string, botId: string, userId: string, expression: string, prompt: string, deliveryChannel: string,
    description: Option<string>, enabled: bool, createdAt: int, nextFireAt: int, lastFiredAt: Option<int>,
    consecutiveFailures: Failures, durable: bool, sessionKey: Option<string>, isInternal: bool)

  /** `+= 1` */
  function Increment(f: Failures): Failures {
    match f
    case Missing => NaN
    case Null => Count(1)
    case NaN => NaN
    case Count(n) => Count(n + 1)
  }

  /** `>= max` */
  predicate AtLeast(f: Failures, max: int) {
    match f
    case Null => 0 >= max
    case Count(n) => n >= max
    case _ => false
  }

  // ---- The map of crons, in insertion order

  ghost predicate DistinctIds(crons: seq<CronRecord>) {
    forall i, j :: 0 <= i < j < |crons| ==> crons[i].cronId != crons[j].cronId
  }

  function IndexOf(crons: seq<CronRecord>, id: string): (k: Option<nat>)
    ensures k.Some? ==> k.value < |crons| && crons[k.value].cronId == id
    ensures k.None? ==> forall j :: 0 <= j < |crons| ==> crons[j].cronId != id
  {
    if crons == [] then None
    else if crons[|crons| - 1].cronId == id then Some(|crons| - 1)
    else IndexOf(crons[..|crons| - 1], id)
  }

  /** `Map.set`: an id that is there keeps its place. */
  function Put(crons: seq<CronRecord>, c: CronRecord): (r: seq<CronRecord>)
    ensures DistinctIds(crons) ==> DistinctIds(r)
  {
    var k := IndexOf(crons, c.cronId);
    if k.Some? then crons[k.value := c] else crons + [c]
  }

  function Remove(crons: seq<CronRecord>, k: nat): seq<CronRecord>
    requires k < |crons|
  {
    crons[..k] + crons[k + 1..]
  }

  // ---- The index file

  /** An entry that is not a cron record, or one with its `durable` field as found. */
  datatype Entry = Junk(json: string) | Entry(record: CronRecord, durable: Option<bool>)

  datatype Index = NoFile | Unreadable | NotAList | Entries(entries: seq<Entry>)

  predicate IsPersisted(c: CronRecord) {
    c.durable && !c.isInternal
  }

  /** What JSON makes of a record: NaN is written as null. */
  function OnDisk(c: CronRecord): CronRecord {
    c.(consecutiveFailures := if c.consecutiveFailures == NaN then Null else c.consecutiveFailures)
  }

  function Durable(crons: seq<CronRecord>): seq<CronRecord> {
    if crons == [] then []
    else
      var last := crons[|crons| - 1];
      Durable(crons[..|crons| - 1]) + (if IsPersisted(last) then [last] else [])
  }

  /** `persist`: the snapshot it writes. */
  function Snapshot(crons: seq<CronRecord>): seq<Entry> {
    if crons == [] then []
    else
      var last := crons[|crons| - 1];
      Snapshot(crons[..|crons| - 1]) + (if IsPersisted(last) then [Entry(OnDisk(last), Some(true))] else [])
  }

  /** `hydrate`: a missing `durable` field counts as true. */
  function Hydrated(entries: seq<Entry>): (crons: seq<CronRecord>)
    ensures DistinctIds(crons)
  {
    if entries == [] then []
    else
      var last := entries[|entries| - 1];
      var before := Hydrated(entries[..|entries| - 1]);
      if last.Junk? then before else Put(before, last.record.(durable := last.durable != Some(false)))
  }

  function Loaded(index: Index): (crons: seq<CronRecord>)
    ensures DistinctIds(crons)
  {
    if index.Entries? then Hydrated(index.entries) else []
  }

  function AllOnDisk(crons: seq<CronRecord>): seq<CronRecord> {
    if crons == [] then [] else AllOnDisk(crons[..|crons| - 1]) + [OnDisk(crons[|crons| - 1])]
  }

  lemma {:induction false} DurableIsIn(crons: seq<CronRecord>, id: string)
    requires forall k :: 0 <= k < |crons| ==> crons[k].cronId != id
    ensures forall k :: 0 <= k < |AllOnDisk(Durable(crons))| ==> AllOnDisk(Durable(crons))[k].cronId != id
  {
    if crons != [] {
      var front, last := crons[..|crons| - 1], crons[|crons| - 1];
      DurableIsIn(front, id);
      assert (Durable(front) + [last])[..|Durable(front)|] == Durable(front);
      assert Durable(front) + [] == Durable(front);
    }
  }

  /** Hydrating what was persisted restores the durable crons in their order, up to what JSON does to a count that is NaN. */
  lemma {:induction false} HydrateAfterPersist(crons: seq<CronRecord>)
    requires DistinctIds(crons)
    ensures Hydrated(Snapshot(crons)) == AllOnDisk(Durable(crons))
  {
    if crons != [] {
      var front, last := crons[..|crons| - 1], crons[|crons| - 1];
      HydrateAfterPersist(front);
      DurableIsIn(front, last.cronId);
      assert (Durable(front) + [last])[..|Durable(front)|] == Durable(front);
      assert (Snapshot(front) + [Entry(OnDisk(last), Some(true))])[..|Snapshot(front)|] == Snapshot(front);
      assert Durable(front) + [] == Durable(front) && Snapshot(front) + [] == Snapshot(front);
    }
  }

  lemma {:induction false} AllOnDiskAt(crons: seq<CronRecord>)
    ensures |AllOnDisk(crons)| == |crons| && forall k :: 0 <= k < |crons| ==> AllOnDisk(crons)[k] == OnDisk(crons[k])
  {
    if crons != [] { AllOnDiskAt(crons[..|crons| - 1]); }
  }

  /** It restores them exactly when no failure count is NaN. */
  lemma HydrateRestoresExactlyWhen(crons: seq<CronRecord>)
    requires DistinctIds(crons)
    ensures Hydrated(Snapshot(crons)) == Durable(crons) <==>
            forall k :: 0 <= k < |Durable(crons)| ==> Durable(crons)[k].consecutiveFailures != NaN
  {
    HydrateAfterPersist(crons);
    AllOnDiskAt(Durable(crons));
    hide Hydrated, Snapshot, Durable, AllOnDisk;
    var durable := Durable(crons);
    if forall k :: 0 <= k < |durable| ==> durable[k].consecutiveFailures != NaN {
      assert AllOnDisk(durable) == durable;
    }
    if AllOnDisk(durable) == durable {
      forall k | 0 <= k < |durable| ensures durable[k].consecutiveFailures != NaN {
        assert OnDisk(durable[k]) == durable[k];
      }
    }
  }

  lemma SnapshotOfMore(crons: seq<CronRecord>, c: CronRecord)
    ensures Snapshot(crons + [c]) == Snapshot(crons) + (if IsPersisted(c) then [Entry(OnDisk(c), Some(true))] else [])
    ensures AllOnDisk(crons + [c]) == AllOnDisk(crons) + [OnDisk(c)]
  {
    assert (crons + [c])[..|crons|] == crons;
  }

  lemma {:induction false} SnapshotOfDurable(crons: seq<CronRecord>)
    ensures Snapshot(AllOnDisk(Durable(crons))) == Snapshot(crons)
  {
    if crons != [] {
      hide Snapshot, AllOnDisk;
      var front, last := crons[..|crons| - 1], crons[|crons| - 1];
      SnapshotOfDurable(front);
      var kept := Durable(front);
      assert front + [last] == crons;
      SnapshotOfMore(front, last);
      SnapshotOfMore(kept, last);
      SnapshotOfMore(AllOnDisk(kept), OnDisk(last));
      DurableOfMore(front, last);
      assert Snapshot(front) + [] == Snapshot(front);
      assert OnDisk(OnDisk(last)) == OnDisk(last) && IsPersisted(OnDisk(last)) == IsPersisted(last);
      hide OnDisk, Durable, IsPersisted;
    }
  }

  lemma DurableOfMore(crons: seq<CronRecord>, c: CronRecord)
    ensures Durable(crons + [c]) == if IsPersisted(c) then Durable(crons) + [c] else Durable(crons)
  {
    assert (crons + [c])[..|crons|] == crons && Durable(crons) + [] == Durable(crons);
  }

  /** A file of records from before the `durable` field. */
  function Legacy(records: seq<CronRecord>): seq<Entry> {
    if records == [] then [] else Legacy(records[..|records| - 1]) + [Entry(records[|records| - 1], None)]
  }

  function MadeDurable(records: seq<CronRecord>): (crons: seq<CronRecord>)
    ensures |crons| == |records| && forall k :: 0 <= k < |crons| ==> crons[k] == records[k].(durable := true)
  {
    if records == [] then []
    else MadeDurable(records[..|records| - 1]) + [records[|records| - 1].(durable := true)]
  }

  /** Hydrating such a file keeps every record, as a durable one; the next write gives each its field. */
  lemma {:induction false} LegacyRecordsAreKept(records: seq<CronRecord>)
    requires DistinctIds(records)
    ensures Hydrated(Legacy(records)) == MadeDurable(records)
  {
    if records != [] {
      var front, last := records[..|records| - 1], records[|records| - 1];
      LegacyRecordsAreKept(front);
      assert (Legacy(front) + [Entry(last, None)])[..|Legacy(front)|] == Legacy(front);
    }
  }

  // ---- Firing

  /** A handler call: whether it fails, how long it takes, and how long until its next time is asked for. */
  datatype Fire = Fire(fails: bool, takes: nat, lag: nat)

  datatype Setup = Setup(offset: int, maxFailures: int, handlers: set<string>, hasFireHandler: bool)

  predicate IsDue(c: CronRecord, start: int) {
    c.enabled && c.nextFireAt <= start
  }

  /** Without a handler a fire succeeds at once. */
  predicate HasHandler(c: CronRecord, setup: Setup) {
    if c.isInternal then c.cronId in setup.handlers else setup.hasFireHandler
  }

  function Outcome(c: CronRecord, fire: Fire, setup: Setup): Fire {
    if HasHandler(c, setup) then fire else Fire(false, 0, fire.lag)
  }

  /** The record after its handler, at time `now`. */
  function Handled(c: CronRecord, fails: bool, now: int, setup: Setup): CronRecord {
    if !fails then c.(lastFiredAt := Some(now), consecutiveFailures := Count(0))
    else
      var failures := Increment(c.consecutiveFailures);
      c.(consecutiveFailures := failures, enabled := c.enabled && !AtLeast(failures, setup.maxFailures))
  }

  /** The `finally` block: the next time, or no more firing. */
  ghost function Rescheduled(c: CronRecord, now: int, setup: Setup): CronRecord {
    match NextFire(c.expression, now, setup.offset)
    case Ok(t) => c.(nextFireAt := t)
    case Err(_) => c.(enabled := false)
  }

  ghost function Fired(c: CronRecord, fire: Fire, now: int, setup: Setup): CronRecord {
    var outcome := Outcome(c, fire, setup);
    Rescheduled(Handled(c, outcome.fails, now + outcome.takes, setup), now + outcome.takes + outcome.lag, setup)
  }

  /** The time once the first `k` crons have been seen to. */
  function TimeAfter(crons: seq<CronRecord>, fires: nat -> Fire, start: int, setup: Setup, k: nat): (t: int)
    requires k <= |crons|
    ensures t >= start
  {
    if k == 0 then start
    else
      var before := TimeAfter(crons, fires, start, setup, k - 1);
      var c := crons[k - 1];
      if IsDue(c, start) then before + Outcome(c, fires(k - 1), setup).takes + Outcome(c, fires(k - 1), setup).lag else before
  }

  /** The handlers a tick calls, in order. */
  function Calls(crons: seq<CronRecord>, start: int, setup: Setup): seq<string> {
    if crons == [] then []
    else
      var c := crons[|crons| - 1];
      Calls(crons[..|crons| - 1], start, setup) + (if IsDue(c, start) && HasHandler(c, setup) then [c.cronId] else [])
  }

  /** Cron `k` after a tick that began at `start`. */
  ghost function Ticked(crons: seq<CronRecord>, fires: nat -> Fire, start: int, setup: Setup, k: nat): CronRecord
    requires k < |crons|
  {
    if IsDue(crons[k], start) then Fired(crons[k], fires(k), TimeAfter(crons, fires, start, setup, k), setup) else crons[k]
  }

  // ---- What every operation keeps

  /** An enabled cron has failed fewer times in a row than the maximum; a count that is no number never reaches it. */
  ghost predicate Sound(c: CronRecord, maxFailures: int) {
    c.enabled ==> !AtLeast(c.consecutiveFailures, maxFailures)
  }

  ghost predicate AllSound(crons: seq<CronRecord>, maxFailures: int) {
    forall k :: 0 <= k < |crons| ==> Sound(crons[k], maxFailures)
  }

  /** The index holds the durable crons that are not internal, and may be missing when there are none. */
  ghost predicate IndexMatches(index: Index, crons: seq<CronRecord>) {
    index == Entries(Snapshot(crons)) || (index == NoFile && Snapshot(crons) == [])
  }

  /** Firing makes a cron sound, whatever its count was before: a failure beyond the maximum ends it, a success clears it. */
  lemma FiredIsSound(c: CronRecord, fire: Fire, now: int, setup: Setup)
    requires setup.maxFailures >= 1
    ensures Sound(Fired(c, fire, now, setup), setup.maxFailures)
  {
    hide NextFire, HasHandler;
  }

  lemma FiredIsLater(c: CronRecord, fire: Fire, now: int, setup: Setup)
    ensures var f := Fired(c, fire, now, setup);
            (f.enabled ==> f.nextFireAt > now) && f.cronId == c.cronId && IsPersisted(f) == IsPersisted(c)
  {
    hide NextFire, HasHandler;
    var outcome := Outcome(c, fire, setup);
    NextFireIsLater(c.expression, now + outcome.takes + outcome.lag, setup.offset);
  }

  lemma NextFireIsLater(expression: string, now: int, offset: int)
    ensures NextFire(expression, now, offset).Ok? ==> NextFire(expression, now, offset).value > now
  {
    if NextFire(expression, now, offset).Ok? { NextFireIsLeastMatch(expression, now, offset); }
    hide *;
  }

  /** After a tick no enabled cron is due at the time the tick began; every cron that was due or sound is sound. */
  lemma NothingLeftDue(crons: seq<CronRecord>, fires: nat -> Fire, start: int, setup: Setup, k: nat)
    requires k < |crons|
    ensures var c := Ticked(crons, fires, start, setup, k);
            && !IsDue(c, start)
            && (setup.maxFailures >= 1 && (IsDue(crons[k], start) || Sound(crons[k], setup.maxFailures)) ==> Sound(c, setup.maxFailures))
  {
    hide Fired;
    FiredIsLater(crons[k], fires(k), TimeAfter(crons, fires, start, setup, k), setup);
    if setup.maxFailures >= 1 { FiredIsSound(crons[k], fires(k), TimeAfter(crons, fires, start, setup, k), setup); }
  }

  /** A restart finds the durable crons in the state they were in: as sound, and written the same again. */
  lemma RestartKeepsCrons(index: Index, crons: seq<CronRecord>, maxFailures: int)
    requires IndexMatches(index, crons) && DistinctIds(crons) && AllSound(crons, maxFailures) && maxFailures >= 1
    ensures Loaded(index) == AllOnDisk(Durable(crons))
    ensures AllSound(Loaded(index), maxFailures) && Snapshot(Loaded(index)) == Snapshot(crons) && IndexMatches(index, Loaded(index))
  {
    HydrateAfterPersist(crons);
    SnapshotOfDurable(crons);
    DurableIsSound(crons, maxFailures);
    OnDiskIsSound(Durable(crons), maxFailures);
    if index == NoFile { NothingDurable(crons); }
    hide Hydrated, Snapshot, Durable, DistinctIds, AllSound;
  }

  lemma OnDiskIsSound(crons: seq<CronRecord>, maxFailures: int)
    requires AllSound(crons, maxFailures) && maxFailures >= 1
    ensures AllSound(AllOnDisk(crons), maxFailures)
  {
    hide AllOnDisk;
    AllOnDiskAt(crons);
    forall k | 0 <= k < |crons| ensures Sound(AllOnDisk(crons)[k], maxFailures) {
      assert Sound(crons[k], maxFailures);
    }
  }

  lemma {:induction false} NothingDurable(crons: seq<CronRecord>)
    requires Snapshot(crons) == []
    ensures Durable(crons) == []
  {
    if crons != [] { NothingDurable(crons[..|crons| - 1]); }
  }

  lemma {:induction false} DurableIsSound(crons: seq<CronRecord>, maxFailures: int)
    requires AllSound(crons, maxFailures)
    ensures AllSound(Durable(crons), maxFailures)
  {
    if crons != [] { DurableIsSound(crons[..|crons| - 1], maxFailures); }
  }

  // ---- Shutting a failing cron down

  function FailTimes(c: CronRecord, n: nat, now: int, setup: Setup): CronRecord {
    if n == 0 then c else Handled(FailTimes(c, n - 1, now, setup), true, now, setup)
  }

  /** The number a count stands for; a missing one becomes NaN at the first failure. */
  function Failed(f: Failures): Option<nat> {
    match f
    case Count(n) => Some(n)
    case Null => Some(0)
    case _ => None
  }

  /**
   After `n` failures in a row a sound cron is still enabled exactly when its count is no number or stays below the
   maximum: a record hydrated without a count is not shut down before it has been written, as null, and hydrated again.
   */
  lemma {:induction false} ShutDownExactlyWhen(c: CronRecord, n: nat, now: int, setup: Setup)
    requires c.enabled && Sound(c, setup.maxFailures) && setup.maxFailures >= 1
    ensures FailTimes(c, n, now, setup).enabled <==> (Failed(c.consecutiveFailures).Some? ==> Failed(c.consecutiveFailures).value + n < setup.maxFailures)
    ensures var f := FailTimes(c, n, now, setup).consecutiveFailures;
            Failed(f) == if Failed(c.consecutiveFailures).Some? then Some(Failed(c.consecutiveFailures).value + n) else None
  {
    if n > 0 { ShutDownExactlyWhen(c, n - 1, now, setup); }
  }

  /** A cron for 29 February alone is disabled by the tick that fires it, once no time of its schedule is left that day. */
  lemma LeapDayCronIsDisabled(c: CronRecord, fire: Fire, now: int, setup: Setup)
    requires CronMeaning(c.expression).Ok? && !OrdinaryPossible(CronMeaning(c.expression).value)
    requires var o := Outcome(c, fire, setup);
             var m := FirstMinuteAfter(now + o.takes + o.lag, setup.offset);
             IsLeapDay(m / MINUTES_PER_DAY) && !TimeRemains(CronMeaning(c.expression).value, m, m / MINUTES_PER_DAY)
    ensures !Fired(c, fire, now, setup).enabled
  {
    hide FirstFire, CronMeaning, OrdinaryPossible, TimeRemains, IsLeapDay, FirstMinuteAfter;
    var o := Outcome(c, fire, setup);
    ParsedFieldsAreAccepted(c.expression);
    LeapDayScheduleFailsAfterFiring(CronMeaning(c.expression).value, FirstMinuteAfter(now + o.takes + o.lag, setup.offset));
  }

  /** A cron "0 0 29 2 *" that is fired on time on 29 February 2024 is disabled by that. */
  lemma CronOf2024IsDisabled(c: CronRecord, fails: bool, setup: Setup)
    requires c.expression == LEAP_DAY_TEXT && setup.offset == 0
    ensures !Fired(c, Fire(fails, 0, 0), 60_000 * MIDNIGHT, setup).enabled
  {
    hide NextFire;
    LeapDayOf2024();
  }

  // ---- Single changes to the map

  lemma {:induction false} SnapshotOfUnpersisted(crons: seq<CronRecord>, c: CronRecord)
    requires !IsPersisted(c)
    ensures Snapshot(crons + [c]) == Snapshot(crons)
  {
    assert (crons + [c])[..|crons|] == crons;
    assert Snapshot(crons) + [] == Snapshot(crons);
  }

  datatype Patch = Patch(expression: Option<string>, prompt: Option<string>, enabled: Option<bool>, description: Option<string>)

  /** A patched record; `next` is the next time of a new expression. */
  function Patched(c: CronRecord, patch: Patch, next: int): CronRecord {
    c.(expression := if patch.expression.Some? then patch.expression.value else c.expression,
       nextFireAt := if patch.expression.Some? then next else c.nextFireAt,
       prompt := if patch.prompt.Some? then patch.prompt.value else c.prompt,
       enabled := if patch.enabled.Some? then patch.enabled.value else c.enabled,
       consecutiveFailures := if patch.enabled == Some(true) then Count(0) else c.consecutiveFailures,
       description := if patch.description.Some? then patch.description else c.description)
  }

  lemma PatchedIsSound(c: CronRecord, patch: Patch, next: int, maxFailures: int)
    ensures Sound(c, maxFailures) && maxFailures >= 1 ==> Sound(Patched(c, patch, next), maxFailures)
    ensures Patched(c, patch, next).cronId == c.cronId
  {
  }

  lemma ReplacingKeeps(crons: seq<CronRecord>, k: nat, c: CronRecord, maxFailures: int)
    requires DistinctIds(crons) && k < |crons| && c.cronId == crons[k].cronId
    ensures DistinctIds(crons[k := c])
    ensures AllSound(crons, maxFailures) && (Sound(crons[k], maxFailures) ==> Sound(c, maxFailures)) ==> AllSound(crons[k := c], maxFailures)
  {
    hide Sound;
  }

  lemma AppendingKeeps(crons: seq<CronRecord>, c: CronRecord, maxFailures: int)
    requires DistinctIds(crons) && IndexOf(crons, c.cronId).None?
    ensures DistinctIds(crons + [c])
    ensures AllSound(crons, maxFailures) && Sound(c, maxFailures) ==> AllSound(crons + [c], maxFailures)
  {
    hide Sound;
  }

  lemma RemovingKeeps(crons: seq<CronRecord>, k: nat, maxFailures: int)
    requires DistinctIds(crons) && k < |crons|
    ensures DistinctIds(Remove(crons, k)) && IndexOf(Remove(crons, k), crons[k].cronId).None?
    ensures AllSound(crons, maxFailures) ==> AllSound(Remove(crons, k), maxFailures)
  {
    hide Sound;
  }

  lemma TickStart(crons: seq<CronRecord>, fires: nat -> Fire, start: int, setup: Setup)
    ensures TimeAfter(crons, fires, start, setup, 0) == start && Calls(crons[..0], start, setup) == []
  {
  }

  lemma TickStep(crons: seq<CronRecord>, fires: nat -> Fire, start: int, setup: Setup, k: nat)
    requires k < |crons|
    ensures var outcome := Outcome(crons[k], fires(k), setup);
            TimeAfter(crons, fires, start, setup, k + 1) ==
            TimeAfter(crons, fires, start, setup, k) + (if IsDue(crons[k], start) then outcome.takes + outcome.lag else 0)
    ensures Calls(crons[..k + 1], start, setup) ==
            Calls(crons[..k], start, setup) + (if IsDue(crons[k], start) && HasHandler(crons[k], setup) then [crons[k].cronId] else [])
  {
    assert crons[..k + 1][..k] == crons[..k];
  }

  /** What a tick keeps of the crons. */
  lemma TickKeeps(before: seq<CronRecord>, after: seq<CronRecord>, fires: nat -> Fire, start: int, setup: Setup)
    requires DistinctIds(before) && |after| == |before|
    requires forall k :: 0 <= k < |after| ==> after[k] == Ticked(before, fires, start, setup, k)
    ensures DistinctIds(after) && (setup.maxFailures >= 1 && AllSound(before, setup.maxFailures) ==> AllSound(after, setup.maxFailures))
    ensures forall k :: 0 <= k < |after| ==> !IsDue(after[k], start)
  {
    hide Fired, IsDue, Sound;
    forall k | 0 <= k < |after|
      ensures after[k].cronId == before[k].cronId && !IsDue(after[k], start)
      ensures setup.maxFailures >= 1 && Sound(before[k], setup.maxFailures) ==> Sound(after[k], setup.maxFailures)
    {
      NothingLeftDue(before, fires, start, setup, k);
      FiredIsLater(before[k], fires(k), TimeAfter(before, fires, start, setup, k), setup);
    }
  }

  /** An empty text is left out of a new record. */
  function NotEmpty(text: Option<string>): Option<string> {
    if text == Some("") then None else text
  }

  datatype UpdateError = NotFound | BadExpression(error: CronError)

  // ---- The scheduler

  class Scheduler {
    var crons: seq<CronRecord>
    var internalHandlers: set<string>
    var index: Index
    var now: int
    var hasFireHandler: bool
    var tickInProgress: bool
    /** The crons whose handlers were called. */
    var calls: seq<string>
    const offset: int
    const maxFailures: int

    constructor (index: Index, now: int, offset: int, maxFailures: int)
      ensures crons == [] && internalHandlers == {} && this.index == index && this.now == now && !tickInProgress && !hasFireHandler
      ensures this.offset == offset && this.maxFailures == maxFailures && calls == []
    {
      crons, internalHandlers, this.index, this.now, hasFireHandler, tickInProgress, calls := [], {}, index, now, false, false, [];
      this.offset, this.maxFailures := offset, maxFailures;
    }

    function Settings(): Setup
      reads this
    {
      Setup(offset, maxFailures, internalHandlers, hasFireHandler)
    }

    /** What hydrating any file gives and every operation keeps. */
    ghost predicate Ready()
      reads this
    {
      !tickInProgress && DistinctIds(crons)
    }

    /** What every operation keeps once it holds: sound counts, and an index that matches. */
    ghost predicate Valid()
      reads this
    {
      maxFailures >= 1 && Ready() && AllSound(crons, maxFailures) && IndexMatches(index, crons)
    }

    /** A file that is not JSON is an error, and leaves no crons. */
    method Hydrate() returns (ok: bool)
      modifies this`crons
      ensures ok <==> index != Unreadable
      ensures crons == Loaded(index)
      ensures !tickInProgress ==> Ready()
      ensures !tickInProgress && maxFailures >= 1 ==>
                (Valid() <==> AllSound(Loaded(index), maxFailures) && IndexMatches(index, Loaded(index)))
    {
      hide Put;
      crons := [];
      if index == Unreadable {
        return false;
      }
      ok := true;
      if index.Entries? {
        var entries := index.entries;
        for i := 0 to |entries|
          invariant crons == Hydrated(entries[..i])
        {
          assert entries[..i + 1][..i] == entries[..i];
          if entries[i].Entry? {
            crons := Put(crons, entries[i].record.(durable := entries[i].durable != Some(false)));
          }
        }
        assert entries[..|entries|] == entries;
      }
    }

    method Persist()
      modifies this`index
      ensures index == Entries(Snapshot(crons))
    {
      var snapshot := [];
      for i := 0 to |crons|
        invariant snapshot == Snapshot(crons[..i])
      {
        assert crons[..i + 1][..i] == crons[..i];
        if IsPersisted(crons[i]) {
          snapshot := snapshot + [Entry(OnDisk(crons[i]), Some(true))];
        }
      }
      assert crons[..|crons|] == crons;
      index := Entries(snapshot);
    }

    method RegisterInternal(name: string, schedule: string) returns (r: Result<bool, CronError>)
      requires Ready()
      modifies this`crons, this`internalHandlers
      ensures Ready() && (old(Valid()) ==> Valid())
      ensures var id := "internal:" + name;
              if IndexOf(old(crons), id).Some? then r == Ok(false) && crons == old(crons) && internalHandlers == old(internalHandlers)
              else match NextFire(schedule, now, offset)
                case Err(e) => r == Err(e) && crons == old(crons) && internalHandlers == old(internalHandlers)
                case Ok(t) =>
                  && r == Ok(true) && internalHandlers == old(internalHandlers) + {id}
                  && crons == old(crons) + [CronRecord(id, "", "", schedule, "", "internal", None, true, now, t, None, Count(0), true, None, true)]
    {
      hide NextFire, DistinctIds, AllSound;
      var id := "internal:" + name;
      if IndexOf(crons, id).Some? {
        return Ok(false);
      }
      var t := GetNextFireAt(schedule, now, offset);
      if t.Err? {
        return Err(t.error);
      }
      var c := CronRecord(id, "", "", schedule, "", "internal", None, true, now, t.value, None, Count(0), true, None, true);
      SnapshotOfUnpersisted(crons, c);
      AppendingKeeps(crons, c, maxFailures);
      crons := crons + [c];
      internalHandlers := internalHandlers + {id};
      r := Ok(true);
    }

    /** `cronId` is a new ULID. */
    method Create(cronId: string, botId: string, userId: string, expression: string, prompt: string, deliveryChannel: string,
                  description: Option<string>, durable: bool, sessionKey: Option<string>)
      returns (r: Result<CronRecord, CronError>)
      requires Ready() && IndexOf(crons, cronId).None?
      modifies this`crons, this`index
      ensures Ready() && (old(Valid()) ==> Valid())
      ensures r.Ok? && durable ==> index == Entries(Snapshot(crons))
      ensures match NextFire(expression, now, offset)
              case Err(e) => r == Err(e) && crons == old(crons)
              case Ok(t) =>
                && r == Ok(CronRecord(cronId, botId, userId, expression, prompt, deliveryChannel, NotEmpty(description), true, now, t, None,
                                      Count(0), durable, if durable then None else NotEmpty(sessionKey), false))
                && crons == old(crons) + [r.value]
    {
      hide NextFire, DistinctIds, AllSound;
      var t := GetNextFireAt(expression, now, offset);
      if t.Err? {
        return Err(t.error);
      }
      var c := CronRecord(cronId, botId, userId, expression, prompt, deliveryChannel, NotEmpty(description), true, now, t.value, None,
                          Count(0), durable, if durable then None else NotEmpty(sessionKey), false);
      if !durable { SnapshotOfUnpersisted(crons, c); }
      AppendingKeeps(crons, c, maxFailures);
      crons := crons + [c];
      if durable {
        Persist();
      }
      r := Ok(c);
    }

    /** The assignments of `update`. */
    static method ApplyPatch(record: CronRecord, patch: Patch, next: int) returns (c: CronRecord)
      ensures c == Patched(record, patch, next)
    {
      c := record;
      if patch.expression.Some? {
        c := c.(expression := patch.expression.value, nextFireAt := next);
      }
      if patch.prompt.Some? {
        c := c.(prompt := patch.prompt.value);
      }
      if patch.enabled.Some? {
        c := c.(enabled := patch.enabled.value);
        if patch.enabled.value {
          c := c.(consecutiveFailures := Count(0));
        }
      }
      if patch.description.Some? {
        c := c.(description := patch.description);
      }
    }

    method Update(cronId: string, patch: Patch) returns (r: Result<CronRecord, UpdateError>)
      requires Ready()
      modifies this`crons, this`index
      ensures Ready() && (old(Valid()) ==> Valid())
      ensures r.Ok? ==> index == Entries(Snapshot(crons))
      ensures var k := IndexOf(old(crons), cronId);
              if k.None? then r == Err(NotFound) && crons == old(crons)
              else
                var next := if patch.expression.Some? then NextFire(patch.expression.value, now, offset) else Ok(0);
                match next
                case Err(e) => r == Err(BadExpression(e)) && crons == old(crons)
                case Ok(t) => r == Ok(Patched(old(crons)[k.value], patch, t)) && crons == old(crons)[k.value := r.value]
    {
      hide NextFire, Patched, DistinctIds, AllSound;
      var k := IndexOf(crons, cronId);
      if k.None? {
        return Err(NotFound);
      }
      var next := 0;
      if patch.expression.Some? {
        var t := GetNextFireAt(patch.expression.value, now, offset);
        if t.Err? {
          return Err(BadExpression(t.error));
        }
        next := t.value;
      }
      var c := ApplyPatch(crons[k.value], patch, next);
      PatchedIsSound(crons[k.value], patch, next, maxFailures);
      ReplacingKeeps(crons, k.value, c, maxFailures);
      crons := crons[k.value := c];
      Persist();
      r := Ok(c);
    }

    method Delete(cronId: string) returns (r: Result<bool, string>)
      requires Ready()
      modifies this`crons, this`index
      ensures Ready() && (old(Valid()) ==> Valid())
      ensures r == Ok(true) ==> index == Entries(Snapshot(crons))
      ensures var k := IndexOf(old(crons), cronId);
              if k.None? then r == Ok(false) && crons == old(crons)
              else if old(crons)[k.value].isInternal then r.Err? && crons == old(crons)
              else r == Ok(true) && crons == Remove(old(crons), k.value) && IndexOf(crons, cronId).None?
    {
      var k := IndexOf(crons, cronId);
      if k.None? {
        return Ok(false);
      }
      if crons[k.value].isInternal {
        return Err("internal crons cannot be deleted");
      }
      RemovingKeeps(crons, k.value, maxFailures);
      crons := Remove(crons, k.value);
      Persist();
      r := Ok(true);
    }
  
    /** One cron of a tick: its handler, its bookkeeping and its next time. */
    method FireOne(k: nat, fire: Fire)
      requires k < |crons|
      modifies this`crons, this`now, this`calls
      ensures crons == old(crons)[k := Fired(old(crons)[k], fire, old(now), Settings())]
      ensures now == old(now) + Outcome(old(crons)[k], fire, Settings()).takes + Outcome(old(crons)[k], fire, Settings()).lag
      ensures calls == old(calls) + (if HasHandler(old(crons)[k], Settings()) then [old(crons)[k].cronId] else [])
    {
      hide NextFire;
      var c := crons[k];
      var fails := false;
      if c.isInternal {
        if c.cronId in internalHandlers {
          calls, now, fails := calls + [c.cronId], now + fire.takes, fire.fails;
        }
      } else if hasFireHandler {
        calls, now, fails := calls + [c.cronId], now + fire.takes, fire.fails;
      }
      if !fails {
        c := c.(lastFiredAt := Some(now), consecutiveFailures := Count(0));
      } else {
        c := c.(consecutiveFailures := Increment(c.consecutiveFailures));
        if AtLeast(c.consecutiveFailures, maxFailures) {
          c := c.(enabled := false);
        }
      }
      now := now + fire.lag;
      var t := GetNextFireAt(c.expression, now, offset);
      c := if t.Ok? then c.(nextFireAt := t.value) else c.(enabled := false);
      crons := crons[k := c];
    }

    /** The second loop of `tick`, over the crons found due. */
    method FireDue(due: seq<bool>, fires: nat -> Fire, start: int) returns (any: bool)
      requires |due| == |crons| && now == start && forall k :: 0 <= k < |crons| ==> due[k] == IsDue(crons[k], start)
      modifies this`crons, this`now, this`calls
      ensures |crons| == |old(crons)|
      ensures now == TimeAfter(old(crons), fires, start, Settings(), |old(crons)|)
      ensures calls == old(calls) + Calls(old(crons), start, Settings())
      ensures forall k :: 0 <= k < |crons| ==> crons[k] == Ticked(old(crons), fires, start, Settings(), k)
      ensures !any ==> crons == old(crons)
    {
      hide Fired, IsDue, HasHandler, TimeAfter, Calls, Outcome;
      ghost var before, setup := crons, Settings();
      any := false;
      TickStart(before, fires, start, setup);
      for k := 0 to |crons|
        invariant |crons| == |before|
        invariant now == TimeAfter(before, fires, start, setup, k)
        invariant calls == old(calls) + Calls(before[..k], start, setup)
        invariant forall j :: 0 <= j < k ==> crons[j] == Ticked(before, fires, start, setup, j)
        invariant forall j :: k <= j < |crons| ==> crons[j] == before[j]
        invariant !any ==> crons == before
      {
        TickStep(before, fires, start, setup, k);
        if due[k] {
          any := true;
          FireOne(k, fires(k));
        }
      }
      assert before[..|before|] == before;
    }

    /** Dispatches the due crons in map order; a tick that finds another one running does nothing. */
    method Tick(fires: nat -> Fire)
      requires tickInProgress || Ready()
      modifies this`crons, this`index, this`now, this`tickInProgress, this`calls
      ensures old(tickInProgress) ==> crons == old(crons) && index == old(index) && now == old(now) && calls == old(calls) && tickInProgress
      ensures !old(tickInProgress) ==>
                && Ready() && (old(Valid()) ==> Valid()) && |crons| == |old(crons)|
                && now == TimeAfter(old(crons), fires, old(now), Settings(), |old(crons)|)
                && calls == old(calls) + Calls(old(crons), old(now), Settings())
                && forall k :: 0 <= k < |crons| ==>
                     crons[k] == Ticked(old(crons), fires, old(now), Settings(), k) && !IsDue(crons[k], old(now))
      ensures !old(tickInProgress) && crons != old(crons) ==> index == Entries(Snapshot(crons))
    {
      if tickInProgress {
        return;
      }
      tickInProgress := true;
      hide Ticked, IsDue, TimeAfter, Calls, DistinctIds, AllSound;
      var start := now;
      ghost var before, setup := crons, Settings();
      var due := [];
      for k := 0 to |crons|
        invariant |due| == k && forall j :: 0 <= j < k ==> due[j] == IsDue(crons[j], start)
      {
        due := due + [IsDue(crons[k], start)];
      }
      var any := FireDue(due, fires, start);
      TickKeeps(before, crons, fires, start, setup);
      if any {
        Persist();
      }
      tickInProgress := false;
    }
  }
}
