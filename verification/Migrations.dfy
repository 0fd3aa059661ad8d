/**
 The migration runner of src/migrations/applyMigrations.ts on a disk whose operations may fail or be cut off by a
 crash. The text of a file and the objects in it are related by a codec.
 */
module Migrations {
  import opened Outcomes
  import opened Names

  /**
   The `schemaVersion` field as it comes out of JSON. A number is its integer part, rounded down, and the text of the
   rest; JSON has no infinity and no NaN.
   */
  datatype Version = NoVersion | NotANumber(json: string) | Number(floor: int, fraction: string)

  datatype Obj = Obj(schemaVersion: Version, body: string)

  /** `version` is the version the step leads to. */
  datatype Migration = Migration(version: int, description: string, migrate: Obj -> Result<Obj, string>)

  datatype Error = Gap(at: int, next: int) | MigrationThrew(message: string)

  function CurrentVersion(x: Obj): (v: nat) {
    match x.schemaVersion
    case Number(floor, _) => if floor >= 0 then floor else 0
    case _ => 0
  }

  /** The step's output with its version enforced. */
  function Migrated(m: Migration, x: Obj): Result<Obj, string> {
    match m.migrate(x)
    case Err(e) => Err(e)
    case Ok(next) => Ok(next.(schemaVersion := Number(m.version, "")))
  }

  // ---- The chain, defined without sorting

  /** The lowest version above `from`; among equal ones the first registered. */
  function NextAbove(ms: seq<Migration>, from: int): (m: Option<Migration>)
    ensures m.Some? ==> m.value in ms && m.value.version > from
    ensures m.Some? ==> forall k :: 0 <= k < |ms| && ms[k].version > from ==> m.value.version <= ms[k].version
    ensures m.None? ==> forall k :: 0 <= k < |ms| ==> ms[k].version <= from
  {
    if ms == [] then None
    else
      var later := NextAbove(ms[1..], from);
      if ms[0].version > from && (later.None? || ms[0].version <= later.value.version) then Some(ms[0]) else later
  }

  function MaxVersion(ms: seq<Migration>): (v: int)
    ensures forall k :: 0 <= k < |ms| ==> ms[k].version <= v
  {
    if ms == [] then 0
    else
      var rest := MaxVersion(ms[1..]);
      if ms[0].version > rest then ms[0].version else rest
  }

  datatype Move = AtEnd | Stuck(error: Error) | MovesTo(next: Obj)

  /** The one step the registered migrations allow from `x`. */
  function Move1(x: Obj, ms: seq<Migration>): (r: Move)
    ensures r.MovesTo? ==> CurrentVersion(r.next) == CurrentVersion(x) + 1 <= MaxVersion(ms)
  {
    match NextAbove(ms, CurrentVersion(x))
    case None => AtEnd
    case Some(m) =>
      if m.version != CurrentVersion(x) + 1 then Stuck(Gap(CurrentVersion(x), m.version))
      else
        match Migrated(m, x)
        case Err(e) => Stuck(MigrationThrew(e))
        case Ok(next) => MovesTo(next)
  }

  function StepsLeft(x: Obj, ms: seq<Migration>): nat {
    if MaxVersion(ms) > CurrentVersion(x) then MaxVersion(ms) - CurrentVersion(x) else 0
  }

  /** What an uninterrupted upgrade of `x` comes to. */
  function Upgrade(x: Obj, ms: seq<Migration>): Result<Obj, Error>
    decreases StepsLeft(x, ms)
  {
    match Move1(x, ms)
    case AtEnd => Ok(x)
    case Stuck(e) => Err(e)
    case MovesTo(next) => Upgrade(next, ms)
  }

  /** The objects it passes, the first one included. */
  function Stages(x: Obj, ms: seq<Migration>): (stages: seq<Obj>)
    ensures stages != [] && stages[0] == x
    decreases StepsLeft(x, ms)
  {
    [x] + (if Move1(x, ms).MovesTo? then Stages(Move1(x, ms).next, ms) else [])
  }

  /** Starting again from any object on the way comes to the same end. */
  lemma {:induction false} UpgradeResumes(x: Obj, ms: seq<Migration>, k: nat)
    requires k < |Stages(x, ms)|
    ensures Upgrade(Stages(x, ms)[k], ms) == Upgrade(x, ms)
    ensures Stages(Stages(x, ms)[k], ms) == Stages(x, ms)[k..]
    ensures CurrentVersion(Stages(x, ms)[k]) == CurrentVersion(x) + k
    decreases k
  {
    hide Move1;
    if k > 0 {
      var next := Move1(x, ms).next;
      UpgradeResumes(next, ms, k - 1);
      assert Stages(x, ms) == [x] + Stages(next, ms);
    }
  }

  /** A finished upgrade is at the highest registered version, or at the input's own when nothing applies. */
  lemma {:induction false} UpgradeReachesTheTop(x: Obj, ms: seq<Migration>)
    requires Upgrade(x, ms).Ok?
    ensures var v := CurrentVersion(Upgrade(x, ms).value);
            v == if MaxVersion(ms) > CurrentVersion(x) then MaxVersion(ms) else CurrentVersion(x)
    ensures Stages(x, ms)[|Stages(x, ms)| - 1] == Upgrade(x, ms).value
    decreases StepsLeft(x, ms)
  {
    match Move1(x, ms) {
      case MovesTo(next) =>
        hide Move1;
        UpgradeReachesTheTop(next, ms);
      case _ =>
        MaxIsRegistered(ms);
    }
  }

  lemma {:induction false} MaxIsRegistered(ms: seq<Migration>)
    ensures MaxVersion(ms) > 0 ==> exists k :: 0 <= k < |ms| && ms[k].version == MaxVersion(ms)
    ensures MaxVersion(ms) >= 0
  {
    if ms != [] {
      MaxIsRegistered(ms[1..]);
      if ms[0].version <= MaxVersion(ms[1..]) && MaxVersion(ms) > 0 {
        var k :| 0 <= k < |ms[1..]| && ms[1..][k].version == MaxVersion(ms[1..]);
        assert ms[k + 1].version == MaxVersion(ms);
      }
    }
  }

  // ---- The stable sort

  /** Puts `m`, registered before those in `sorted`, where it belongs. */
  function Insert(m: Migration, sorted: seq<Migration>): (r: seq<Migration>) {
    if sorted == [] || m.version <= sorted[0].version then [m] + sorted
    else [sorted[0]] + Insert(m, sorted[1..])
  }

  function SortByVersion(ms: seq<Migration>): (r: seq<Migration>) {
    if ms == [] then [] else Insert(ms[0], SortByVersion(ms[1..]))
  }

  ghost predicate Ascending(ms: seq<Migration>) {
    forall i, j :: 0 <= i < j < |ms| ==> ms[i].version <= ms[j].version
  }

  lemma AscendingPrepend(m: Migration, sorted: seq<Migration>)
    requires Ascending(sorted) && forall k :: 0 <= k < |sorted| ==> m.version <= sorted[k].version
    ensures Ascending([m] + sorted)
  {
  }

  lemma {:induction false} InsertPermutes(m: Migration, sorted: seq<Migration>)
    ensures multiset(Insert(m, sorted)) == multiset(sorted) + multiset{m}
  {
    if sorted != [] && m.version > sorted[0].version {
      InsertPermutes(m, sorted[1..]);
      assert sorted == [sorted[0]] + sorted[1..];
    }
  }

  lemma {:induction false} InsertKeepsBound(m: Migration, sorted: seq<Migration>, low: int)
    requires low <= m.version && forall k :: 0 <= k < |sorted| ==> low <= sorted[k].version
    ensures forall k :: 0 <= k < |Insert(m, sorted)| ==> low <= Insert(m, sorted)[k].version
  {
    if sorted != [] && m.version > sorted[0].version {
      InsertKeepsBound(m, sorted[1..], low);
    }
  }

  lemma {:induction false} InsertKeepsAscending(m: Migration, sorted: seq<Migration>)
    requires Ascending(sorted)
    ensures Ascending(Insert(m, sorted))
  {
    if sorted == [] || m.version <= sorted[0].version {
      AscendingPrepend(m, sorted);
    } else {
      InsertKeepsAscending(m, sorted[1..]);
      InsertKeepsBound(m, sorted[1..], sorted[0].version);
      AscendingPrepend(sorted[0], Insert(m, sorted[1..]));
    }
  }

  lemma {:induction false} NextAboveOfInsert(m: Migration, sorted: seq<Migration>, from: int)
    ensures NextAbove(Insert(m, sorted), from) == NextAbove([m] + sorted, from)
  {
    hide Ascending;
    assert ([m] + sorted)[1..] == sorted;
    if sorted != [] && m.version > sorted[0].version {
      var rest := sorted[1..];
      NextAboveOfInsert(m, rest, from);
      assert ([m] + rest)[1..] == rest;
      assert ([sorted[0]] + Insert(m, rest))[1..] == Insert(m, rest);
    }
  }

  /** Sorting orders the migrations, loses none, and keeps which one is next. */
  lemma {:induction false} SortIsStable(ms: seq<Migration>, from: int)
    ensures Ascending(SortByVersion(ms)) && multiset(SortByVersion(ms)) == multiset(ms)
    ensures NextAbove(SortByVersion(ms), from) == NextAbove(ms, from)
  {
    hide Ascending;
    if ms != [] {
      var sorted := SortByVersion(ms[1..]);
      SortIsStable(ms[1..], from);
      InsertKeepsAscending(ms[0], sorted);
      InsertPermutes(ms[0], sorted);
      NextAboveOfInsert(ms[0], sorted, from);
      assert ms == [ms[0]] + ms[1..];
      assert ([ms[0]] + sorted)[1..] == sorted;
    } else {
      NothingToSort();
    }
  }

  lemma NothingToSort()
    ensures Ascending([])
  {
  }

  /** In sorted order the next migration is the first above the version. */
  lemma {:induction false} FirstAboveIsNext(sorted: seq<Migration>, from: int, i: nat)
    requires Ascending(sorted) && i <= |sorted|
    requires forall j :: 0 <= j < i ==> sorted[j].version <= from
    requires i < |sorted| ==> sorted[i].version > from
    ensures NextAbove(sorted, from) == if i < |sorted| then Some(sorted[i]) else None
  {
    if i > 0 {
      FirstAboveIsNext(sorted[1..], from, i - 1);
    }
  }

  // ---- The disk

  /** `load` is the loader's view of a file; `normalize` is JSON.parse followed by JSON.stringify. */
  datatype Codec = Codec(render: Obj -> string, load: string -> Option<Obj>, normalize: string -> Option<string>)

  /** An object that some file holds. */
  ghost predicate IsJson(codec: Codec, x: Obj) {
    exists text :: codec.load(text) == Some(x)
  }

  ghost predicate Lawful(codec: Codec) {
    && (forall x :: IsJson(codec, x) ==> codec.load(codec.render(x)) == Some(x))
    && (forall text :: codec.load(text).Some? ==>
          codec.normalize(text).Some? && codec.load(codec.normalize(text).value) == codec.load(text))
  }

  /** The step makes objects that JSON keeps of objects that JSON keeps. */
  ghost predicate KeepsJson(codec: Codec, m: Migration) {
    forall x :: IsJson(codec, x) && Migrated(m, x).Ok? ==> IsJson(codec, Migrated(m, x).value)
  }

  ghost predicate AllKeepJson(codec: Codec, ms: seq<Migration>) {
    forall m :: m in ms ==> KeepsJson(codec, m)
  }

  /**
   What befalls one disk operation. A backup write that does not finish leaves the first `kept` characters, or the old
   backup if it was never opened; an atomic write cut off by a crash has been renamed into place or has not.
   */
  datatype Fault = NoFault | Fails(kept: Option<nat>) | Dies(kept: Option<nat>)

  datatype Effect = Finished | Threw | Died

  function EffectOf(f: Fault): Effect {
    match f
    case NoFault => Finished
    case Fails(_) => Threw
    case Dies(_) => Died
  }

  class Disk {
    /** None when there is no file. */
    var target: Option<string>
    /** The `.pre-vN` files, by N. */
    var backups: map<int, string>
    /** What is still to go wrong; after that every operation works. */
    var faults: seq<Fault>

    method TakeFault() returns (f: Fault)
      modifies this`faults
      ensures |faults| <= |old(faults)| && (f != NoFault ==> |faults| < |old(faults)|)
    {
      if faults == [] {
        f := NoFault;
      } else {
        f, faults := faults[0], faults[1..];
      }
    }

    method ReadTarget() returns (e: Effect, bytes: Option<string>)
      modifies this`faults
      ensures |faults| <= |old(faults)| && (e != Finished ==> |faults| < |old(faults)|)
      ensures e == Finished ==> bytes == target
    {
      var f := TakeFault();
      e, bytes := EffectOf(f), target;
    }

    method WriteBackup(version: int, bytes: string) returns (e: Effect)
      modifies this`faults, this`backups
      ensures |faults| <= |old(faults)| && (e != Finished ==> |faults| < |old(faults)|)
      ensures backups == old(backups) || exists n :: 0 <= n <= |bytes| && backups == old(backups)[version := bytes[..n]]
      ensures e == Finished ==> backups == old(backups)[version := bytes]
    {
      var f := TakeFault();
      e := EffectOf(f);
      assert bytes[..|bytes|] == bytes;
      if f == NoFault {
        backups := backups[version := bytes];
      } else if f.kept.Some? {
        var n := if f.kept.value <= |bytes| then f.kept.value else |bytes|;
        backups := backups[version := bytes[..n]];
      }
    }

    /** `atomicWriteJson`: a temporary sibling, then a rename. */
    method AtomicWrite(bytes: string) returns (e: Effect)
      modifies this`faults, this`target
      ensures |faults| <= |old(faults)| && (e != Finished ==> |faults| < |old(faults)|)
      ensures target == old(target) || target == Some(bytes)
      ensures e == Finished ==> target == Some(bytes)
      ensures e == Threw ==> target == old(target)
    {
      var f := TakeFault();
      e := EffectOf(f);
      if f == NoFault || (f.Dies? && f.kept.Some?) {
        target := Some(bytes);
      }
    }
  }

  predicate Loads(codec: Codec, text: Option<string>, x: Obj) {
    text.Some? && codec.load(text.value) == Some(x)
  }

  /** The file is missing or holds the object. */
  predicate Fits(codec: Codec, text: Option<string>, x: Obj) {
    text.None? || Loads(codec, text, x)
  }

  datatype RunError = Chain(error: Error) | Io

  datatype End = Returned(x: Obj) | Rejected(error: RunError) | Crashed

  /** The `catch` blocks: put the original back; a failure to do so is only logged. */
  method Restore(disk: Disk, codec: Codec, original: Option<string>, ghost x: Obj) returns (died: bool)
    requires Lawful(codec) && Fits(codec, disk.target, x) && (original.Some? ==> Loads(codec, original, x))
    modifies disk`faults, disk`target
    ensures |disk.faults| <= |old(disk.faults)| && (died ==> |disk.faults| < |old(disk.faults)|)
    ensures Fits(codec, disk.target, x) && (old(disk.target).Some? ==> disk.target.Some?)
  {
    died := false;
    if original.Some? {
      var bytes := codec.normalize(original.value);
      if bytes.Some? {
        var e := disk.AtomicWrite(bytes.value);
        died := e == Died;
      }
    }
  }

  /** Only the backup of this version may change. */
  ghost predicate OnlyBackup(before: map<int, string>, after: map<int, string>, version: int) {
    forall v :: v != version ==> (v in after <==> v in before) && (v in before ==> after[v] == before[v])
  }

  /** The old file's text is the backup of this version. */
  ghost predicate BackedUp(before: Option<string>, backups: map<int, string>, version: int) {
    before.Some? ==> version in backups && backups[version] == before.value
  }

  /** Reads the target and copies it aside; a missing file needs no backup. */
  method BackUp(disk: Disk, version: int) returns (e: Effect, original: Option<string>)
    modifies disk`faults, disk`backups
    ensures |disk.faults| <= |old(disk.faults)| && (e != Finished ==> |disk.faults| < |old(disk.faults)|)
    ensures OnlyBackup(old(disk.backups), disk.backups, version)
    ensures e == Finished ==> original == disk.target && BackedUp(disk.target, disk.backups, version)
  {
    e, original := disk.ReadTarget();
    if e == Finished && original.Some? {
      e := disk.WriteBackup(version, original.value);
    }
  }

  /** The step's object is read back from what is written of it. */
  lemma StepSurvives(codec: Codec, m: Migration, x: Obj)
    requires Lawful(codec) && KeepsJson(codec, m) && IsJson(codec, x) && Migrated(m, x).Ok?
    ensures codec.load(codec.render(Migrated(m, x).value)) == Some(Migrated(m, x).value)
  {
  }

  /** One pass of the loop body after its version checks. */
  method ApplyStep(disk: Disk, codec: Codec, current: Obj, m: Migration) returns (end: End)
    requires Lawful(codec) && KeepsJson(codec, m) && IsJson(codec, current) && Fits(codec, disk.target, current)
    modifies disk
    ensures |disk.faults| <= |old(disk.faults)| && (end == Crashed || end == Rejected(Io) ==> |disk.faults| < |old(disk.faults)|)
    ensures old(disk.target).Some? ==> disk.target.Some?
    ensures OnlyBackup(old(disk.backups), disk.backups, m.version)
    ensures end.Returned? ==>
              && Migrated(m, current) == Ok(end.x) && Loads(codec, disk.target, end.x)
              && BackedUp(old(disk.target), disk.backups, m.version)
    ensures end.Rejected? ==> Fits(codec, disk.target, current)
    ensures end.Rejected? && end.error != Io ==>
              Migrated(m, current).Err? && end.error == Chain(MigrationThrew(Migrated(m, current).error))
    ensures end.Crashed? ==>
              || Fits(codec, disk.target, current)
              || (Migrated(m, current).Ok? && Loads(codec, disk.target, Migrated(m, current).value)
                  && BackedUp(old(disk.target), disk.backups, m.version))
  {
    hide Lawful, KeepsJson, IsJson;
    if Migrated(m, current).Ok? { StepSurvives(codec, m, current); }
    var e, original := BackUp(disk, m.version);
    if e != Finished {
      return if e == Died then Crashed else Rejected(Io);
    }
    var f := disk.TakeFault();
    if f.Dies? {
      return Crashed;
    }
    var next := m.migrate(current);
    if next.Err? {
      var died := Restore(disk, codec, original, current);
      return if died then Crashed else Rejected(Chain(MigrationThrew(next.error)));
    }
    var stamped := next.value.(schemaVersion := Number(m.version, ""));
    e := disk.AtomicWrite(codec.render(stamped));
    if e == Threw {
      var died := Restore(disk, codec, original, current);
      return if died then Crashed else Rejected(Io);
    }
    return if e == Died then Crashed else Returned(stamped);
  }

  // ---- A run

  /** Up to stage `k` every step has left the object it started from in its backup. */
  ghost predicate BackupsHold(codec: Codec, backups: map<int, string>, stages: seq<Obj>, from: int, k: nat) {
    k < |stages| && forall j :: 0 <= j < k ==> BackupHolds(codec, backups, from + j + 1, stages[j])
  }

  predicate BackupHolds(codec: Codec, backups: map<int, string>, version: int, at: Obj) {
    version in backups && codec.load(backups[version]) == Some(at)
  }

  /** The disk is at stage `k` of the upgrade of `x`, which is `at`. */
  ghost predicate AtStage(codec: Codec, target: Option<string>, backups: map<int, string>, x: Obj, ms: seq<Migration>, k: nat, at: Obj) {
    && k < |Stages(x, ms)| && Stages(x, ms)[k] == at && Loads(codec, target, at)
    && BackupsHold(codec, backups, Stages(x, ms), CurrentVersion(x), k)
  }

  lemma StageMoves(x: Obj, ms: seq<Migration>, k: nat, m: Migration)
    requires k < |Stages(x, ms)|
    requires NextAbove(ms, CurrentVersion(Stages(x, ms)[k])) == Some(m) && m.version == CurrentVersion(Stages(x, ms)[k]) + 1
    ensures m.version == CurrentVersion(x) + k + 1
    ensures var at := Stages(x, ms)[k];
            if Migrated(m, at).Ok? then k + 1 < |Stages(x, ms)| && Stages(x, ms)[k + 1] == Migrated(m, at).value
            else Upgrade(x, ms) == Err(MigrationThrew(Migrated(m, at).error)) && k == |Stages(x, ms)| - 1
  {
    hide NextAbove, Migrated, CurrentVersion;
    UpgradeResumes(x, ms, k);
    var at := Stages(x, ms)[k];
    assert Move1(at, ms) == if Migrated(m, at).Ok? then MovesTo(Migrated(m, at).value) else Stuck(MigrationThrew(Migrated(m, at).error));
    if Migrated(m, at).Ok? {
      assert Stages(at, ms)[1] == Stages(Migrated(m, at).value, ms)[0];
      assert Stages(x, ms)[k..][1] == Stages(x, ms)[k + 1];
    } else {
      assert |Stages(at, ms)| == 1;
    }
  }

  lemma BackupAdded(codec: Codec, before: map<int, string>, after: map<int, string>, text: string, stages: seq<Obj>, from: int, k: nat)
    requires BackupsHold(codec, before, stages, from, k) && k + 1 < |stages|
    requires OnlyBackup(before, after, from + k + 1)
    requires from + k + 1 in after && after[from + k + 1] == text && codec.load(text) == Some(stages[k])
    ensures BackupsHold(codec, after, stages, from, k + 1)
  {
    BackupsKept(codec, before, after, stages, from, k);
    assert BackupHolds(codec, after, from + k + 1, stages[k]);
    hide OnlyBackup, BackupHolds;
  }

  lemma BackupsKept(codec: Codec, before: map<int, string>, after: map<int, string>, stages: seq<Obj>, from: int, k: nat)
    requires BackupsHold(codec, before, stages, from, k) && OnlyBackup(before, after, from + k + 1)
    ensures BackupsHold(codec, after, stages, from, k)
  {
  }

  /** An end that no fault caused is the end of an uninterrupted upgrade, at its last stage. */
  ghost predicate RightEnd(x: Obj, ms: seq<Migration>, end: End, reached: nat) {
    match end
    case Returned(out) => Upgrade(x, ms) == Ok(out) && reached == |Stages(x, ms)| - 1
    case Rejected(Chain(error)) => Upgrade(x, ms) == Err(error) && reached == |Stages(x, ms)| - 1
    case _ => true
  }

  /**
   One step on the disk takes it from one stage of the upgrade to the next, or leaves it where it is. A call that
   does not return normally may have done either.
   */
  method TakeStep(disk: Disk, codec: Codec, current: Obj, m: Migration, ghost ms: seq<Migration>, ghost x: Obj, ghost k: nat)
    returns (end: End, ghost reached: nat, ghost at: Obj)
    requires Lawful(codec) && AllKeepJson(codec, ms) && AtStage(codec, disk.target, disk.backups, x, ms, k, current)
    requires NextAbove(ms, CurrentVersion(current)) == Some(m) && m.version == CurrentVersion(current) + 1
    modifies disk
    ensures k <= reached <= k + 1 && AtStage(codec, disk.target, disk.backups, x, ms, reached, at)
    ensures end.Returned? ==> reached == k + 1 && end.x == at && CurrentVersion(at) == m.version
    ensures !end.Returned? ==> RightEnd(x, ms, end, reached)
    ensures |disk.faults| <= |old(disk.faults)| && (end == Crashed || end == Rejected(Io) ==> |disk.faults| < |old(disk.faults)|)
  {
    hide Upgrade, NextAbove, CurrentVersion, AtStage, OnlyBackup, BackedUp, Loads, Migrated, Lawful, KeepsJson, IsJson;
    ghost var target, before := disk.target, disk.backups;
    StageFits(codec, target, before, x, ms, k, current);
    StageMovesTo(x, ms, k, current, m) by { StageIs(codec, target, before, x, ms, k, current); }
    end := ApplyStep(disk, codec, current, m);
    reached, at := k, current;
    if Migrated(m, current).Ok? && Loads(codec, disk.target, Migrated(m, current).value) && BackedUp(target, disk.backups, m.version) {
      reached, at := k + 1, Migrated(m, current).value;
      StageAdded(codec, target, before, disk.target, disk.backups, x, ms, k, current, m);
      StampIsVersion(m, current);
    } else {
      StageKept(codec, target, before, disk.target, disk.backups, x, ms, k, current, m);
    }
  }


  lemma StageFits(codec: Codec, target: Option<string>, backups: map<int, string>, x: Obj, ms: seq<Migration>, k: nat, at: Obj)
    requires AtStage(codec, target, backups, x, ms, k, at)
    ensures Fits(codec, target, at) && target.Some? && IsJson(codec, at)
  {
    hide Stages, BackupsHold;
    assert codec.load(target.value) == Some(at);
  }

  lemma StageIs(codec: Codec, target: Option<string>, backups: map<int, string>, x: Obj, ms: seq<Migration>, k: nat, at: Obj)
    requires AtStage(codec, target, backups, x, ms, k, at)
    ensures k < |Stages(x, ms)| && Stages(x, ms)[k] == at
  {
    hide Stages, BackupsHold;
  }

  lemma StageMovesTo(x: Obj, ms: seq<Migration>, k: nat, at: Obj, m: Migration)
    requires k < |Stages(x, ms)| && Stages(x, ms)[k] == at
    requires NextAbove(ms, CurrentVersion(at)) == Some(m) && m.version == CurrentVersion(at) + 1
    ensures m.version == CurrentVersion(x) + k + 1
    ensures Migrated(m, at).Ok? ==> k + 1 < |Stages(x, ms)| && Stages(x, ms)[k + 1] == Migrated(m, at).value
    ensures Migrated(m, at).Err? ==> RightEnd(x, ms, Rejected(Chain(MigrationThrew(Migrated(m, at).error))), k)
  {
    hide Stages, Upgrade, NextAbove, CurrentVersion, Migrated;
    StageMoves(x, ms, k, m);
  }

  lemma StampIsVersion(m: Migration, x: Obj)
    requires Migrated(m, x).Ok? && m.version >= 0
    ensures CurrentVersion(Migrated(m, x).value) == m.version
  {
  }

  lemma StageAdded(codec: Codec, target: Option<string>, before: map<int, string>, target': Option<string>, after: map<int, string>,
                   x: Obj, ms: seq<Migration>, k: nat, at: Obj, m: Migration)
    requires AtStage(codec, target, before, x, ms, k, at) && OnlyBackup(before, after, m.version)
    requires NextAbove(ms, CurrentVersion(at)) == Some(m) && m.version == CurrentVersion(at) + 1
    requires Migrated(m, at).Ok? && Loads(codec, target', Migrated(m, at).value) && BackedUp(target, after, m.version)
    ensures AtStage(codec, target', after, x, ms, k + 1, Migrated(m, at).value)
  {
    hide Stages, Upgrade, NextAbove, CurrentVersion, Migrated, OnlyBackup, BackupsHold;
    StageMovesTo(x, ms, k, at, m);
    BackupAdded(codec, before, after, target.value, Stages(x, ms), CurrentVersion(x), k);
  }

  lemma StageKept(codec: Codec, target: Option<string>, before: map<int, string>, target': Option<string>, after: map<int, string>,
                  x: Obj, ms: seq<Migration>, k: nat, at: Obj, m: Migration)
    requires AtStage(codec, target, before, x, ms, k, at) && OnlyBackup(before, after, m.version)
    requires NextAbove(ms, CurrentVersion(at)) == Some(m) && m.version == CurrentVersion(at) + 1
    requires Fits(codec, target', at) && target'.Some?
    ensures AtStage(codec, target', after, x, ms, k, at)
  {
    hide Stages, Upgrade, NextAbove, CurrentVersion, Migrated, OnlyBackup, BackupsHold;
    StageMovesTo(x, ms, k, at, m);
    BackupsKept(codec, before, after, Stages(x, ms), CurrentVersion(x), k);
  }

  /**
   Runs the migrations on the file that `input` was loaded from. `x` is the object an earlier run began with and `k`
   the stage of its upgrade the file is at; in a first run `x == input` and `k == 0`.
   */
  method ApplyMigrations(disk: Disk, codec: Codec, input: Obj, ms: seq<Migration>, ghost x: Obj, ghost k: nat)
    returns (end: End, ghost reached: nat, ghost at: Obj)
    requires Lawful(codec) && AllKeepJson(codec, ms) && AtStage(codec, disk.target, disk.backups, x, ms, k, input)
    modifies disk
    ensures k <= reached && AtStage(codec, disk.target, disk.backups, x, ms, reached, at)
    ensures (end.Returned? ==> end.x == at) && RightEnd(x, ms, end, reached)
    ensures |disk.faults| <= |old(disk.faults)| && (end == Crashed || end == Rejected(Io) ==> |disk.faults| < |old(disk.faults)|)
  {
    hide Stages, Upgrade, NextAbove, CurrentVersion, AtStage, SortByVersion, RightEnd;
    var current := input;
    reached, at := k, input;
    var sorted := SortByVersion(ms);
    for i := 0 to |sorted|
      invariant AtStage(codec, disk.target, disk.backups, x, ms, reached, current) && at == current && k <= reached
      invariant |disk.faults| <= |old(disk.faults)|
      invariant forall j :: 0 <= j < i ==> sorted[j].version <= CurrentVersion(current)
    {
      var step := sorted[i];
      var from := CurrentVersion(current);
      if step.version <= from {
        continue;
      }
      NextIs(ms, current, i);
      if step.version != from + 1 {
        GapStops(codec, disk.target, disk.backups, x, ms, reached, current, step);
        return Rejected(Chain(Gap(from, step.version))), reached, at;
      }
      end, reached, at := TakeStep(disk, codec, current, step, ms, x, reached);
      if !end.Returned? {
        return;
      }
      current := end.x;
    }
    NextIs(ms, current, |sorted|);
    end := Returned(current);
    LastStage(codec, disk.target, disk.backups, x, ms, reached, current);
  }

  lemma NextIs(ms: seq<Migration>, current: Obj, i: nat)
    requires i <= |SortByVersion(ms)|
    requires forall j :: 0 <= j < i ==> SortByVersion(ms)[j].version <= CurrentVersion(current)
    requires i < |SortByVersion(ms)| ==> SortByVersion(ms)[i].version > CurrentVersion(current)
    ensures NextAbove(ms, CurrentVersion(current)) == if i < |SortByVersion(ms)| then Some(SortByVersion(ms)[i]) else None
  {
    hide NextAbove, SortByVersion, CurrentVersion;
    SortIsStable(ms, CurrentVersion(current));
    FirstAboveIsNext(SortByVersion(ms), CurrentVersion(current), i);
  }

  lemma GapStops(codec: Codec, target: Option<string>, backups: map<int, string>, x: Obj, ms: seq<Migration>, k: nat, at: Obj, m: Migration)
    requires AtStage(codec, target, backups, x, ms, k, at)
    requires NextAbove(ms, CurrentVersion(at)) == Some(m) && m.version != CurrentVersion(at) + 1
    ensures RightEnd(x, ms, Rejected(Chain(Gap(CurrentVersion(at), m.version))), k)
  {
    hide NextAbove, Migrated, CurrentVersion;
    UpgradeResumes(x, ms, k);
    assert |Stages(at, ms)| == 1;
  }

  lemma LastStage(codec: Codec, target: Option<string>, backups: map<int, string>, x: Obj, ms: seq<Migration>, k: nat, at: Obj)
    requires AtStage(codec, target, backups, x, ms, k, at) && NextAbove(ms, CurrentVersion(at)) == None
    ensures RightEnd(x, ms, Returned(at), k)
  {
    hide NextAbove, Migrated, CurrentVersion;
    UpgradeResumes(x, ms, k);
    assert |Stages(at, ms)| == 1;
  }

  /** Loading the file again and again, however often a run crashes or an operation fails, until a run comes to its own end. */
  method LoadUntilSettled(disk: Disk, codec: Codec, ms: seq<Migration>, ghost x: Obj)
    returns (end: End, ghost reached: nat, ghost at: Obj)
    requires Lawful(codec) && AllKeepJson(codec, ms) && AtStage(codec, disk.target, disk.backups, x, ms, 0, x)
    modifies disk
    ensures end != Crashed && end != Rejected(Io) && RightEnd(x, ms, end, reached)
    ensures AtStage(codec, disk.target, disk.backups, x, ms, reached, at) && (end.Returned? ==> end.x == at)
  {
    hide Stages, Upgrade, BackupsHold, RightEnd, Lawful;
    end, reached, at := Crashed, 0, x;
    while end == Crashed || end == Rejected(Io)
      invariant AtStage(codec, disk.target, disk.backups, x, ms, reached, at)
      invariant end == Crashed || (RightEnd(x, ms, end, reached) && (end.Returned? ==> end.x == at))
      decreases if end == Crashed || end == Rejected(Io) then |disk.faults| + 1 else 0
    {
      var e, text := disk.ReadTarget();
      if e == Finished {
        var loaded := codec.load(text.value);
        end, reached, at := ApplyMigrations(disk, codec, loaded.value, ms, x, reached);
      } else {
        end := Crashed;
      }
    }
  }

  // ---- The law of the codec

  /** A name of an object, and its inverse. */
  function ObjName(x: Obj): string {
    (match x.schemaVersion
     case NoVersion => "n"
     case NotANumber(json) => "s" + StringName(json)
     case Number(floor, fraction) => "d" + (IntName(floor) + StringName(fraction)))
    + StringName(x.body)
  }

  ghost function ObjNamed(text: string): Option<Obj> {
    if exists x :: ObjName(x) == text then
      var x :| ObjName(x) == text;
      Some(x)
    else None
  }

  function VersionLetter(v: Version): char {
    match v
    case NoVersion => 'n'
    case NotANumber(_) => 's'
    case Number(_, _) => 'd'
  }

  function AfterLetter(x: Obj): string {
    match x.schemaVersion
    case NoVersion => StringName(x.body)
    case NotANumber(json) => StringName(json) + (StringName(x.body) + "")
    case Number(floor, fraction) => IntName(floor) + (StringName(fraction) + (StringName(x.body) + ""))
  }

  lemma NameSplits(x: Obj)
    ensures ObjName(x) == [VersionLetter(x.schemaVersion)] + AfterLetter(x)
  {
    hide StringName, IntName;
  }

  lemma NamesTellObjects(x: Obj, y: Obj)
    requires ObjName(x) == ObjName(y)
    ensures x == y
  {
    hide StringName, IntName;
    NameSplits(x);
    NameSplits(y);
    SameHead(VersionLetter(x.schemaVersion), VersionLetter(y.schemaVersion), AfterLetter(x), AfterLetter(y));
    var a, b := StringName(x.body) + "", StringName(y.body) + "";
    match x.schemaVersion {
      case NoVersion =>
      case NotANumber(json) => StringIsDelimited(json, y.schemaVersion.json, a, b);
      case Number(floor, fraction) =>
        IntIsDelimited(floor, y.schemaVersion.floor, StringName(fraction) + a, StringName(y.schemaVersion.fraction) + b);
        StringIsDelimited(fraction, y.schemaVersion.fraction, a, b);
    }
    assert a == StringName(x.body) && b == StringName(y.body);
    StringIsDelimited(x.body, y.body, "", "");
  }

  /** The law is met, by a codec for which every object is one that a file can hold. */
  lemma LawfulCodecExists() returns (codec: Codec)
    ensures Lawful(codec) && forall x :: IsJson(codec, x)
  {
    hide ObjName;
    codec := Codec(ObjName, ObjNamed, text => Some(text));
    forall x ensures codec.load(codec.render(x)) == Some(x) && IsJson(codec, x) {
      NamesTellObjects(ObjNamed(ObjName(x)).value, x);
      assert codec.load(ObjName(x)) == Some(x);
    }
  }

  function RenderVersion(x: Obj): string { if x.schemaVersion.Number? then "1" else "0" }

  function LoadVersion(text: string): Option<Obj> {
    if text == "1" then Some(Obj(Number(1, ""), "")) else if text == "0" then Some(Obj(NoVersion, "")) else None
  }

  /** Keeps the version and drops a field that JSON cannot hold. */
  const FORGETFUL: Codec := Codec(RenderVersion, LoadVersion, text => Some(text))

  function SetField(x: Obj): Result<Obj, string> { Ok(x.(body := "a function")) }

  function ReadField(x: Obj): Result<Obj, string> { if x.body == "" then Err("missing") else Ok(x.(body := "")) }

  const SETS: Migration := Migration(1, "sets the field", SetField)

  const READS: Migration := Migration(2, "reads the field", ReadField)

  lemma TwoSteps(from: int)
    ensures NextAbove([SETS, READS], from) == if from < 1 then Some(SETS) else if from < 2 then Some(READS) else None
  {
    assert [SETS, READS][1..] == [READS] && [READS][1..] == [];
  }

  /** Without `KeepsJson` recovery fails: a run started again from the file of the first step does not end as an uninterrupted one. */
  lemma LostFieldChangesTheEnd()
    ensures var x, ms := Obj(NoVersion, ""), [SETS, READS];
            && Lawful(FORGETFUL) && IsJson(FORGETFUL, x) && !KeepsJson(FORGETFUL, SETS)
            && |Stages(x, ms)| > 1
            && var stored := FORGETFUL.load(FORGETFUL.render(Stages(x, ms)[1]));
               && stored.Some?
               && Upgrade(x, ms) == Ok(Obj(Number(2, ""), "")) && Upgrade(stored.value, ms) == Err(MigrationThrew("missing"))
  {
    hide NextAbove, MaxVersion;
    var ms := [SETS, READS];
    var x, y, z := Obj(NoVersion, ""), Obj(Number(1, ""), "a function"), Obj(Number(2, ""), "");
    TwoSteps(0);
    TwoSteps(1);
    TwoSteps(2);
    assert Move1(x, ms) == MovesTo(y) && Move1(y, ms) == MovesTo(z) && Move1(z, ms) == AtEnd;
    assert Stages(x, ms)[1] == Stages(y, ms)[0];
    assert Upgrade(z, ms) == Ok(z) && Upgrade(y, ms) == Ok(z) && Upgrade(x, ms) == Ok(z);
    var stored := Obj(Number(1, ""), "");
    assert Move1(stored, ms) == Stuck(MigrationThrew("missing"));
    assert LoadVersion("0") == Some(x);
    assert FORGETFUL.load("0") == Some(x);
    forall text ensures FORGETFUL.load(text) != Some(y) {}
    assert Migrated(SETS, x) == Ok(y);
  }
}
