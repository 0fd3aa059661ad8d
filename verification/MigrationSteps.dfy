/** What each step of the chain of src/migrations/applyMigrations.ts is, and why a chain ends where it does. */
module MigrationSteps {
  import opened Outcomes
  import opened Migrations

  /** A version counts if it is a number and not negative, rounded down; all else is version 0. */
  lemma VersionMeans(x: Obj)
    ensures match x.schemaVersion
            case Number(floor, _) => floor >= 0 ==> CurrentVersion(x) == floor
            case _ => CurrentVersion(x) == 0
    ensures x.schemaVersion.Number? && x.schemaVersion.floor < 0 ==> CurrentVersion(x) == 0
  {
  }

  /** Migration `i` is the first registered for its version. */
  predicate IsFirst(ms: seq<Migration>, i: nat) {
    i < |ms| && forall j :: 0 <= j < i ==> ms[j].version != ms[i].version
  }

  lemma {:induction false} NextIsFirst(ms: seq<Migration>, from: int) returns (i: nat)
    requires NextAbove(ms, from).Some?
    ensures IsFirst(ms, i) && NextAbove(ms, from) == Some(ms[i]) && ms[i].version > from
    ensures forall k :: 0 <= k < |ms| && ms[k].version > from ==> ms[i].version <= ms[k].version
  {
    var later := NextAbove(ms[1..], from);
    if ms[0].version > from && (later.None? || ms[0].version <= later.value.version) {
      i := 0;
      assert forall k :: 0 < k < |ms| ==> ms[k] == ms[1..][k - 1];
    } else {
      var j := NextIsFirst(ms[1..], from);
      i := j + 1;
      assert ms[i] == ms[1..][j];
      assert forall k :: 0 < k < |ms| ==> ms[k] == ms[1..][k - 1];
    }
  }

  /** From `a` migration `i` makes `b`: what it returns, under its own version. */
  predicate Steps(ms: seq<Migration>, i: nat, a: Obj, b: Obj) {
    && IsFirst(ms, i) && ms[i].version == CurrentVersion(a) + 1
    && ms[i].migrate(a).Ok? && b == Obj(Number(ms[i].version, ""), ms[i].migrate(a).value.body)
  }

  lemma MoveSteps(a: Obj, ms: seq<Migration>) returns (i: nat)
    requires Move1(a, ms).MovesTo?
    ensures Steps(ms, i, a, Move1(a, ms).next)
  {
    i := NextIsFirst(ms, CurrentVersion(a));
    hide NextAbove, CurrentVersion;
  }

  /** Each stage is what the migration registered first for the next version makes of the stage before it. */
  lemma {:induction false} StageIsMigrated(x: Obj, ms: seq<Migration>, k: nat) returns (i: nat)
    requires k + 1 < |Stages(x, ms)|
    ensures Steps(ms, i, Stages(x, ms)[k], Stages(x, ms)[k + 1])
    decreases k
  {
    hide Move1, Steps;
    if k == 0 {
      i := MoveSteps(x, ms);
      assert Stages(x, ms)[1] == Stages(Move1(x, ms).next, ms)[0];
    } else {
      i := StageIsMigrated(Move1(x, ms).next, ms, k - 1);
      assert Stages(x, ms) == [x] + Stages(Move1(x, ms).next, ms);
    }
  }

  /** An upgrade ends well when nothing above its last stage is registered. */
  predicate EndsWell(last: Obj, ms: seq<Migration>) {
    forall k :: 0 <= k < |ms| ==> ms[k].version <= CurrentVersion(last)
  }

  /** It stops at a gap below the next registered version. */
  ghost predicate StopsAtGap(last: Obj, ms: seq<Migration>, at: int, next: int) {
    && at == CurrentVersion(last) && next > at + 1
    && (exists k :: 0 <= k < |ms| && ms[k].version == next)
    && forall k :: 0 <= k < |ms| && ms[k].version > at ==> next <= ms[k].version
  }

  /** Or the migration registered first for the next version throws. */
  ghost predicate StopsAtThrow(last: Obj, ms: seq<Migration>, message: string) {
    exists i: nat :: IsFirst(ms, i) && ms[i].version == CurrentVersion(last) + 1 && ms[i].migrate(last) == Err(message)
  }

  lemma MoveEnds(last: Obj, ms: seq<Migration>)
    ensures match Move1(last, ms)
            case AtEnd => EndsWell(last, ms)
            case Stuck(Gap(at, next)) => StopsAtGap(last, ms, at, next)
            case Stuck(MigrationThrew(message)) => StopsAtThrow(last, ms, message)
            case MovesTo(_) => true
  {
    if NextAbove(ms, CurrentVersion(last)).Some? {
      var i := NextIsFirst(ms, CurrentVersion(last));
      hide NextAbove, CurrentVersion;
    }
  }

  /** Why an upgrade ends, in terms of its last stage. */
  lemma {:induction false} UpgradeEnds(x: Obj, ms: seq<Migration>)
    ensures var last := Stages(x, ms)[|Stages(x, ms)| - 1];
            match Upgrade(x, ms)
            case Ok(y) => y == last && EndsWell(last, ms)
            case Err(Gap(at, next)) => StopsAtGap(last, ms, at, next)
            case Err(MigrationThrew(message)) => StopsAtThrow(last, ms, message)
    decreases StepsLeft(x, ms)
  {
    hide EndsWell, StopsAtGap, StopsAtThrow;
    MoveEnds(x, ms);
    match Move1(x, ms) {
      case MovesTo(next) =>
        StepsGoDown(x, ms);
        hide Move1;
        UpgradeEnds(next, ms);
        assert Stages(x, ms) == [x] + Stages(next, ms);
      case _ =>
    }
  }

  lemma StepsGoDown(x: Obj, ms: seq<Migration>)
    requires Move1(x, ms).MovesTo?
    ensures StepsLeft(Move1(x, ms).next, ms) < StepsLeft(x, ms)
  {
    hide Move1;
  }
}
