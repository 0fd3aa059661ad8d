/** What firing and patching do to a record of src/cron/CronScheduler.ts, field by field, and in which order handlers run. */
module CronFiring {
  import opened Outcomes
  import opened CronSearch
  import opened CronParser
  import opened CronScheduler

  /** The handler that a fire calls, if there is one: an internal cron's own, or the one for all others. */
  predicate Runs(c: CronRecord, setup: Setup) {
    (c.isInternal && c.cronId in setup.handlers) || (!c.isInternal && setup.hasFireHandler)
  }

  /** One failure more: a missing count, and one that is no number, become NaN. */
  predicate CountsUp(before: Failures, after: Failures) {
    match before
    case Missing => after == NaN
    case Null => after == Count(1)
    case NaN => after == NaN
    case Count(n) => after == Count(n + 1)
  }

  predicate HasReached(f: Failures, max: int) {
    (f.Count? && f.n >= max) || (f.Null? && 0 >= max)
  }

  /**
   A fire sets the time of the last one and clears the failures, or counts one more and keeps that time; the next time is the
   schedule's first after the handler has ended; the cron stays enabled unless there is none, or too many failures.
   */
  lemma FiredMeans(c: CronRecord, fire: Fire, now: int, setup: Setup)
    ensures var f := Fired(c, fire, now, setup);
            var failed := Runs(c, setup) && fire.fails;
            var end := now + (if Runs(c, setup) then fire.takes else 0);
            var next := NextFire(c.expression, end + fire.lag, setup.offset);
            && f == c.(lastFiredAt := f.lastFiredAt, consecutiveFailures := f.consecutiveFailures, nextFireAt := f.nextFireAt, enabled := f.enabled)
            && (!failed ==> f.lastFiredAt == Some(end) && f.consecutiveFailures == Count(0))
            && (failed ==> f.lastFiredAt == c.lastFiredAt && CountsUp(c.consecutiveFailures, f.consecutiveFailures))
            && (if next.Ok? then f.nextFireAt == next.value else f.nextFireAt == c.nextFireAt)
            && (f.enabled <==> c.enabled && next.Ok? && !(failed && HasReached(f.consecutiveFailures, setup.maxFailures)))
  {
    hide NextFire;
  }

  /** So while a cron is enabled, its next time is the first minute behind the fire that its fields match. */
  lemma NextTimeIsFirstMatch(c: CronRecord, fire: Fire, now: int, setup: Setup)
    requires Fired(c, fire, now, setup).enabled
    ensures var t := Fired(c, fire, now, setup).nextFireAt;
            var end := now + (if Runs(c, setup) then fire.takes else 0) + fire.lag;
            && CronMeaning(c.expression).Ok? && end < t && (t + setup.offset) % 60_000 == 0
            && FiresAt(CronMeaning(c.expression).value, (t + setup.offset) / 60_000)
            && forall m :: end < 60_000 * m - setup.offset < t ==> !FiresAt(CronMeaning(c.expression).value, m)
  {
    FiredMeans(c, fire, now, setup);
    hide NextFire, Fired, FiresAt, CronMeaning;
    var end := now + (if Runs(c, setup) then fire.takes else 0) + fire.lag;
    assert NextFire(c.expression, end, setup.offset).Ok?;
    ParsesIfFound(c.expression, end, setup.offset);
    NextFireIsLeastMatch(c.expression, end, setup.offset);
  }

  lemma ParsesIfFound(expression: string, after: int, offset: int)
    requires NextFire(expression, after, offset).Ok?
    ensures CronMeaning(expression).Ok?
  {
    hide FirstFire, CronMeaning;
  }

  /** Time passes in a tick with the handlers that run, and behind each due cron. */
  lemma TickClock(crons: seq<CronRecord>, fires: nat -> Fire, start: int, setup: Setup, k: nat)
    requires k < |crons|
    ensures TimeAfter(crons, fires, start, setup, 0) == start
    ensures TimeAfter(crons, fires, start, setup, k + 1) == TimeAfter(crons, fires, start, setup, k)
            + (if crons[k].enabled && crons[k].nextFireAt <= start then (if Runs(crons[k], setup) then fires(k).takes else 0) + fires(k).lag else 0)
  {
  }

  // ---- The order of the handlers

  predicate IsCalled(crons: seq<CronRecord>, start: int, setup: Setup, k: nat) {
    k < |crons| && crons[k].enabled && crons[k].nextFireAt <= start && Runs(crons[k], setup)
  }

  lemma {:induction false} CallsOfMore(crons: seq<CronRecord>, start: int, setup: Setup, k: nat)
    requires k <= |crons|
    ensures |Calls(crons[..k], start, setup)| <= |Calls(crons, start, setup)|
    ensures Calls(crons, start, setup)[..|Calls(crons[..k], start, setup)|] == Calls(crons[..k], start, setup)
    decreases |crons|
  {
    if k == |crons| {
      assert crons[..k] == crons;
    } else {
      CallsOfMore(crons[..|crons| - 1], start, setup, k);
      assert crons[..|crons| - 1][..k] == crons[..k];
    }
  }

  lemma CallsOfNext(crons: seq<CronRecord>, start: int, setup: Setup, k: nat)
    requires k < |crons|
    ensures Calls(crons[..k + 1], start, setup)
         == Calls(crons[..k], start, setup) + (if IsCalled(crons, start, setup, k) then [crons[k].cronId] else [])
  {
    assert crons[..k + 1][..k] == crons[..k];
  }

  /** The handlers run in the order of the map: cron `k`'s comes behind those of the called crons before it. */
  lemma CallIsInPlace(crons: seq<CronRecord>, start: int, setup: Setup, k: nat)
    requires IsCalled(crons, start, setup, k)
    ensures var place := |Calls(crons[..k], start, setup)|;
            place < |Calls(crons, start, setup)| && Calls(crons, start, setup)[place] == crons[k].cronId
            && forall j :: 0 <= j < k && IsCalled(crons, start, setup, j) ==> |Calls(crons[..j], start, setup)| < place
  {
    assert k < |crons|;
    hide Calls, IsCalled;
    var all := Calls(crons, start, setup);
    CallsOfNext(crons, start, setup, k);
    CallsOfMore(crons, start, setup, k + 1);
    var place := |Calls(crons[..k], start, setup)|;
    assert all[place] == all[..place + 1][place] == Calls(crons[..k + 1], start, setup)[place];
    forall j | 0 <= j < k && IsCalled(crons, start, setup, j) ensures |Calls(crons[..j], start, setup)| < place {
      CallsOfNext(crons, start, setup, j);
      CallsOfMore(crons[..k], start, setup, j + 1);
      assert crons[..k][..j + 1] == crons[..j + 1];
    }
  }

  /** No handler runs but for a due cron, in its place. */
  lemma {:induction false} CallIsOfDue(crons: seq<CronRecord>, start: int, setup: Setup, i: nat) returns (k: nat)
    requires i < |Calls(crons, start, setup)|
    ensures IsCalled(crons, start, setup, k) && |Calls(crons[..k], start, setup)| == i
  {
    hide IsCalled;
    var n := |crons| - 1;
    assert crons[..n + 1] == crons;
    CallsOfNext(crons, start, setup, n);
    if i < |Calls(crons[..n], start, setup)| {
      k := CallIsOfDue(crons[..n], start, setup, i);
      assert crons[..n][..k] == crons[..k] by { CalledIsThere(crons[..n], start, setup, k); }
      assert IsCalled(crons, start, setup, k) by { CalledStays(crons, start, setup, n, k); }
    } else {
      k := n;
    }
  }

  lemma CalledIsThere(crons: seq<CronRecord>, start: int, setup: Setup, k: nat)
    requires IsCalled(crons, start, setup, k)
    ensures k < |crons|
  {
  }

  lemma CalledStays(crons: seq<CronRecord>, start: int, setup: Setup, n: nat, k: nat)
    requires n <= |crons| && IsCalled(crons[..n], start, setup, k)
    ensures IsCalled(crons, start, setup, k)
  {
  }

  // ---- Patching

  /** A patch leaves every field alone that it cannot have. */
  lemma PatchLeaves(c: CronRecord, patch: Patch, next: int)
    ensures var p := Patched(c, patch, next);
            && p.cronId == c.cronId && p.botId == c.botId && p.userId == c.userId && p.deliveryChannel == c.deliveryChannel
            && p.createdAt == c.createdAt && p.lastFiredAt == c.lastFiredAt && p.durable == c.durable
            && p.sessionKey == c.sessionKey && p.isInternal == c.isInternal
  {
  }

  /** It sets the fields it has, and no other; a new expression also sets the next time, and enabling clears the failures. */
  lemma PatchedMeans(c: CronRecord, patch: Patch, next: int)
    ensures var p := Patched(c, patch, next);
            && p.expression == (if patch.expression.Some? then patch.expression.value else c.expression)
            && p.nextFireAt == (if patch.expression.Some? then next else c.nextFireAt)
            && p.prompt == (if patch.prompt.Some? then patch.prompt.value else c.prompt)
    ensures var p := Patched(c, patch, next);
            && p.description == (if patch.description.Some? then patch.description else c.description)
            && p.enabled == (if patch.enabled.Some? then patch.enabled.value else c.enabled)
            && p.consecutiveFailures == (if patch.enabled == Some(true) then Count(0) else c.consecutiveFailures)
  {
  }

  // ---- The map and the file

  /** Setting a record leaves every other id as it was, and keeps the place of its own. */
  lemma PutMeans(crons: seq<CronRecord>, c: CronRecord)
    ensures var r := Put(crons, c);
            if exists k :: 0 <= k < |crons| && crons[k].cronId == c.cronId then
              |r| == |crons| && (exists k :: 0 <= k < |r| && r[k] == c)
              && forall j :: 0 <= j < |r| && r[j] != crons[j] ==> crons[j].cronId == c.cronId && r[j] == c
            else r == crons + [c]
  {
    var k := IndexOf(crons, c.cronId);
    if k.Some? { assert Put(crons, c)[k.value] == c; }
  }

  /** Removing takes out one record and keeps the order of the others. */
  lemma RemoveMeans(crons: seq<CronRecord>, k: nat)
    requires k < |crons|
    ensures var r := Remove(crons, k);
            |r| == |crons| - 1 && forall j :: 0 <= j < |r| ==> r[j] == crons[if j < k then j else j + 1]
  {
  }

  /** A record is written exactly if it is durable and not internal. */
  lemma {:induction false} DurableMeans(crons: seq<CronRecord>, c: CronRecord)
    ensures c in Durable(crons) <==> c in crons && c.durable && !c.isInternal
  {
    if crons != [] {
      var front, last := crons[..|crons| - 1], crons[|crons| - 1];
      DurableMeans(front, c);
      assert crons == front + [last];
    }
  }
}
