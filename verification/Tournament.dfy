/** The worker pool and the ranking of src/spawn/Tournament.ts. */
module Tournament {
  import opened Outcomes

  const MAX_CONCURRENCY: int := 5

  datatype VariantResult = VariantResult(variantIndex: nat, score: real, finalText: string)

  // ---- Ranking

  /** The comparison of `rankVariants`: higher score first, then lower index. */
  predicate Before(a: VariantResult, b: VariantResult) {
    a.score > b.score || (a.score == b.score && a.variantIndex < b.variantIndex)
  }

  function Place(r: VariantResult, ranked: seq<VariantResult>): seq<VariantResult> {
    if ranked == [] || !Before(ranked[0], r) then [r] + ranked else [ranked[0]] + Place(r, ranked[1..])
  }

  function RankVariants(variants: seq<VariantResult>): seq<VariantResult> {
    if variants == [] then [] else Place(variants[0], RankVariants(variants[1..]))
  }

  ghost predicate DistinctIndices(variants: seq<VariantResult>) {
    forall i, j :: 0 <= i < j < |variants| ==> variants[i].variantIndex != variants[j].variantIndex
  }

  ghost predicate Ranked(variants: seq<VariantResult>) {
    forall i, j :: 0 <= i < j < |variants| ==> Before(variants[i], variants[j])
  }

  lemma {:induction false} PlacePermutes(r: VariantResult, ranked: seq<VariantResult>)
    ensures multiset(Place(r, ranked)) == multiset(ranked) + multiset{r}
  {
    if ranked != [] && Before(ranked[0], r) {
      PlacePermutes(r, ranked[1..]);
      assert ranked == [ranked[0]] + ranked[1..];
    }
  }

  lemma {:induction false} PlaceKeepsRanked(r: VariantResult, ranked: seq<VariantResult>)
    requires Ranked(ranked) && forall k :: 0 <= k < |ranked| ==> ranked[k].variantIndex != r.variantIndex
    ensures Ranked(Place(r, ranked))
  {
    if ranked != [] && Before(ranked[0], r) {
      var rest := Place(r, ranked[1..]);
      PlaceKeepsRanked(r, ranked[1..]);
      PlacePermutes(r, ranked[1..]);
      forall k | 0 <= k < |rest| ensures Before(ranked[0], rest[k]) {
        assert rest[k] in multiset(rest);
      }
    }
  }

  lemma {:induction false} RankPermutes(variants: seq<VariantResult>)
    ensures multiset(RankVariants(variants)) == multiset(variants)
  {
    if variants != [] {
      RankPermutes(variants[1..]);
      PlacePermutes(variants[0], RankVariants(variants[1..]));
      assert variants == [variants[0]] + variants[1..];
    }
  }

  lemma {:induction false} RankIsRanked(variants: seq<VariantResult>)
    requires DistinctIndices(variants)
    ensures Ranked(RankVariants(variants))
    ensures var r := RankVariants(variants);
            forall i, j :: 0 <= i < j < |r| ==> r[i].score > r[j].score || (r[i].score == r[j].score && r[i].variantIndex < r[j].variantIndex)
  {
    if variants != [] {
      var rest := RankVariants(variants[1..]);
      RankIsRanked(variants[1..]);
      RankPermutes(variants[1..]);
      forall k | 0 <= k < |rest| ensures rest[k].variantIndex != variants[0].variantIndex {
        assert rest[k] in multiset(rest);
        assert rest[k] in variants[1..];
      }
      PlaceKeepsRanked(variants[0], rest);
    }
  }

  lemma InOrIn(a: seq<VariantResult>, b: seq<VariantResult>, r: VariantResult)
    requires multiset(a) == multiset(b) && r in a
    ensures r in b
  {
    assert r in multiset(b);
  }

  lemma FirstIsBefore(a: seq<VariantResult>, r: VariantResult)
    requires Ranked(a) && r in a
    ensures a[0] == r || Before(a[0], r)
  {
  }

  lemma TailsPermute(a: seq<VariantResult>, b: seq<VariantResult>)
    requires multiset(a) == multiset(b) && a != [] && b != [] && a[0] == b[0]
    ensures multiset(a[1..]) == multiset(b[1..])
  {
    assert a == [a[0]] + a[1..] && b == [b[0]] + b[1..];
    assert multiset(a[1..]) == multiset(a) - multiset{a[0]};
    assert multiset(b[1..]) == multiset(b) - multiset{b[0]};
  }

  /** Any order that ranks the same variants is this one. */
  lemma {:induction false} RankIsTheOnlyRanking(a: seq<VariantResult>, b: seq<VariantResult>)
    requires Ranked(a) && Ranked(b) && multiset(a) == multiset(b)
    ensures a == b
  {
    assert |multiset(a)| == |a| && |multiset(b)| == |b|;
    if a != [] {
      InOrIn(a, b, a[0]);
      InOrIn(b, a, b[0]);
      FirstIsBefore(b, a[0]);
      FirstIsBefore(a, b[0]);
      TailsPermute(a, b);
      RankIsTheOnlyRanking(a[1..], b[1..]);
      assert a == [a[0]] + a[1..] && b == [b[0]] + b[1..];
    }
  }

  /** The winner has the highest score, and the lowest index among those with that score. */
  ghost predicate Wins(variants: seq<VariantResult>, w: VariantResult) {
    w in variants && forall k :: 0 <= k < |variants| ==> variants[k] == w || Before(w, variants[k])
  }

  lemma RankedFirstWins(variants: seq<VariantResult>)
    requires DistinctIndices(variants) && variants != []
    ensures RankVariants(variants) != [] && Wins(variants, RankVariants(variants)[0])
    ensures var w := RankVariants(variants)[0];
            forall v :: v in variants ==> w.score > v.score || (w.score == v.score && w.variantIndex <= v.variantIndex)
  {
    var ranked := RankVariants(variants);
    RankPermutes(variants);
    RankIsRanked(variants);
    assert variants[0] in multiset(variants);
    assert ranked[0] in multiset(ranked);
    forall k | 0 <= k < |variants| ensures variants[k] == ranked[0] || Before(ranked[0], variants[k]) {
      assert variants[k] in multiset(ranked);
      var j :| 0 <= j < |ranked| && ranked[j] == variants[k];
    }
  }

  datatype Selection = Selection(winnerIndex: int, finalText: string)

  function MergeWinner(ranked: seq<VariantResult>): string {
    if ranked == [] then "" else ranked[0].finalText
  }

  function SelectWinnerText(variants: seq<VariantResult>): Selection {
    var ranked := RankVariants(variants);
    if ranked == [] then Selection(-1, "") else Selection(ranked[0].variantIndex, MergeWinner(ranked))
  }

  /** The text selected is the winning variant's; -1 and no text exactly when there is no variant. */
  lemma SelectsTheWinner(variants: seq<VariantResult>, w: VariantResult)
    requires DistinctIndices(variants)
    ensures variants == [] <==> SelectWinnerText(variants) == Selection(-1, "")
    ensures Wins(variants, w) ==> SelectWinnerText(variants) == Selection(w.variantIndex, w.finalText)
  {
    if variants != [] {
      RankedFirstWins(variants);
      hide RankVariants, DistinctIndices;
    }
  }

  // ---- The worker pool

  /** What each child and each scoring comes to; a scorer may throw although its contract asks it not to. */
  datatype Environment = Environment(runChild: nat -> Result<string, string>, scoreChild: (nat, string) -> Result<real, string>)

  datatype Worker =
    | AtCursor
    | RunningChild(idx: nat)
    | Scoring(idx: nat, finalText: string)
    | Returned
    | Threw(idx: nat)

  /** `started` and `scored` list the variants handed to `runChild` and to `scoreChild`, in order. */
  datatype Pool = Pool(
    cursor: nat, workers: seq<Worker>, results: seq<Option<VariantResult>>, started: seq<nat>, scored: seq<nat>)

  function Concurrency(variants: int, concurrency: Option<int>): (c: nat)
    ensures 1 <= c <= MAX_CONCURRENCY
  {
    var wanted := if concurrency.Some? then concurrency.value else variants;
    var atLeastOne := if wanted > 1 then wanted else 1;
    if atLeastOne < MAX_CONCURRENCY then atLeastOne else MAX_CONCURRENCY
  }

  function Init(variants: nat, concurrency: Option<int>): Pool {
    Pool(0, seq(Concurrency(variants, concurrency), _ => AtCursor), seq(variants, _ => None), [], [])
  }

  /** A child's error becomes its final text. */
  function FinalText(env: Environment, idx: nat): string {
    match env.runChild(idx)
    case Ok(text) => text
    case Err(message) => "error: " + message
  }

  function WithWorker(s: Pool, w: nat, worker: Worker): Pool
    requires w < |s.workers|
  {
    s.(workers := s.workers[w := worker])
  }

  /** The segment of worker `w` up to its next await; a worker that is done takes none. */
  function Advance(env: Environment, s: Pool, w: nat): Pool
    requires w < |s.workers|
  {
    match s.workers[w]
    case AtCursor =>
      var idx := s.cursor;
      var t := s.(cursor := s.cursor + 1);
      if idx >= |s.results| then WithWorker(t, w, Returned)
      else WithWorker(t, w, RunningChild(idx)).(started := s.started + [idx])
    case RunningChild(idx) =>
      WithWorker(s, w, Scoring(idx, FinalText(env, idx))).(scored := s.scored + [idx])
    case Scoring(idx, text) =>
      (match env.scoreChild(idx, text)
       case Err(_) => WithWorker(s, w, Threw(idx))
       case Ok(score) =>
         if idx < |s.results| then WithWorker(s, w, AtCursor).(results := s.results[idx := Some(VariantResult(idx, score, text))])
         else s)
    case Returned => s
    case Threw(_) => s
  }

  predicate Done(worker: Worker) {
    worker.Returned? || worker.Threw?
  }

  /** A schedule: which worker takes each step. Steps of workers that are done do not occur. */
  ghost predicate IsRun(env: Environment, states: seq<Pool>, schedule: seq<nat>) {
    && |states| == |schedule| + 1
    && forall k :: 0 <= k < |schedule| ==>
         && schedule[k] < |states[k].workers| && !Done(states[k].workers[schedule[k]])
         && states[k + 1] == Advance(env, states[k], schedule[k])
  }

  /** The variant a worker has taken and not yet recorded. */
  function Held(worker: Worker): Option<nat> {
    match worker
    case RunningChild(idx) => Some(idx)
    case Scoring(idx, _) => Some(idx)
    case Threw(idx) => Some(idx)
    case _ => None
  }

  predicate HasScored(worker: Worker) {
    worker.Scoring? || worker.Threw?
  }

  function Expected(env: Environment, idx: nat): Result<VariantResult, string> {
    match env.scoreChild(idx, FinalText(env, idx))
    case Ok(score) => Ok(VariantResult(idx, score, FinalText(env, idx)))
    case Err(e) => Err(e)
  }

  ghost predicate WorkerOk(env: Environment, s: Pool, worker: Worker)
    requires |s.started| <= |s.results|
  {
    && (Held(worker).Some? ==> Held(worker).value < |s.started| && s.results[Held(worker).value].None?)
    && (Held(worker).Some? ==> (Held(worker).value in s.scored <==> HasScored(worker)))
    && (worker.Scoring? ==> worker.finalText == FinalText(env, worker.idx))
    && (worker.Threw? ==> Expected(env, worker.idx).Err?)
    && (worker.Returned? ==> |s.started| == |s.results|)
  }

  /** Started variants are recorded with their own outcome, or held by exactly one worker. */
  ghost predicate VariantOk(env: Environment, s: Pool, idx: nat)
    requires idx < |s.results|
  {
    && (s.results[idx].Some? ==> idx in s.scored && Expected(env, idx) == Ok(s.results[idx].value))
    && (s.results[idx].None? ==> exists w :: 0 <= w < |s.workers| && Held(s.workers[w]) == Some(idx))
  }

  ghost predicate Inv(env: Environment, s: Pool) {
    && |s.started| <= |s.results| && (s.cursor < |s.results| ==> |s.started| == s.cursor)
    && (s.cursor >= |s.results| ==> |s.started| == |s.results|)
    && (forall k :: 0 <= k < |s.started| ==> s.started[k] == k)
    && (forall k :: |s.started| <= k < |s.results| ==> s.results[k].None?)
    && (forall k :: 0 <= k < |s.scored| ==> s.scored[k] < |s.started|)
    && (forall j, k :: 0 <= j < k < |s.scored| ==> s.scored[j] != s.scored[k])
    && (forall w :: 0 <= w < |s.workers| ==> WorkerOk(env, s, s.workers[w]))
    && (forall v, w :: 0 <= v < w < |s.workers| && Held(s.workers[v]).Some? ==> Held(s.workers[v]) != Held(s.workers[w]))
    && (forall idx :: 0 <= idx < |s.started| ==> VariantOk(env, s, idx))
  }

  lemma FetchKeepsInv(env: Environment, s: Pool, w: nat)
    requires Inv(env, s) && w < |s.workers| && s.workers[w].AtCursor?
    ensures Inv(env, Advance(env, s, w))
  {
    hide Expected, FinalText;
    var t := Advance(env, s, w);
    assert forall v :: 0 <= v < |s.workers| && v != w ==> t.workers[v] == s.workers[v] && WorkerOk(env, s, s.workers[v]);
    forall idx | 0 <= idx < |t.started| ensures VariantOk(env, t, idx) {
      if idx < |s.started| {
        assert VariantOk(env, s, idx);
        if s.results[idx].None? { OthersHold(env, s, t, w, idx); }
      } else {
        assert Held(t.workers[w]) == Some(idx);
      }
    }
  }

  lemma OthersHold(env: Environment, s: Pool, t: Pool, w: nat, idx: nat)
    requires |t.workers| == |s.workers| && idx < |s.results| && w < |s.workers|
    requires forall v :: 0 <= v < |s.workers| && v != w ==> t.workers[v] == s.workers[v]
    requires Held(s.workers[w]).None? || Held(t.workers[w]) == Held(s.workers[w])
    requires exists v :: 0 <= v < |s.workers| && Held(s.workers[v]) == Some(idx)
    ensures exists v :: 0 <= v < |t.workers| && Held(t.workers[v]) == Some(idx)
  {
    var v :| 0 <= v < |s.workers| && Held(s.workers[v]) == Some(idx);
    assert Held(t.workers[v]) == Some(idx);
  }

  lemma ChildKeepsInv(env: Environment, s: Pool, w: nat)
    requires Inv(env, s) && w < |s.workers| && s.workers[w].RunningChild?
    ensures Inv(env, Advance(env, s, w))
  {
    hide Expected, FinalText;
    var t := Advance(env, s, w);
    assert WorkerOk(env, s, s.workers[w]);
    assert forall v :: 0 <= v < |s.workers| && v != w ==> t.workers[v] == s.workers[v] && WorkerOk(env, s, s.workers[v]);
    forall idx | 0 <= idx < |t.started| ensures VariantOk(env, t, idx) {
      assert VariantOk(env, s, idx);
      if s.results[idx].None? { OthersHold(env, s, t, w, idx); }
    }
  }

  lemma ScoreKeepsInv(env: Environment, s: Pool, w: nat)
    requires Inv(env, s) && w < |s.workers| && s.workers[w].Scoring?
    ensures Inv(env, Advance(env, s, w))
  {
    hide FinalText;
    var t := Advance(env, s, w);
    assert WorkerOk(env, s, s.workers[w]);
    assert forall v :: 0 <= v < |s.workers| && v != w ==> t.workers[v] == s.workers[v] && WorkerOk(env, s, s.workers[v]);
    forall idx | 0 <= idx < |t.started| ensures VariantOk(env, t, idx) {
      assert VariantOk(env, s, idx);
      if t.results[idx].None? {
        if t.workers[w].AtCursor? { NotTheOne(s, t, w, idx); } else { OthersHold(env, s, t, w, idx); }
      }
    }
  }

  lemma NotTheOne(s: Pool, t: Pool, w: nat, idx: nat)
    requires |t.workers| == |s.workers| && w < |s.workers| && Held(s.workers[w]).Some? && Held(s.workers[w]) != Some(idx)
    requires forall v :: 0 <= v < |s.workers| && v != w ==> t.workers[v] == s.workers[v]
    requires exists v :: 0 <= v < |s.workers| && Held(s.workers[v]) == Some(idx)
    ensures exists v :: 0 <= v < |t.workers| && Held(t.workers[v]) == Some(idx)
  {
    var v :| 0 <= v < |s.workers| && Held(s.workers[v]) == Some(idx);
    assert Held(t.workers[v]) == Some(idx);
  }

  lemma AdvanceKeepsInv(env: Environment, s: Pool, w: nat)
    requires Inv(env, s) && w < |s.workers|
    ensures Inv(env, Advance(env, s, w))
    ensures |Advance(env, s, w).workers| == |s.workers| && |Advance(env, s, w).results| == |s.results|
  {
    match s.workers[w] {
      case AtCursor => FetchKeepsInv(env, s, w);
      case RunningChild(_) => ChildKeepsInv(env, s, w);
      case Scoring(_, _) => ScoreKeepsInv(env, s, w);
      case _ =>
    }
    hide Inv;
  }

  lemma {:induction false} RunsKeepInv(env: Environment, states: seq<Pool>, schedule: seq<nat>, k: nat)
    requires IsRun(env, states, schedule) && Inv(env, states[0]) && k <= |schedule|
    ensures Inv(env, states[k]) && |states[k].workers| == |states[0].workers| && |states[k].results| == |states[0].results|
  {
    hide Inv, Advance;
    if k > 0 {
      RunsKeepInv(env, states, schedule, k - 1);
      AdvanceKeepsInv(env, states[k - 1], schedule[k - 1]);
    }
  }

  lemma InitIsOk(env: Environment, variants: nat, concurrency: Option<int>)
    ensures Inv(env, Init(variants, concurrency))
  {
  }

  // ---- How many run, and for how long

  function InFlight(workers: seq<Worker>): nat {
    if workers == [] then 0
    else InFlight(workers[1..]) + (if workers[0].RunningChild? || workers[0].Scoring? then 1 else 0)
  }

  lemma {:induction false} InFlightIsBounded(workers: seq<Worker>)
    ensures InFlight(workers) <= |workers|
  {
    if workers != [] { InFlightIsBounded(workers[1..]); }
  }

  function StepsOf(worker: Worker): nat {
    match worker
    case AtCursor => 1
    case RunningChild(_) => 3
    case Scoring(_, _) => 2
    case _ => 0
  }

  function StepsLeft(workers: seq<Worker>): nat {
    if workers == [] then 0 else StepsOf(workers[0]) + StepsLeft(workers[1..])
  }

  lemma {:induction false} StepsLeftOfUpdate(workers: seq<Worker>, w: nat, worker: Worker)
    requires w < |workers|
    ensures StepsLeft(workers[w := worker]) == StepsLeft(workers) - StepsOf(workers[w]) + StepsOf(worker)
  {
    if w > 0 {
      StepsLeftOfUpdate(workers[1..], w - 1, worker);
      assert workers[w := worker][1..] == workers[1..][w - 1 := worker];
    } else {
      assert workers[w := worker][1..] == workers[1..];
    }
  }

  function Measure(s: Pool): int {
    3 * (|s.results| - |s.started|) + StepsLeft(s.workers)
  }

  lemma AdvanceShrinks(env: Environment, s: Pool, w: nat)
    requires Inv(env, s) && w < |s.workers| && !Done(s.workers[w])
    ensures Measure(Advance(env, s, w)) < Measure(s)
  {
    hide StepsLeft, FinalText;
    assert WorkerOk(env, s, s.workers[w]);
    StepsLeftOfUpdate(s.workers, w, Advance(env, s, w).workers[w]);
  }

  lemma {:induction false} StepsLeftAtStart(workers: seq<Worker>)
    requires forall w :: 0 <= w < |workers| ==> workers[w] == AtCursor
    ensures StepsLeft(workers) == |workers|
  {
    if workers != [] { StepsLeftAtStart(workers[1..]); }
  }

  lemma {:induction false} MeasureFalls(env: Environment, states: seq<Pool>, schedule: seq<nat>, k: nat)
    requires IsRun(env, states, schedule) && Inv(env, states[0]) && k <= |schedule|
    ensures Measure(states[k]) <= Measure(states[0]) - k
  {
    hide Inv, Advance, Measure;
    if k > 0 {
      MeasureFalls(env, states, schedule, k - 1);
      RunsKeepInv(env, states, schedule, k - 1);
      AdvanceShrinks(env, states[k - 1], schedule[k - 1]);
    }
  }

  /**
   In every schedule at most min(5, max(1, concurrency)) variants are in flight, variants start in index order, none is
   started or scored twice, and the pool is done after at most three steps a variant and one more a worker.
   */
  lemma PoolIsBounded(env: Environment, variants: nat, concurrency: Option<int>, states: seq<Pool>, schedule: seq<nat>, k: nat)
    requires IsRun(env, states, schedule) && states[0] == Init(variants, concurrency) && k <= |schedule|
    ensures InFlight(states[k].workers) <= Concurrency(variants, concurrency)
    ensures forall i :: 0 <= i < |states[k].started| ==> states[k].started[i] == i
    ensures forall i, j :: 0 <= i < j < |states[k].scored| ==> states[k].scored[i] != states[k].scored[j]
    ensures |schedule| <= 3 * variants + Concurrency(variants, concurrency)
  {
    hide Advance, InFlight, StepsLeft;
    InitIsOk(env, variants, concurrency);
    RunsKeepInv(env, states, schedule, k);
    RunsKeepInv(env, states, schedule, |schedule|);
    InFlightIsBounded(states[k].workers);
    MeasureFalls(env, states, schedule, |schedule|);
    StepsLeftAtStart(states[0].workers);
  }

  /** There are as many workers as asked for, or as there are variants, but at least one and at most five. */
  lemma PoolSize(variants: nat, concurrency: Option<int>)
    ensures var n := |Init(variants, concurrency).workers|;
            var wanted := if concurrency.Some? then concurrency.value else variants;
            1 <= n <= 5 && (1 <= wanted <= 5 ==> n == wanted) && (wanted < 1 ==> n == 1) && (wanted > 5 ==> n == 5)
    ensures InFlight(Init(variants, concurrency).workers) == 0
  {
    InFlightAtStart(Init(variants, concurrency).workers);
    hide InFlight;
  }

  lemma {:induction false} InFlightAtStart(workers: seq<Worker>)
    requires forall w :: 0 <= w < |workers| ==> workers[w] == AtCursor
    ensures InFlight(workers) == 0
  {
    if workers != [] { InFlightAtStart(workers[1..]); }
  }

  /** A variant's own result: its index, its score, and its child's text or error; it throws if its scoring does. */
  lemma ExpectedMeans(env: Environment, idx: nat)
    ensures var text := match env.runChild(idx) case Ok(t) => t case Err(message) => "error: " + message;
            match env.scoreChild(idx, text)
            case Ok(score) => Expected(env, idx) == Ok(VariantResult(idx, score, text))
            case Err(e) => Expected(env, idx) == Err(e)
  {
  }

  // ---- What a tournament comes to

  datatype Outcome = ScorerThrew | NoWinner | Decided(winnerIndex: nat, variants: seq<VariantResult>)

  ghost predicate AllDone(s: Pool) {
    forall w :: 0 <= w < |s.workers| ==> Done(s.workers[w])
  }

  ghost predicate SomeThrew(s: Pool) {
    exists w :: 0 <= w < |s.workers| && s.workers[w].Threw?
  }

  /** The slots as `rankVariants` reads them once all are filled. */
  function Filled(results: seq<Option<VariantResult>>): seq<VariantResult> {
    if results == [] then []
    else Filled(results[..|results| - 1]) + (if results[|results| - 1].Some? then [results[|results| - 1].value] else [])
  }

  lemma {:induction false} FilledAt(results: seq<Option<VariantResult>>)
    requires forall k :: 0 <= k < |results| ==> results[k].Some?
    ensures |Filled(results)| == |results|
    ensures forall k :: 0 <= k < |results| ==> Filled(results)[k] == results[k].value
  {
    if results != [] { FilledAt(results[..|results| - 1]); }
  }

  /** `Promise.all` over the workers, then the ranking; without a variant there is no `ranked[0]`. */
  ghost function Conclude(s: Pool): Outcome {
    if SomeThrew(s) then ScorerThrew
    else
      var ranked := RankVariants(Filled(s.results));
      if ranked == [] then NoWinner else Decided(ranked[0].variantIndex, Filled(s.results))
  }

  /** The outcome without any pool: each variant on its own, one after the other. */
  ghost predicate IsOutcome(env: Environment, variants: nat, outcome: Outcome) {
    match outcome
    case ScorerThrew => exists idx: nat :: idx < variants && Expected(env, idx).Err?
    case NoWinner => variants == 0
    case Decided(winnerIndex, results) =>
      && |results| == variants && winnerIndex < variants
      && (forall idx: nat :: idx < variants ==> Expected(env, idx) == Ok(results[idx]))
      && Wins(results, results[winnerIndex])
  }

  /** When the workers are done without a throw, every variant was run and scored once and its slot filled with its own result. */
  lemma EverySlotIsFilled(env: Environment, s: Pool, idx: nat)
    requires Inv(env, s) && AllDone(s) && s.workers != [] && !SomeThrew(s) && idx < |s.results|
    ensures idx < |s.started| && idx in s.scored && s.results[idx].Some? && Expected(env, idx) == Ok(s.results[idx].value)
  {
    assert Done(s.workers[0]) && WorkerOk(env, s, s.workers[0]);
    assert VariantOk(env, s, idx);
    hide Expected, FinalText;
  }

  lemma DoneIsAnOutcome(env: Environment, s: Pool)
    requires Inv(env, s) && AllDone(s) && s.workers != []
    ensures IsOutcome(env, |s.results|, Conclude(s))
  {
    hide Expected, RankVariants, Inv, Wins;
    if SomeThrew(s) {
      ThrowIsExpected(env, s);
    } else {
      forall idx: nat | idx < |s.results| ensures s.results[idx].Some? && Expected(env, idx) == Ok(s.results[idx].value) {
        EverySlotIsFilled(env, s, idx);
      }
      FilledAt(s.results);
      hide Filled;
      var results := Filled(s.results);
      IndicesArePositions(env, results);
      if results != [] {
        RankedFirstWins(results);
        assert RankVariants(results)[0] in results by { WinnersCompete(results, RankVariants(results)[0]); }
      } else {
        RankPermutes(results);
        assert |multiset(RankVariants(results))| == 0;
      }
    }
  }

  lemma WinnersCompete(results: seq<VariantResult>, w: VariantResult)
    requires Wins(results, w)
    ensures w in results
  {
  }

  lemma ThrowIsExpected(env: Environment, s: Pool)
    requires Inv(env, s) && SomeThrew(s)
    ensures exists idx: nat :: idx < |s.results| && Expected(env, idx).Err?
  {
    var w :| 0 <= w < |s.workers| && s.workers[w].Threw?;
    assert WorkerOk(env, s, s.workers[w]);
    hide Expected;
    assert Expected(env, s.workers[w].idx).Err?;
  }

  lemma IndicesArePositions(env: Environment, results: seq<VariantResult>)
    requires forall idx: nat :: idx < |results| ==> Expected(env, idx) == Ok(results[idx])
    ensures forall idx: nat :: idx < |results| ==> results[idx].variantIndex == idx
    ensures DistinctIndices(results)
  {
    forall idx: nat | idx < |results| ensures results[idx].variantIndex == idx {
      assert Expected(env, idx) == Ok(results[idx]);
    }
  }

  /** The outcome is determined by the children and the scorer alone. */
  lemma OutcomeIsUnique(env: Environment, variants: nat, a: Outcome, b: Outcome)
    requires IsOutcome(env, variants, a) && IsOutcome(env, variants, b)
    ensures a == b
  {
    hide Expected;
    if a.Decided? && b.Decided? {
      assert forall idx: nat :: idx < variants ==> Expected(env, idx) == Ok(a.variants[idx]) && a.variants[idx] == b.variants[idx];
      assert a.variants == b.variants;
      IndicesArePositions(env, a.variants);
      assert a.variants[a.winnerIndex] == a.variants[b.winnerIndex];
    }
  }

  /**
   A tournament whose workers are done rejects exactly when some variant's scoring throws; otherwise every slot holds the
   result of its own variant and the winner has the highest score and the lowest index among equals.
   */
  lemma FinishedTournament(env: Environment, variants: nat, c: Option<int>, states: seq<Pool>, schedule: seq<nat>)
    requires IsRun(env, states, schedule) && states[0] == Init(variants, c) && AllDone(states[|schedule|])
    ensures IsOutcome(env, variants, Conclude(states[|schedule|]))
    ensures Conclude(states[|schedule|]) == ScorerThrew <==> exists idx: nat :: idx < variants && Expected(env, idx).Err?
  {
    hide Expected, Inv, Conclude, Advance, Wins;
    InitIsOk(env, variants, c);
    RunsKeepInv(env, states, schedule, |schedule|);
    DoneIsAnOutcome(env, states[|schedule|]);
    hide IsRun;
  }

  /** However the workers interleave, and however many there are, a finished tournament comes to the same. */
  lemma ScheduleDoesNotMatter(env: Environment, variants: nat, c: Option<int>, c': Option<int>,
                              states: seq<Pool>, schedule: seq<nat>, states': seq<Pool>, schedule': seq<nat>)
    requires IsRun(env, states, schedule) && states[0] == Init(variants, c) && AllDone(states[|schedule|])
    requires IsRun(env, states', schedule') && states'[0] == Init(variants, c') && AllDone(states'[|schedule'|])
    ensures Conclude(states[|schedule|]) == Conclude(states'[|schedule'|])
  {
    hide IsOutcome, Conclude, Advance, Expected, AllDone;
    FinishedTournament(env, variants, c, states, schedule);
    FinishedTournament(env, variants, c', states', schedule');
    OutcomeIsUnique(env, variants, Conclude(states[|schedule|]), Conclude(states'[|schedule'|]));
  }
}
