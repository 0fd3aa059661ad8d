/** `commitWithRetry` and `resampleAfterBlockedCommit` of src/Turn.ts, with src/turn/RetryController.ts. */
module TurnCommit {
  import opened Outcomes
  import opened Conversation
  import opened TurnLoop

  datatype RetryKind = BeforeCommitBlocked | StructuredOutputInvalid | MaxAttemptsExceeded

  datatype CommitResult =
    | Committed
    | Blocked(retryable: bool, kind: RetryKind, reason: string, finalText: string, stopReason: Option<string>)

  /** What the world answers in one attempt; `built` are the messages made anew when there is no base to retry from. */
  datatype Attempt = Attempt(commit: CommitResult, recorded: bool, built: seq<Message>, rounds: nat -> Round)

  datatype Conclusion = CommittedAt(attempt: int) | CommitBlocked(reason: string) | LedgerFailed | ResampleFailed(why: Why) | Exhausted

  function HiddenMessage(reason: string): string {
    "Your previous draft was blocked by a runtime verifier. Reason: " + reason
  }

  // ---- Sampling again after a blocked commit

  /** A text block without text is not sent back. */
  function NonEmpty(blocks: seq<Block>): seq<Block> {
    if blocks == [] then []
    else
      var last := blocks[|blocks| - 1];
      NonEmpty(blocks[..|blocks| - 1]) + (if last.TextBlock? && last.text == "" then [] else [last])
  }

  function FailedBlocks(v: TurnState, failedText: string): seq<Block> {
    FinalBlocks(NonEmpty(if v.emitted != [] then v.emitted else if failedText != "" then [TextBlock(failedText)] else []))
  }

  /** The rejected draft is dropped before anything else is sampled. */
  function ResampleStart(v: TurnState, failedText: string, hidden: string, built: seq<Message>): TurnState {
    var base := if v.retryBase != [] then v.retryBase else PushAssistant(built, FailedBlocks(v, failedText));
    v.(iter := 0, emitted := [], canonical := if v.canonical == [] then [] else v.canonical[..|v.canonical| - 1],
       forceNoThinking := false, messages := PushUser(base, hidden))
  }

  /** The loop body: no interrupt checks, no guards, and a hook that skips ends it. */
  function ResampleRound(v: TurnState, r: Round): Flow {
    match r.hook(v.messages)
    case BlockedBy(reason) => Ends(Threw(HookBlocked(reason)), v)
    case Skip => Ends(Returned, v)
    case Proceed(messages) =>
      var u := v.(messages := messages, prompts := v.prompts + [Prompt(messages, v.forceNoThinking)]);
      if r.fault == Some(InStream) then Ends(Threw(Faulted), u) else ResampleReply(u, r)
  }

  function ResampleReply(v: TurnState, r: Round): Flow {
    var u := v.(forceNoThinking := false, emitted := v.emitted + r.blocks, canonical := v.canonical + [Normalize(r.blocks)]);
    match HandleStop(r.stopReason, r.blocks, u.recoveryAttempt, u.messages)
    case Finalise =>
      Ends(Returned, ApplyFinal(u, r.blocks).(retryBase := PushAssistant(u.messages, FinalBlocks(r.blocks))))
    case Recover(messages) => Again(u.(messages := messages, recoveryAttempt := u.recoveryAttempt + 1))
    case RunTools(_) =>
      match r.dispatch
      case UnknownToolLoop => Ends(Threw(UnknownTools), u)
      case DispatchFailed => Ends(Threw(ToolsFailed), u)
      case Dispatched(results) =>
        Again(u.(iter := u.iter + 1,
                 messages := u.messages + [Message(Assistant, Blocks(Normalize(r.blocks))), Message(User, Blocks(results))]))
  }

  function ResamplesLeft(v: TurnState, max: nat): nat {
    Minus(max, v.iter) + Minus(RECOVERY_LIMIT, v.recoveryAttempt)
  }

  lemma ResampleUsesARound(v: TurnState, r: Round, max: nat)
    requires v.iter < max
    ensures var f := ResampleRound(v, r);
            && (f.Again? ==> ResamplesLeft(f.state, max) == ResamplesLeft(v, max) - 1 && |f.state.prompts| == |v.prompts| + 1)
            && (f.Ends? ==> f.state.recoveryAttempt == v.recoveryAttempt)
            && |v.prompts| <= |f.state.prompts| <= |v.prompts| + 1
  {
    hide ToolUses, WithoutToolUses, Normalize, FinalBlocks, PushAssistant, PushUser;
  }

  function ResampleRun(v: TurnState, rounds: nat -> Round, k: nat, max: nat): (TurnState, Ending)
    decreases ResamplesLeft(v, max)
  {
    if v.iter >= max then (v, Threw(IterationLimit))
    else
      ResampleUsesARound(v, rounds(k), max);
      match ResampleRound(v, rounds(k))
      case Ends(ending, u) => (u, ending)
      case Again(u) => ResampleRun(u, rounds, k + 1, max)
  }

  lemma {:induction false} ResampleCalls(v: TurnState, rounds: nat -> Round, k: nat, max: nat)
    ensures var u := ResampleRun(v, rounds, k, max).0;
            |u.prompts| + Minus(RECOVERY_LIMIT, u.recoveryAttempt) <= |v.prompts| + ResamplesLeft(v, max)
    decreases ResamplesLeft(v, max)
  {
    if v.iter < max {
      hide ResampleRound;
      ResampleUsesARound(v, rounds(k), max);
      var f := ResampleRound(v, rounds(k));
      if f.Again? { ResampleCalls(f.state, rounds, k + 1, max); }
    }
  }

  // ---- Committing

  /** The start of the placeholder. */
  const RETRY_FAILED: string := "A runtime verifier blocked the previous draft"

  /** The whole of `resampleAfterBlockedCommit`. */
  function Resampled(v: TurnState, finalText: string, reason: string, a: Attempt, max: nat): (TurnState, Ending) {
    ResampleRun(ResampleStart(v, finalText, HiddenMessage(reason), a.built), a.rounds, 0, max)
  }

  /** `next` of the retry controller. */
  predicate Aborts(kind: RetryKind, attempt: int, maxAttempts: int) {
    kind == MaxAttemptsExceeded || attempt >= maxAttempts
  }

  /** The loop of `commitWithRetry` from `attempt` on. */
  function CommitRun(v: TurnState, attempts: int -> Attempt, attempt: int, maxAttempts: int, max: nat): (TurnState, Conclusion)
    decreases if attempt <= maxAttempts then maxAttempts - attempt + 1 else 0
  {
    if attempt > maxAttempts then (v, Exhausted)
    else
      var a := attempts(attempt);
      match a.commit
      case Committed => (v, CommittedAt(attempt))
      case Blocked(retryable, kind, reason, finalText, stopReason) =>
        if !retryable then (if stopReason.Some? then v.(stopReason := stopReason) else v, CommitBlocked(reason))
        else if Aborts(kind, attempt, maxAttempts) then
          (if kind == StructuredOutputInvalid then v.(stopReason := Some("structured_output_retry_exhausted")) else v, CommitBlocked(reason))
        else if !a.recorded then (v, LedgerFailed)
        else
          var (u, ending) := Resampled(v, finalText, reason, a, max);
          if ending.Threw? then (u.(emitted := u.emitted + [TextBlock(RETRY_FAILED)]), ResampleFailed(ending.why))
          else CommitRun(u, attempts, attempt + 1, maxAttempts, max)
  }

  /** With at least one attempt the loop never runs out of attempts: the last one aborts. */
  lemma {:induction false} NeverExhausted(v: TurnState, attempts: int -> Attempt, attempt: int, maxAttempts: int, max: nat)
    requires attempt <= maxAttempts
    ensures CommitRun(v, attempts, attempt, maxAttempts, max).1 != Exhausted
    ensures CommitRun(v, attempts, attempt, maxAttempts, max).1.CommittedAt? ==>
              var n := CommitRun(v, attempts, attempt, maxAttempts, max).1.attempt;
              attempt <= n <= maxAttempts && attempts(n).commit == Committed
    decreases maxAttempts - attempt
  {
    hide Resampled;
    var a := attempts(attempt);
    if a.commit.Blocked? && a.commit.retryable && !Aborts(a.commit.kind, attempt, maxAttempts) && a.recorded {
      var (u, ending) := Resampled(v, a.commit.finalText, a.commit.reason, a, max);
      if ending.Returned? { NeverExhausted(u, attempts, attempt + 1, maxAttempts, max); }
    }
  }

  /** The turn at the start of attempt `n`, if every one from `attempt` on before it was blocked and sampled anew. */
  function StateAt(v: TurnState, attempts: int -> Attempt, attempt: int, n: int, max: nat): TurnState
    decreases n - attempt
  {
    if n <= attempt then v
    else
      var before := StateAt(v, attempts, attempt, n - 1, max);
      var a := attempts(n - 1);
      if a.commit.Blocked? then Resampled(before, a.commit.finalText, a.commit.reason, a, max).0 else before
  }

  lemma {:induction false} StateAtMoves(v: TurnState, attempts: int -> Attempt, attempt: int, n: int, max: nat)
    requires attempt < n && attempts(attempt).commit.Blocked?
    ensures var a := attempts(attempt);
            StateAt(v, attempts, attempt, n, max)
            == StateAt(Resampled(v, a.commit.finalText, a.commit.reason, a, max).0, attempts, attempt + 1, n, max)
    decreases n - attempt
  {
    hide Resampled;
    if n > attempt + 1 { StateAtMoves(v, attempts, attempt, n - 1, max); }
  }

  /** Attempt `n` is blocked and tried again: nothing speaks against it, and sampling anew returns. */
  ghost predicate IsRetried(v: TurnState, attempts: int -> Attempt, attempt: int, n: int, maxAttempts: int, max: nat) {
    var a := attempts(n);
    && a.commit.Blocked? && a.commit.retryable && a.commit.kind != MaxAttemptsExceeded && n < maxAttempts && a.recorded
    && Resampled(StateAt(v, attempts, attempt, n, max), a.commit.finalText, a.commit.reason, a, max).1 == Returned
  }

  /** How the loop ends at an attempt that is not tried again, in state `w`. */
  ghost predicate EndsWith(w: TurnState, a: Attempt, n: int, maxAttempts: int, max: nat, u: TurnState, conclusion: Conclusion) {
    match a.commit
    case Committed => u == w && conclusion == CommittedAt(n)
    case Blocked(retryable, kind, reason, finalText, stopReason) =>
      if !retryable then
        u == w.(stopReason := if stopReason.Some? then stopReason else w.stopReason) && conclusion == CommitBlocked(reason)
      else if kind == MaxAttemptsExceeded || n >= maxAttempts then
        && conclusion == CommitBlocked(reason)
        && u == w.(stopReason := if kind == StructuredOutputInvalid then Some("structured_output_retry_exhausted") else w.stopReason)
      else if !a.recorded then u == w && conclusion == LedgerFailed
      else
        var (sampled, ending) := Resampled(w, finalText, reason, a, max);
        ending.Threw? && conclusion == ResampleFailed(ending.why)
        && u == sampled.(emitted := sampled.emitted + [TextBlock("A runtime verifier blocked the previous draft")])
  }

  /** The loop ends at the first attempt that is not tried again, as that attempt has it. */
  lemma {:induction false} CommitEndsAt(v: TurnState, attempts: int -> Attempt, attempt: int, maxAttempts: int, max: nat) returns (n: int)
    requires attempt <= maxAttempts
    ensures attempt <= n <= maxAttempts && !IsRetried(v, attempts, attempt, n, maxAttempts, max)
    ensures forall j :: attempt <= j < n ==> IsRetried(v, attempts, attempt, j, maxAttempts, max)
    ensures var (u, conclusion) := CommitRun(v, attempts, attempt, maxAttempts, max);
            EndsWith(StateAt(v, attempts, attempt, n, max), attempts(n), n, maxAttempts, max, u, conclusion)
    decreases maxAttempts - attempt
  {
    hide Resampled;
    n := attempt;
    if IsRetried(v, attempts, attempt, attempt, maxAttempts, max) {
      var a := attempts(attempt);
      var u := Resampled(v, a.commit.finalText, a.commit.reason, a, max).0;
      n := CommitEndsAt(u, attempts, attempt + 1, maxAttempts, max);
      forall j | attempt < j <= n
        ensures StateAt(v, attempts, attempt, j, max) == StateAt(u, attempts, attempt + 1, j, max)
        ensures IsRetried(v, attempts, attempt, j, maxAttempts, max) == IsRetried(u, attempts, attempt + 1, j, maxAttempts, max)
      {
        StateAtMoves(v, attempts, attempt, j, max);
      }
      hide IsRetried;
    }
  }

  /** The turn is committed at attempt `n` exactly when that attempt commits and all before it are tried again. */
  lemma CommitsExactlyWhen(v: TurnState, attempts: int -> Attempt, attempt: int, maxAttempts: int, max: nat, n: int)
    requires attempt <= maxAttempts
    ensures CommitRun(v, attempts, attempt, maxAttempts, max).1 == CommittedAt(n) <==>
            && attempt <= n <= maxAttempts && attempts(n).commit == Committed
            && forall j :: attempt <= j < n ==> IsRetried(v, attempts, attempt, j, maxAttempts, max)
  {
    hide CommitRun, StateAt, Resampled;
    var m := CommitEndsAt(v, attempts, attempt, maxAttempts, max);
    if attempt <= n <= maxAttempts && attempts(n).commit == Committed
       && forall j :: attempt <= j < n ==> IsRetried(v, attempts, attempt, j, maxAttempts, max) {
      assert !IsRetried(v, attempts, attempt, n, maxAttempts, max);
    }
  }

  lemma StartKeeps(v: TurnState, failedText: string, hidden: string, built: seq<Message>)
    ensures var u := ResampleStart(v, failedText, hidden, built);
            u.prompts == v.prompts && u.recoveryAttempt == v.recoveryAttempt && u.iter == 0 && u.emitted == []
  {
  }

  lemma ResampledCalls(v: TurnState, finalText: string, reason: string, a: Attempt, max: nat)
    ensures var u := Resampled(v, finalText, reason, a, max).0;
            |u.prompts| + Minus(RECOVERY_LIMIT, u.recoveryAttempt) <= |v.prompts| + max + Minus(RECOVERY_LIMIT, v.recoveryAttempt)
  {
    hide ResampleStart, ResampleRun, HiddenMessage;
    StartKeeps(v, finalText, HiddenMessage(reason), a.built);
    ResampleCalls(ResampleStart(v, finalText, HiddenMessage(reason), a.built), a.rounds, 0, max);
  }

  /** Each retry brings at most one more run of the iteration limit; the recoveries are shared by all of them. */
  lemma {:induction false} CommitCalls(v: TurnState, attempts: int -> Attempt, attempt: int, maxAttempts: int, max: nat)
    requires attempt <= maxAttempts
    ensures |CommitRun(v, attempts, attempt, maxAttempts, max).0.prompts|
            <= |v.prompts| + (maxAttempts - attempt) * max + Minus(RECOVERY_LIMIT, v.recoveryAttempt)
    decreases maxAttempts - attempt
  {
    hide Resampled, ResamplesLeft;
    var a := attempts(attempt);
    if a.commit.Blocked? && a.commit.retryable && !Aborts(a.commit.kind, attempt, maxAttempts) && a.recorded {
      ResampledCalls(v, a.commit.finalText, a.commit.reason, a, max);
      var (u, ending) := Resampled(v, a.commit.finalText, a.commit.reason, a, max);
      assert (maxAttempts - attempt) * max == (maxAttempts - attempt - 1) * max + max;
      MoreRuns(maxAttempts - attempt - 1, max);
      if ending.Returned? { CommitCalls(u, attempts, attempt + 1, maxAttempts, max); }
    } else {
      MoreRuns(maxAttempts - attempt, max);
    }
  }

  lemma MoreRuns(n: nat, max: nat)
    ensures n * max >= 0
  {
  }

  /** A whole turn, executed and committed with three attempts, makes at most 3 * MAX_ITERATIONS + 9 model calls. */
  lemma WholeTurnIsBounded(world: nat -> Round, looksTruncated: string -> bool, messages: seq<Message>, attempts: int -> Attempt, max: nat)
    requires Run(NEW_TURN.(messages := messages), world, 0, looksTruncated, max).1 == Returned
    ensures var executed := Run(NEW_TURN.(messages := messages), world, 0, looksTruncated, max).0;
            |CommitRun(executed, attempts, 1, 3, max).0.prompts| <= 3 * max + 9
  {
    hide Run, CommitRun;
    var start := NEW_TURN.(messages := messages);
    CallsAreBounded(start, world, 0, looksTruncated, max);
    CommitCalls(Run(start, world, 0, looksTruncated, max).0, attempts, 1, 3, max);
  }

  // ---- Whether a committed turn has text

  lemma {:induction false} OthersHoldTheText(blocks: seq<Block>)
    ensures HasText(WithoutToolUses(blocks)) <==> HasText(blocks)
  {
    if blocks != [] {
      var before, last := blocks[..|blocks| - 1], blocks[|blocks| - 1];
      OthersHoldTheText(before);
      TextOfConcat(before, [last]);
      assert before + [last] == blocks;
      TextOfConcat(WithoutToolUses(before), if last.ToolUse? then [] else [last]);
      assert HasText([last]) <==> last.TextBlock? by { assert [last][0] == last; }
    }
  }

  lemma TextOfConcat(a: seq<Block>, b: seq<Block>)
    ensures HasText(a + b) <==> HasText(a) || HasText(b)
  {
    if HasText(a) {
      var k :| 0 <= k < |a| && a[k].TextBlock?;
      assert (a + b)[k].TextBlock?;
    }
    if HasText(b) {
      var k :| 0 <= k < |b| && b[k].TextBlock?;
      assert (a + b)[|a| + k].TextBlock?;
    }
  }

  /** Taking the tool uses out of a reply leaves its text. */
  lemma FinalHoldsTheText(blocks: seq<Block>)
    ensures HasText(FinalBlocks(blocks)) <==> HasText(blocks)
  {
    hide HasText, WithoutToolUses;
    OthersHoldTheText(Normalize(blocks));
    OthersHoldTheText(blocks);
    TextOfConcat(WithoutToolUses(blocks), ToolUses(blocks));
    assert !HasText(ToolUses(blocks)) by { UsesAreNoText(ToolUses(blocks)); }
  }

  lemma UsesAreNoText(blocks: seq<Block>)
    requires forall k :: 0 <= k < |blocks| ==> blocks[k].ToolUse?
    ensures !HasText(blocks)
  {
  }

  lemma FinalEmits(v: TurnState, before: seq<Block>, blocks: seq<Block>)
    requires v.emitted == before + blocks
    ensures ApplyFinal(v, blocks).emitted == before + FinalBlocks(blocks)
  {
    hide FinalBlocks;
    if blocks == [] {
      NothingIsFinal();
      assert before + [] == before;
    } else {
      assert (before + blocks)[..|before|] == before;
    }
  }

  lemma NothingIsFinal()
    ensures FinalBlocks([]) == []
  {
  }

  lemma ReplyEmits(v: TurnState, r: Round)
    ensures var f := ResampleReply(v, r); var u := f.state;
            f.Again? || f.ending == Returned ==>
              u.prompts == v.prompts && (HasText(u.emitted) <==> HasText(v.emitted) || HasText(r.blocks))
  {
    hide HasText, FinalBlocks, ToolUses, WithoutToolUses, Normalize, PushAssistant, PushUser;
    FinalHoldsTheText(r.blocks);
    TextOfConcat(v.emitted, r.blocks);
    TextOfConcat(v.emitted, FinalBlocks(r.blocks));
    var u := v.(forceNoThinking := false, emitted := v.emitted + r.blocks, canonical := v.canonical + [Normalize(r.blocks)]);
    FinalEmits(u, v.emitted, r.blocks);
    FinalKeepsMessages(u, r.blocks);
    hide ApplyFinal;
  }

  /** One round of a resample that does not throw: one model call and its text, or a skip. */
  lemma ResampleEmits(v: TurnState, r: Round)
    ensures var f := ResampleRound(v, r); var u := f.state;
            f.Again? || f.ending == Returned ==>
              if |u.prompts| == |v.prompts| then f.Ends? && u.emitted == v.emitted
              else |u.prompts| == |v.prompts| + 1 && (HasText(u.emitted) <==> HasText(v.emitted) || HasText(r.blocks))
  {
    hide HasText, ResampleReply;
    match r.hook(v.messages) {
      case Proceed(messages) => ReplyEmits(v.(messages := messages, prompts := v.prompts + [Prompt(messages, v.forceNoThinking)]), r);
      case _ =>
    }
  }

  /** Some of the `n` replies sampled from round `k` on has a text block. */
  predicate SampledText(rounds: nat -> Round, k: nat, n: nat) {
    exists j :: k <= j < k + n && HasText(rounds(j).blocks)
  }

  lemma OneMoreReply(rounds: nat -> Round, k: nat, n: nat)
    ensures SampledText(rounds, k, n + 1) <==> HasText(rounds(k).blocks) || SampledText(rounds, k + 1, n)
  {
    hide HasText;
    if SampledText(rounds, k, n + 1) {
      var j :| k <= j < k + n + 1 && HasText(rounds(j).blocks);
      assert j == k || k + 1 <= j < k + 1 + n;
    }
  }

  lemma {:induction false} ResampledText(v: TurnState, rounds: nat -> Round, k: nat, max: nat)
    requires ResampleRun(v, rounds, k, max).1 == Returned
    ensures var u := ResampleRun(v, rounds, k, max).0;
            |u.prompts| >= |v.prompts| && (HasText(u.emitted) <==> HasText(v.emitted) || SampledText(rounds, k, |u.prompts| - |v.prompts|))
    decreases ResamplesLeft(v, max)
  {
    hide ResampleRound, HasText, SampledText;
    ResampleUsesARound(v, rounds(k), max);
    ResampleEmits(v, rounds(k));
    var f := ResampleRound(v, rounds(k));
    if f.Again? {
      ResampledText(f.state, rounds, k + 1, max);
      OneMoreReply(rounds, k, |ResampleRun(f.state, rounds, k + 1, max).0.prompts| - |f.state.prompts|);
    } else {
      OneMoreReply(rounds, k, 0);
      assert !SampledText(rounds, k, 0) && !SampledText(rounds, k + 1, 0) by { NoReplies(rounds, k); NoReplies(rounds, k + 1); }
    }
  }

  lemma NoReplies(rounds: nat -> Round, k: nat)
    ensures !SampledText(rounds, k, 0)
  {
  }

  /** What is committed at attempt `n` is the turn at its start, and its last retry has returned. */
  lemma {:induction false} CommittedState(v: TurnState, attempts: int -> Attempt, attempt: int, maxAttempts: int, max: nat)
    requires CommitRun(v, attempts, attempt, maxAttempts, max).1.CommittedAt?
    ensures var n := CommitRun(v, attempts, attempt, maxAttempts, max).1.attempt;
            && attempt <= n <= maxAttempts && CommitRun(v, attempts, attempt, maxAttempts, max).0 == StateAt(v, attempts, attempt, n, max)
            && (attempt < n ==>
                  var a := attempts(n - 1);
                  a.commit.Blocked?
                  && Resampled(StateAt(v, attempts, attempt, n - 1, max), a.commit.finalText, a.commit.reason, a, max).1 == Returned)
    decreases if attempt <= maxAttempts then maxAttempts - attempt + 1 else 0
  {
    hide Resampled;
    var a := attempts(attempt);
    if a.commit.Blocked? {
      var n := CommitRun(v, attempts, attempt, maxAttempts, max).1.attempt;
      var u := Resampled(v, a.commit.finalText, a.commit.reason, a, max).0;
      CommittedState(u, attempts, attempt + 1, maxAttempts, max);
      StateAtMoves(v, attempts, attempt, n, max);
      if attempt + 1 < n { StateAtMoves(v, attempts, attempt, n - 1, max); }
    }
  }

  /**
   A turn that was executed normally and then committed has a text block if and only if no retry was needed, or some
   reply of the last retry has one: the guards that see to it in the turn's own loop are not in the retry's.
   */
  lemma CommittedTextExactlyWhen(world: nat -> Round, looksTruncated: string -> bool, messages: seq<Message>, attempts: int -> Attempt, max: nat)
    requires Run(NEW_TURN.(messages := messages), world, 0, looksTruncated, max).1 == Returned
    requires CommitRun(Run(NEW_TURN.(messages := messages), world, 0, looksTruncated, max).0, attempts, 1, 3, max).1.CommittedAt?
    ensures var executed := Run(NEW_TURN.(messages := messages), world, 0, looksTruncated, max).0;
            var (u, conclusion) := CommitRun(executed, attempts, 1, 3, max);
            var n := conclusion.attempt;
            if n == 1 then HasText(u.emitted)
            else
              var calls := |u.prompts| - |StateAt(executed, attempts, 1, n - 1, max).prompts|;
              n > 1 && calls >= 0 && (HasText(u.emitted) <==> SampledText(attempts(n - 1).rounds, 0, calls))
  {
    hide Run, CommitRun, ResampleRun, ResampleStart, HiddenMessage, SampledText, HasText;
    var start := NEW_TURN.(messages := messages);
    var executed := Run(start, world, 0, looksTruncated, max).0;
    var n := CommitRun(executed, attempts, 1, 3, max).1.attempt;
    CommittedState(executed, attempts, 1, 3, max);
    if n == 1 {
      var last := ReturnsFromAFinalReply(start, world, 0, looksTruncated, max);
    } else {
      var a, w := attempts(n - 1), StateAt(executed, attempts, 1, n - 1, max);
      StartKeeps(w, a.commit.finalText, HiddenMessage(a.commit.reason), a.built);
      ResampledText(ResampleStart(w, a.commit.finalText, HiddenMessage(a.commit.reason), a.built), a.rounds, 0, max);
      assert !HasText([]) by { UsesAreNoText([]); }
    }
  }

  /** An ending reply ends a retry whatever is in it, and whether or not messages wait to be injected. */
  lemma RetryAcceptsAnyReply(v: TurnState, rounds: nat -> Round, max: nat)
    requires v.iter < max && v.emitted == [] && rounds(0).hook(v.messages).Proceed? && rounds(0).fault == None
    requires rounds(0).stopReason == "end_turn"
    ensures var (u, ending) := ResampleRun(v, rounds, 0, max);
            ending == Returned && u.emitted == FinalBlocks(rounds(0).blocks)
  {
    var r, messages := rounds(0), rounds(0).hook(v.messages).messages;
    var called := v.(messages := messages, prompts := v.prompts + [Prompt(messages, v.forceNoThinking)]);
    var u := called.(forceNoThinking := false, emitted := v.emitted + r.blocks, canonical := v.canonical + [Normalize(r.blocks)]);
    FinalEmits(u, [], r.blocks);
    hide FinalBlocks, Normalize, PushAssistant, ApplyFinal;
  }

  /** So a turn is committed without a single block: its first draft is blocked, and the retry's reply is empty. */
  lemma EmptyReplyIsCommitted(v: TurnState, attempts: int -> Attempt, max: nat)
    requires max > 0 && attempts(2).commit == Committed
    requires var a := attempts(1);
             && a.commit.Blocked? && a.commit.retryable && a.commit.kind == BeforeCommitBlocked && a.recorded
             && a.rounds(0).fault == None && a.rounds(0).blocks == [] && a.rounds(0).stopReason == "end_turn"
             && forall ms :: a.rounds(0).hook(ms).Proceed?
    ensures CommitRun(v, attempts, 1, 3, max).1 == CommittedAt(2) && CommitRun(v, attempts, 1, 3, max).0.emitted == []
  {
    hide ResampleRun, ResampleStart, HiddenMessage, FinalBlocks;
    var a := attempts(1);
    StartKeeps(v, a.commit.finalText, HiddenMessage(a.commit.reason), a.built);
    RetryAcceptsAnyReply(ResampleStart(v, a.commit.finalText, HiddenMessage(a.commit.reason), a.built), a.rounds, max);
    NothingIsFinal();
  }

  // ---- Tool uses stay answered

  /** What the turn holds is answered, and what it was sent was. */
  ghost predicate Sound(v: TurnState) {
    Answered(v.messages) && Answered(v.retryBase) && PromptsAnswered(v)
  }

  lemma ResampleReplyKeepsAnswers(v: TurnState, r: Round)
    requires Answered(v.messages) && Answered(v.retryBase) && FairRound(r)
    ensures var u := ResampleReply(v, r).state; Answered(u.messages) && Answered(u.retryBase) && u.prompts == v.prompts
  {
    hide Answered, FairRound, ApplyFinal, ToolUses, WithoutToolUses, Normalize, PushAssistant, PushUser, FinalBlocks;
    var u := v.(forceNoThinking := false, emitted := v.emitted + r.blocks, canonical := v.canonical + [Normalize(r.blocks)]);
    PushKeepsAnswers(u.messages, WithoutToolUses(r.blocks), "Continue.");
    FinalHasNoUses(r.blocks);
    PushKeepsAnswers(u.messages, FinalBlocks(r.blocks), "");
    FinalKeepsMessages(u, r.blocks);
    if ToolUses(r.blocks) != [] { ToolRoundKeepsAnswers(u, r.(fault := None)) by { FaultDoesNotMatter(r); } }
  }

  lemma FaultDoesNotMatter(r: Round)
    requires FairRound(r)
    ensures FairRound(r.(fault := None))
  {
  }

  lemma ResampleRoundKeepsAnswers(v: TurnState, r: Round)
    requires Sound(v) && FairRound(r)
    ensures Sound(ResampleRound(v, r).state)
  {
    hide Answered, ResampleReply;
    match r.hook(v.messages) {
      case Proceed(messages) =>
        assert Answered(messages);
        ResampleReplyKeepsAnswers(v.(messages := messages, prompts := v.prompts + [Prompt(messages, v.forceNoThinking)]), r);
      case _ =>
    }
  }

  lemma {:induction false} ResampleKeepsAnswers(v: TurnState, rounds: nat -> Round, k: nat, max: nat)
    requires Sound(v) && forall j :: FairRound(rounds(j))
    ensures Sound(ResampleRun(v, rounds, k, max).0)
    decreases ResamplesLeft(v, max)
  {
    hide Sound, FairRound;
    if v.iter < max {
      hide ResampleRound;
      ResampleUsesARound(v, rounds(k), max);
      ResampleRoundKeepsAnswers(v, rounds(k));
      var f := ResampleRound(v, rounds(k));
      if f.Again? { ResampleKeepsAnswers(f.state, rounds, k + 1, max); }
    }
  }

  lemma ResampleStartKeepsAnswers(v: TurnState, failedText: string, hidden: string, built: seq<Message>)
    requires Sound(v) && Answered(built)
    ensures Sound(ResampleStart(v, failedText, hidden, built))
  {
    hide Answered, FailedBlocks, PushAssistant, PushUser, HiddenMessage;
    var failed := FailedBlocks(v, failedText);
    FailedHasNoUses(v, failedText);
    PushKeepsAnswers(built, failed, hidden);
    PushKeepsAnswers(v.retryBase, [], hidden);
  }

  lemma FailedHasNoUses(v: TurnState, failedText: string)
    ensures forall k :: 0 <= k < |FailedBlocks(v, failedText)| ==> !FailedBlocks(v, failedText)[k].ToolUse?
  {
  }

  ghost predicate FairAttempts(attempts: int -> Attempt) {
    forall n :: Answered(attempts(n).built) && forall j :: FairRound(attempts(n).rounds(j))
  }

  /** Every prompt of the retries answers every tool use in it. */
  lemma {:induction false} CommitKeepsAnswers(v: TurnState, attempts: int -> Attempt, attempt: int, maxAttempts: int, max: nat)
    requires Sound(v) && FairAttempts(attempts)
    ensures PromptsAnswered(CommitRun(v, attempts, attempt, maxAttempts, max).0)
    decreases if attempt <= maxAttempts then maxAttempts - attempt + 1 else 0
  {
    hide ResampleRun, ResampleStart, HiddenMessage, FairRound, Answered;
    var a := attempts(attempt);
    if attempt <= maxAttempts && a.commit.Blocked? && a.commit.retryable && !Aborts(a.commit.kind, attempt, maxAttempts) && a.recorded {
      ResampleStartKeepsAnswers(v, a.commit.finalText, HiddenMessage(a.commit.reason), a.built);
      ResampleKeepsAnswers(ResampleStart(v, a.commit.finalText, HiddenMessage(a.commit.reason), a.built), a.rounds, 0, max);
      var (u, ending) := Resampled(v, a.commit.finalText, a.commit.reason, a, max);
      if ending.Returned? { CommitKeepsAnswers(u, attempts, attempt + 1, maxAttempts, max); }
    }
  }

  // ---- The turn object

  lemma StartForgets(v: TurnState, iter: nat, messages: seq<Message>, failedText: string, hidden: string, built: seq<Message>)
    ensures ResampleStart(v.(iter := iter, messages := messages), failedText, hidden, built) == ResampleStart(v, failedText, hidden, built)
  {
  }

  method StartResample(turn: Turn, failedText: string, hidden: string, built: seq<Message>) returns (messages: seq<Message>)
    modifies turn
    ensures turn.View(0, messages) == ResampleStart(old(turn.View(0, [])), failedText, hidden, built)
  {
    hide FinalBlocks, FailedBlocks;
    var failed := FailedBlocks(turn.View(0, []), failedText);
    turn.emittedAssistantBlocks := [];
    if turn.canonicalAssistantMessages != [] {
      turn.canonicalAssistantMessages := turn.canonicalAssistantMessages[..|turn.canonicalAssistantMessages| - 1];
    }
    turn.forceNoThinking := false;
    messages := PushUser(if turn.retryBaseMessages != [] then turn.retryBaseMessages else PushAssistant(built, failed), hidden);
  }

  method ResampleAfterBlockedCommit(turn: Turn, failedText: string, hidden: string, built: seq<Message>, rounds: nat -> Round, max: nat)
    returns (ending: Ending, iter: nat, messages: seq<Message>)
    modifies turn
    ensures (turn.View(iter, messages), ending) ==
            ResampleRun(ResampleStart(old(turn.View(0, [])), failedText, hidden, built), rounds, 0, max)
  {
    hide ResampleReply, ResamplesLeft, ResampleStart;
    messages := StartResample(turn, failedText, hidden, built);
    iter := 0;
    var k: nat := 0;
    ghost var start := turn.View(0, messages);
    while iter < max
      invariant ResampleRun(turn.View(iter, messages), rounds, k, max) == ResampleRun(start, rounds, 0, max)
      decreases ResamplesLeft(turn.View(iter, messages), max)
    {
      var r := rounds(k);
      ResampleUsesARound(turn.View(iter, messages), r, max);
      var hooked := r.hook(messages);
      if hooked.BlockedBy? {
        return Threw(HookBlocked(hooked.reason)), iter, messages;
      }
      if hooked.Skip? {
        return Returned, iter, messages;
      }
      messages := hooked.messages;
      turn.prompts := turn.prompts + [Prompt(messages, turn.forceNoThinking)];
      if r.fault == Some(InStream) {
        return Threw(Faulted), iter, messages;
      }
      var exit;
      exit, iter, messages := TakeResample(turn, r, iter, messages);
      if exit.Leave? {
        return exit.ending, iter, messages;
      }
      k := k + 1;
    }
    ending := Threw(IterationLimit);
  }

  method TakeResample(turn: Turn, r: Round, iter0: nat, messages0: seq<Message>)
    returns (exit: Exit, iter: nat, messages: seq<Message>)
    modifies turn
    ensures Matches(ResampleReply(old(turn.View(iter0, messages0)), r), exit, turn.View(iter, messages))
  {
    hide Normalize, HandleStop, ApplyFinal, FinalBlocks, PushAssistant;
    iter, messages := iter0, messages0;
    turn.forceNoThinking := false;
    turn.emittedAssistantBlocks := turn.emittedAssistantBlocks + r.blocks;
    turn.canonicalAssistantMessages := turn.canonicalAssistantMessages + [Normalize(r.blocks)];
    match HandleStop(r.stopReason, r.blocks, turn.recoveryAttempt, messages) {
      case Finalise =>
        var final := turn.ApplyFinalAssistantReplayBlocks(r.blocks, iter, messages);
        turn.retryBaseMessages := PushAssistant(messages, final);
        return Leave(Returned), iter, messages;
      case Recover(more) =>
        turn.recoveryAttempt := turn.recoveryAttempt + 1;
        return GoOn, iter, more;
      case RunTools(_) =>
        match r.dispatch {
          case UnknownToolLoop => return Leave(Threw(UnknownTools)), iter, messages;
          case DispatchFailed => return Leave(Threw(ToolsFailed)), iter, messages;
          case Dispatched(results) =>
            messages := messages + [Message(Assistant, Blocks(Normalize(r.blocks))), Message(User, Blocks(results))];
            return GoOn, iter + 1, messages;
        }
    }
  }

  method CommitWithRetry(turn: Turn, attempts: int -> Attempt, maxAttempts: int, max: nat, iter0: nat, messages0: seq<Message>)
    returns (conclusion: Conclusion, iter: nat, messages: seq<Message>)
    modifies turn
    ensures (turn.View(iter, messages), conclusion) == CommitRun(old(turn.View(iter0, messages0)), attempts, 1, maxAttempts, max)
  {
    hide ResampleRun, ResampleStart, HiddenMessage;
    iter, messages := iter0, messages0;
    var attempt := 1;
    while attempt <= maxAttempts
      invariant CommitRun(turn.View(iter, messages), attempts, attempt, maxAttempts, max)
             == CommitRun(old(turn.View(iter0, messages0)), attempts, 1, maxAttempts, max)
    {
      var a := attempts(attempt);
      if a.commit.Committed? {
        return CommittedAt(attempt), iter, messages;
      }
      if !a.commit.retryable {
        if a.commit.stopReason.Some? {
          turn.stopReason := a.commit.stopReason;
        }
        return CommitBlocked(a.commit.reason), iter, messages;
      }
      if Aborts(a.commit.kind, attempt, maxAttempts) {
        if a.commit.kind == StructuredOutputInvalid {
          turn.stopReason := Some("structured_output_retry_exhausted");
        }
        return CommitBlocked(a.commit.reason), iter, messages;
      }
      if !a.recorded {
        return LedgerFailed, iter, messages;
      }
      ghost var v := turn.View(iter, messages);
      StartForgets(v, 0, [], a.commit.finalText, HiddenMessage(a.commit.reason), a.built);
      var ending;
      ending, iter, messages :=
        ResampleAfterBlockedCommit(turn, a.commit.finalText, HiddenMessage(a.commit.reason), a.built, a.rounds, max);
      if ending.Threw? {
        turn.emittedAssistantBlocks := turn.emittedAssistantBlocks + [TextBlock(RETRY_FAILED)];
        return ResampleFailed(ending.why), iter, messages;
      }
      attempt := attempt + 1;
    }
    conclusion := Exhausted;
  }
}
