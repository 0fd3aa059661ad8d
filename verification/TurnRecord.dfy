/** What a turn of src/Turn.ts leaves behind: the blocks it has emitted, its canonical messages and its stop reason. */
module TurnRecord {
  import opened Outcomes
  import opened Conversation
  import opened TurnLoop
  import opened TurnCommit
  import opened TurnPrompts
  import Text

  /** The bound is the number the variable begins with if that is between 5 and 1000, and 200 otherwise: it is not clamped. */
  lemma MaxIterationsIs(before: string, sign: string, n: nat, rest: string)
    requires Text.Spaces(before) && sign in {"", "+", "-"} && (rest == [] || !Text.IsDigit(rest[0]))
    ensures MaxIterations(None) == 200
    ensures MaxIterations(Some(before + (sign + (Text.Decimal(n) + rest)))) == if sign != "-" && 5 <= n <= 1000 then n else 200
  {
    hide Text.Decimal, Text.ParseInt;
    Text.ParseIntReads(before, sign, n, rest);
  }

  /** A reply that should end the turn, when `cut` replies before it were cut off. */
  predicate IsFinal(r: Round, cut: nat) {
    !(IsCutOff(r) && cut < 3) && !AsksForTools(r)
  }

  function CutNow(r: Round, cut: nat): nat {
    if IsCutOff(r) && cut < 3 then cut + 1 else cut
  }

  /** Waiting messages take back what the user has seen of the draft. */
  function Emitted(before: seq<Block>, r: Round, cut: nat): seq<Block> {
    if !IsFinal(r, cut) then before + r.blocks
    else if r.pending then ClearDraft(before + WithoutToolUses(r.blocks))
    else before + WithoutToolUses(r.blocks)
  }

  /** What is emitted by `n` replies from round `k` on: of a final one all but its tool uses. */
  function AllEmitted(before: seq<Block>, world: nat -> Round, k: nat, n: nat, cut: nat): seq<Block>
    decreases n
  {
    if n == 0 then before
    else AllEmitted(Emitted(before, world(k), cut), world, k + 1, n - 1, CutNow(world(k), cut))
  }

  /** A message for each reply, its tool uses last, or left out of a final one. */
  function Canon(world: nat -> Round, k: nat, n: nat, cut: nat): seq<seq<Block>>
    decreases n
  {
    if n == 0 then []
    else [WithoutToolUses(world(k).blocks) + (if IsFinal(world(k), cut) then [] else ToolUses(world(k).blocks))]
         + Canon(world, k + 1, n - 1, CutNow(world(k), cut))
  }

  lemma NormalSplits(blocks: seq<Block>)
    ensures Normalize(blocks) == if ToolUses(blocks) == [] then blocks else WithoutToolUses(blocks) + ToolUses(blocks)
    ensures ToolUses(blocks) == [] ==> WithoutToolUses(blocks) == blocks
  {
    if ToolUses(blocks) == [] { NoUsesAtAll(blocks); }
  }

  lemma {:induction false} NoUsesAtAll(blocks: seq<Block>)
    requires ToolUses(blocks) == []
    ensures WithoutToolUses(blocks) == blocks
  {
    if blocks != [] { NoUsesAtAll(blocks[..|blocks| - 1]); }
  }

  /** What a reply leaves behind. */
  ghost predicate Records(v: TurnState, u: TurnState, r: Round) {
    && u.canonical == v.canonical + [WithoutToolUses(r.blocks) + (if IsFinal(r, v.recoveryAttempt) then [] else ToolUses(r.blocks))]
    && u.recoveryAttempt == CutNow(r, v.recoveryAttempt)
    && u.emitted == Emitted(v.emitted, r, v.recoveryAttempt)
  }

  lemma FinalRecords(v: TurnState, r: Round)
    ensures var u := v.(forceNoThinking := false, emitted := v.emitted + r.blocks, canonical := v.canonical + [Normalize(r.blocks)]);
            var w := ApplyFinal(u, r.blocks);
            w.canonical == v.canonical + [WithoutToolUses(r.blocks)] && w.emitted == v.emitted + WithoutToolUses(r.blocks)
  {
    FinalIsOthers(r.blocks);
    assert WithoutToolUses([]) == [];
    hide WithoutToolUses, FinalBlocks, Normalize;
    assert (v.emitted + r.blocks)[..|v.emitted|] == v.emitted;
    assert (v.canonical + [Normalize(r.blocks)])[..|v.canonical|] == v.canonical;
  }

  lemma GuardsRecord(v: TurnState, r: Round, looksTruncated: string -> bool)
    ensures var f := FinaliseRound(v, r, looksTruncated); var u := f.state;
            f.Again? || f.ending == Returned ==>
              && u.emitted == (if r.pending then ClearDraft(v.emitted) else v.emitted)
              && u.canonical == v.canonical && u.recoveryAttempt == v.recoveryAttempt
  {
    hide FinalBlocks, HasText, LastText, PushAssistant, PushUser, ClearDraft;
  }

  lemma ReplyRecords(v: TurnState, r: Round, looksTruncated: string -> bool)
    ensures var f := ReplyRound(v, r, looksTruncated); f.Again? || f.ending == Returned ==> Records(v, f.state, r)
  {
    hide FinaliseRound, Normalize, ToolUses, WithoutToolUses, FinalBlocks, PushAssistant, PushUser, ApplyFinal, ClearDraft;
    NormalSplits(r.blocks);
    var u := v.(forceNoThinking := false, emitted := v.emitted + r.blocks, canonical := v.canonical + [Normalize(r.blocks)]);
    FinalRecords(v, r);
    FinalKeepsRest(u, r.blocks);
    GuardsRecord(ApplyFinal(u, r.blocks), r, looksTruncated);
    assert WithoutToolUses(r.blocks) + [] == WithoutToolUses(r.blocks);
  }

  lemma RoundRecords(v: TurnState, r: Round, looksTruncated: string -> bool, max: nat)
    requires v.iter < max
    ensures var f := Iterate(v, r, looksTruncated);
            f.Again? || f.ending == Returned ==> Records(v, f.state, r) && |f.state.prompts| == |v.prompts| + 1
  {
    hide ReplyRound, AppendIdentity, Records;
    match r.hook(v.messages) {
      case Proceed(messages) =>
        var u := Calling(v, messages, r.identity);
        ReplyRecords(u, r, looksTruncated);
        ReplyUsesARound(u, r, looksTruncated, max);
        SameRecords(v, u, ReplyRound(u, r, looksTruncated).state, r);
      case _ =>
    }
  }

  lemma SameRecords(v: TurnState, u: TurnState, w: TurnState, r: Round)
    requires u.canonical == v.canonical && u.emitted == v.emitted && u.recoveryAttempt == v.recoveryAttempt
    ensures Records(u, w, r) <==> Records(v, w, r)
  {
  }

  /** A returned turn has emitted all its replies, and holds a canonical message for each of them. */
  lemma {:induction false} ReturnedRecord(v: TurnState, world: nat -> Round, k: nat, looksTruncated: string -> bool, max: nat)
    requires Run(v, world, k, looksTruncated, max).1 == Returned
    ensures var u := Run(v, world, k, looksTruncated, max).0;
            var calls := |u.prompts| - |v.prompts|;
            && calls > 0
            && u.emitted == AllEmitted(v.emitted, world, k, calls, v.recoveryAttempt)
            && u.canonical == v.canonical + Canon(world, k, calls, v.recoveryAttempt)
    decreases RoundsLeft(v, max)
  {
    hide Iterate, RoundsLeft, Emitted, IsFinal, CutNow;
    var r := world(k);
    AgainUsesARound(v, r, looksTruncated, max);
    RoundRecords(v, r, looksTruncated, max);
    var f := Iterate(v, r, looksTruncated);
    var message := WithoutToolUses(r.blocks) + (if IsFinal(r, v.recoveryAttempt) then [] else ToolUses(r.blocks));
    if f.Again? {
      ReturnedRecord(f.state, world, k + 1, looksTruncated, max);
      var calls := |Run(v, world, k, looksTruncated, max).0.prompts| - |v.prompts|;
      var later := Canon(world, k + 1, calls - 1, CutNow(r, v.recoveryAttempt));
      assert v.canonical + [message] + later == v.canonical + ([message] + later);
    } else {
      assert Canon(world, k, 1, v.recoveryAttempt) == [message] + [] == [message];
      assert AllEmitted(v.emitted, world, k, 1, v.recoveryAttempt) == Emitted(v.emitted, r, v.recoveryAttempt);
    }
  }

  /** Taking back a draft leaves no text and no thinking of it, and everything else; a draft without a character stays. */
  lemma {:induction false} ClearedDraft(blocks: seq<Block>, b: Block)
    ensures b in ClearDraft(blocks) <==> b in blocks && (Visible(blocks) ==> !b.TextBlock? && !b.Thinking?)
  {
    InvisibleHolds(blocks, b);
  }

  lemma {:induction false} InvisibleHolds(blocks: seq<Block>, b: Block)
    ensures b in Invisible(blocks) <==> b in blocks && !b.TextBlock? && !b.Thinking?
  {
    if blocks != [] {
      InvisibleHolds(blocks[..|blocks| - 1], b);
      assert blocks == blocks[..|blocks| - 1] + [blocks[|blocks| - 1]];
    }
  }

  // ---- Why a turn has ended

  /** The first final reply of `n` from round `k` on says whether replies before it were cut off. */
  function EndReason(world: nat -> Round, k: nat, n: nat, cut: nat): Option<string>
    decreases n
  {
    if n == 0 then None
    else if IsFinal(world(k), cut) then Some(if cut > 0 then "max_tokens_recovered" else "end_turn")
    else EndReason(world, k + 1, n - 1, CutNow(world(k), cut))
  }

  /** The stop reason after a round that goes on or returns. */
  function ReasonNow(v: TurnState, r: Round): Option<string> {
    if v.stopReason.Some? then v.stopReason
    else if IsFinal(r, v.recoveryAttempt) then Some(if v.recoveryAttempt > 0 then "max_tokens_recovered" else "end_turn")
    else None
  }

  /** What three kinds of failure leave as the stop reason. */
  predicate FailureReason(u: TurnState, ending: Ending) {
    && (ending == Threw(EmptyExhausted) ==> u.stopReason == Some("empty_response_retry_exhausted"))
    && (ending == Threw(UnknownTools) ==> u.stopReason == Some("unknown_tool_loop"))
    && (ending == Threw(IterationLimit) ==> u.stopReason == Some("iteration_limit"))
  }

  lemma ReplyReason(v: TurnState, r: Round, looksTruncated: string -> bool)
    ensures var f := ReplyRound(v, r, looksTruncated);
            && (f.Again? || f.ending == Returned ==> f.state.stopReason == ReasonNow(v, r))
            && (f.Ends? ==> FailureReason(f.state, f.ending))
  {
    hide Normalize, ToolUses, WithoutToolUses, FinalBlocks, PushAssistant, PushUser, HasText, LastText, ClearDraft;
    var u := v.(forceNoThinking := false, emitted := v.emitted + r.blocks, canonical := v.canonical + [Normalize(r.blocks)]);
    FinalKeepsRest(u, r.blocks);
    hide ApplyFinal;
  }

  lemma RoundReason(v: TurnState, r: Round, looksTruncated: string -> bool)
    ensures var f := Iterate(v, r, looksTruncated);
            && (f.Again? || f.ending == Returned ==> f.state.stopReason == ReasonNow(v, r))
            && (f.Ends? ==> FailureReason(f.state, f.ending))
  {
    hide ReplyRound, AppendIdentity, IsFinal;
    match r.hook(v.messages) {
      case Proceed(messages) => ReplyReason(Calling(v, messages, r.identity), r, looksTruncated);
      case _ =>
    }
  }

  /** A returned turn has the stop reason it had, or that of its first final reply. */
  predicate ReturnReason(v: TurnState, u: TurnState, world: nat -> Round, k: nat) {
    && |u.prompts| > |v.prompts|
    && u.stopReason == if v.stopReason.Some? then v.stopReason else EndReason(world, k, |u.prompts| - |v.prompts|, v.recoveryAttempt)
  }

  lemma FirstReason(v: TurnState, u: TurnState, world: nat -> Round, k: nat)
    requires IsFinal(world(k), v.recoveryAttempt) && |u.prompts| > |v.prompts| && u.stopReason == ReasonNow(v, world(k))
    ensures ReturnReason(v, u, world, k)
  {
  }

  lemma LaterReason(v: TurnState, w: TurnState, u: TurnState, world: nat -> Round, k: nat)
    requires ReturnReason(w, u, world, k + 1) && |w.prompts| == |v.prompts| + 1
    requires w.stopReason == ReasonNow(v, world(k)) && w.recoveryAttempt == CutNow(world(k), v.recoveryAttempt)
    ensures ReturnReason(v, u, world, k)
  {
  }

  /** How a turn ends tells its stop reason, a fault or a blocking hook aside. */
  lemma {:induction false} StopReasons(v: TurnState, world: nat -> Round, k: nat, looksTruncated: string -> bool, max: nat)
    ensures var (u, ending) := Run(v, world, k, looksTruncated, max);
            FailureReason(u, ending) && (ending == Returned ==> ReturnReason(v, u, world, k))
    decreases RoundsLeft(v, max)
  {
    hide ReturnReason, IsFinal, CutNow, ReasonNow, EndReason;
    if v.iter < max {
      hide Iterate, RoundsLeft;
      AgainUsesARound(v, world(k), looksTruncated, max);
      RoundReason(v, world(k), looksTruncated);
      RoundRecords(v, world(k), looksTruncated, max);
      ReturningIsFinal(v, world(k), looksTruncated);
      var f := Iterate(v, world(k), looksTruncated);
      if f.Again? {
        StopReasons(f.state, world, k + 1, looksTruncated, max);
        if Run(f.state, world, k + 1, looksTruncated, max).1 == Returned {
          LaterReason(v, f.state, Run(f.state, world, k + 1, looksTruncated, max).0, world, k);
        }
      } else if f.ending == Returned {
        FirstReason(v, f.state, world, k);
      }
    }
  }

  lemma ReturningIsFinal(v: TurnState, r: Round, looksTruncated: string -> bool)
    ensures var f := Iterate(v, r, looksTruncated); f.Ends? && f.ending == Returned ==> IsFinal(r, v.recoveryAttempt)
  {
    hide AppendIdentity, FinaliseRound, Normalize, ApplyFinal, WithoutToolUses;
  }

  // ---- Which replies end a turn

  /** The text that is looked at for a cut is that of the last text block, without white space at its end. */
  lemma {:induction false} LastTextIs(blocks: seq<Block>, k: nat)
    requires k < |blocks| && blocks[k].TextBlock? && forall j :: k < j < |blocks| ==> !blocks[j].TextBlock?
    ensures LastText(blocks) == Text.TrimEnd(blocks[k].text)
  {
    if k < |blocks| - 1 { LastTextIs(blocks[..|blocks| - 1], k); }
  }

  datatype Verdict = Resumes | Nudges | Stops | Fails(why: Why)

  /** What becomes of a reply that reaches its end: it is looked at in this order. */
  function Judged(v: TurnState, r: Round, looksTruncated: string -> bool): Verdict {
    var shown := v.emitted + WithoutToolUses(r.blocks);
    if !IsFinal(r, v.recoveryAttempt) then
      if IsCutOff(r) && v.recoveryAttempt < 3 then Resumes
      else match r.dispatch
        case Dispatched(_) => Resumes
        case UnknownToolLoop => Fails(UnknownTools)
        case DispatchFailed => Fails(ToolsFailed)
    else if r.pending then Resumes
    else if forall k :: 0 <= k < |shown| ==> !shown[k].TextBlock? then
      if v.emptyResponseRetry < 3 || (!v.fallbackUsed && r.fallback) then Nudges else Fails(EmptyExhausted)
    else if v.truncationRecovery < 2 && looksTruncated(LastText(shown)) then Resumes
    else Stops
  }

  lemma ReplyIsJudged(v: TurnState, r: Round, looksTruncated: string -> bool)
    requires r.fault == None
    ensures match Judged(v, r, looksTruncated)
            case Resumes => ReplyRound(v, r, looksTruncated).Again? && !ReplyRound(v, r, looksTruncated).state.forceNoThinking
            case Nudges => ReplyRound(v, r, looksTruncated).Again? && ReplyRound(v, r, looksTruncated).state.forceNoThinking
            case Stops => ReplyRound(v, r, looksTruncated).Ends? && ReplyRound(v, r, looksTruncated).ending == Returned
            case Fails(why) => ReplyRound(v, r, looksTruncated).Ends? && ReplyRound(v, r, looksTruncated).ending == Threw(why)
  {
    hide Normalize, ToolUses, WithoutToolUses, FinalBlocks, PushAssistant, PushUser, LastText, ClearDraft;
    FinalRecords(v, r);
    var u := v.(forceNoThinking := false, emitted := v.emitted + r.blocks, canonical := v.canonical + [Normalize(r.blocks)]);
    FinalKeepsRest(u, r.blocks);
    hide ApplyFinal;
  }

  /** Without a fault, a round in which the model is called goes on, returns or throws as its reply is judged. */
  lemma RoundIsJudged(v: TurnState, r: Round, looksTruncated: string -> bool)
    requires r.fault == None
    ensures var f := Iterate(v, r, looksTruncated);
            match r.hook(v.messages)
            case BlockedBy(reason) => f.Ends? && f.ending == Threw(HookBlocked(reason)) && f.state == v
            case Skip => f.Ends? && f.ending == Threw(IterationLimit)
            case Proceed(_) =>
              match Judged(v, r, looksTruncated)
              case Resumes => f.Again? && !f.state.forceNoThinking
              case Nudges => f.Again? && f.state.forceNoThinking
              case Stops => f.Ends? && f.ending == Returned
              case Fails(why) => f.Ends? && f.ending == Threw(why)
  {
    hide ReplyRound, AppendIdentity, WithoutToolUses, LastText, IsFinal;
    match r.hook(v.messages) {
      case Proceed(messages) => ReplyIsJudged(Calling(v, messages, r.identity), r, looksTruncated);
      case _ =>
    }
  }

  /** In a retry every final reply is the end, and a hook that skips is too. */
  lemma RetryIsJudged(v: TurnState, r: Round)
    requires r.fault != Some(InStream)
    ensures var f := ResampleRound(v, r);
            match r.hook(v.messages)
            case BlockedBy(reason) => f == Ends(Threw(HookBlocked(reason)), v)
            case Skip => f == Ends(Returned, v)
            case Proceed(messages) =>
              && f.state.canonical == v.canonical + [WithoutToolUses(r.blocks) + (if IsFinal(r, v.recoveryAttempt) then [] else ToolUses(r.blocks))]
              && (if IsFinal(r, v.recoveryAttempt) then
                    && f.Ends? && f.ending == Returned && f.state.emitted == v.emitted + WithoutToolUses(r.blocks)
                    && f.state.retryBase == messages + Reply(r.blocks)
                  else
                    && f.state.emitted == v.emitted + r.blocks && f.state.retryBase == v.retryBase
                    && (if IsCutOff(r) && v.recoveryAttempt < 3 then f.Again?
                        else match r.dispatch
                          case Dispatched(_) => f.Again?
                          case UnknownToolLoop => f.Ends? && f.ending == Threw(UnknownTools)
                          case DispatchFailed => f.Ends? && f.ending == Threw(ToolsFailed)))
  {
    match r.hook(v.messages) {
      case Proceed(messages) =>
        PushedAre(messages, r.blocks, "Continue.");
        FinalRecords(v, r);
        NormalSplits(r.blocks);
        assert WithoutToolUses(r.blocks) + [] == WithoutToolUses(r.blocks);
        hide Normalize, ToolUses, WithoutToolUses, FinalBlocks, PushAssistant, PushUser, Reply;
        var u := v.(forceNoThinking := false, emitted := v.emitted + r.blocks, canonical := v.canonical + [Normalize(r.blocks)]);
        var w := u.(messages := messages, prompts := v.prompts + [Prompt(messages, v.forceNoThinking)]);
        FinalKeepsRest(w, r.blocks);
        SameFinal(u, w, r.blocks);
        hide ApplyFinal;
      case _ =>
    }
  }

  lemma SameFinal(u: TurnState, w: TurnState, blocks: seq<Block>)
    requires u.emitted == w.emitted && u.canonical == w.canonical
    ensures ApplyFinal(u, blocks).emitted == ApplyFinal(w, blocks).emitted && ApplyFinal(u, blocks).canonical == ApplyFinal(w, blocks).canonical
  {
  }
}
