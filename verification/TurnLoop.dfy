/** The loop of `execute` in src/Turn.ts, with src/turn/StopReasonHandler.ts. */
module TurnLoop {
  import opened Outcomes
  import opened Conversation
  import Text

  const RECOVERY_LIMIT: nat := 3
  const MAX_EMPTY_RESPONSE_RETRIES: nat := 3
  const MAX_TRUNCATION_RETRIES: nat := 2

  /** The bound from the environment, or 200. */
  function MaxIterations(raw: Option<string>): (n: nat)
    ensures 5 <= n <= 1000
  {
    var parsed := if raw.Some? then Text.ParseInt(raw.value) else None;
    if parsed.Some? && 5 <= parsed.value <= 1000 then parsed.value else 200
  }

  // ---- What the world answers in one round

  datatype HookResult = BlockedBy(reason: string) | Skip | Proceed(messages: seq<Message>)

  datatype DispatchResult = Dispatched(results: seq<Block>) | UnknownToolLoop | DispatchFailed

  /** Where an interrupt or an error ends the round. */
  datatype Place = AtTop | AfterHook | InStream | AfterStream | AtFinalise | BeforeTools | AfterTools

  /**
   `stopReason` is the model's, `pending` whether injected messages wait when the reply is final, `fallback` whether
   there is a fallback model that is not the one in use.
   */
  datatype Round = Round(
    hook: seq<Message> -> HookResult, identity: string, blocks: seq<Block>, stopReason: string,
    pending: bool, fallback: bool, dispatch: DispatchResult, fault: Option<Place>)

  /** One model call: what it was sent, and whether thinking was switched off. */
  datatype Prompt = Prompt(messages: seq<Message>, noThinking: bool)

  datatype TurnState = TurnState(
    iter: nat, recoveryAttempt: nat, emptyResponseRetry: nat, truncationRecovery: nat, fallbackUsed: bool,
    forceNoThinking: bool, emitted: seq<Block>, canonical: seq<seq<Block>>, messages: seq<Message>,
    retryBase: seq<Message>, stopReason: Option<string>, prompts: seq<Prompt>)

  datatype Ending = Returned | Threw(why: Why)

  datatype Why = Faulted | HookBlocked(reason: string) | EmptyExhausted | UnknownTools | ToolsFailed | IterationLimit

  datatype Flow = Again(state: TurnState) | Ends(ending: Ending, state: TurnState)

  // ---- Deciding on a stop reason

  datatype Decision = Finalise | RunTools(toolUses: seq<Block>) | Recover(messages: seq<Message>)

  function PushAssistant(messages: seq<Message>, blocks: seq<Block>): seq<Message> {
    if blocks == [] then messages else messages + [Message(Assistant, Blocks(blocks))]
  }

  function PushUser(messages: seq<Message>, text: string): seq<Message> {
    messages + [Message(User, Plain(text))]
  }

  /** `handle` of the stop-reason handler; a stop reason it does not know ends the turn. */
  function HandleStop(stopReason: string, blocks: seq<Block>, recoveryAttempt: nat, messages: seq<Message>): Decision {
    if stopReason == "max_tokens" || stopReason == "pause_turn" then
      if recoveryAttempt >= RECOVERY_LIMIT then Finalise
      else Recover(PushUser(PushAssistant(messages, WithoutToolUses(blocks)), "Continue."))
    else if stopReason == "tool_use" && ToolUses(blocks) != [] then RunTools(ToolUses(blocks))
    else Finalise
  }

  // ---- One round

  predicate HasText(blocks: seq<Block>) {
    exists k :: 0 <= k < |blocks| && blocks[k].TextBlock?
  }

  function LastText(blocks: seq<Block>): string {
    if blocks == [] then ""
    else if blocks[|blocks| - 1].TextBlock? then Text.TrimEnd(blocks[|blocks| - 1].text)
    else LastText(blocks[..|blocks| - 1])
  }

  /** `applyFinalAssistantReplayBlocks`: the reply's tool uses are taken out of what was emitted. */
  function ApplyFinal(v: TurnState, blocks: seq<Block>): TurnState {
    var final := FinalBlocks(blocks);
    var at := if |v.emitted| > |blocks| then |v.emitted| - |blocks| else 0;
    v.(emitted := if blocks == [] then v.emitted else v.emitted[..at] + final,
       canonical := if v.canonical == [] then [] else v.canonical[..|v.canonical| - 1] + [final])
  }

  /** `clearUserVisibleDraftForDeferredFinalise`; a draft without a single character stays. */
  function ClearDraft(emitted: seq<Block>): seq<Block> {
    if Visible(emitted) then Invisible(emitted) else emitted
  }

  predicate Visible(blocks: seq<Block>) {
    exists k :: 0 <= k < |blocks| &&
      ((blocks[k].TextBlock? && blocks[k].text != "") || (blocks[k].Thinking? && blocks[k].thinking != ""))
  }

  function Invisible(blocks: seq<Block>): seq<Block> {
    if blocks == [] then []
    else
      var last := blocks[|blocks| - 1];
      Invisible(blocks[..|blocks| - 1]) + (if last.TextBlock? || last.Thinking? then [] else [last])
  }

  const FIRST_NUDGE: string := "You completed your work but didn't produce a visible text response"
  const SECOND_NUDGE: string := "Your response was still empty."
  const FALLBACK_NUDGE: string := "The previous answering model produced no visible text after multiple retries."
  const TRUNCATION_NUDGE: string := "Your response was cut off mid-sentence. Continue from where you left off."

  /** A final reply without a text block: a nudge, then once the fallback model, then the end. */
  function EmptyRound(v: TurnState, r: Round, final: seq<Block>): Flow {
    if v.emptyResponseRetry < MAX_EMPTY_RESPONSE_RETRIES then
      Again(v.(messages := PushUser(PushAssistant(v.messages, final), if v.emptyResponseRetry == 0 then FIRST_NUDGE else SECOND_NUDGE),
               emptyResponseRetry := v.emptyResponseRetry + 1, forceNoThinking := true))
    else if !v.fallbackUsed && r.fallback then
      Again(v.(fallbackUsed := true, messages := PushUser(v.messages, FALLBACK_NUDGE), forceNoThinking := true))
    else Ends(Threw(EmptyExhausted), v.(stopReason := Some("empty_response_retry_exhausted")))
  }

  /** The guards a final reply passes, in order, on the state that `ApplyFinal` has set. */
  function FinaliseRound(v0: TurnState, r: Round, looksTruncated: string -> bool): Flow {
    var final := FinalBlocks(r.blocks);
    var v := v0.(stopReason := if v0.stopReason.Some? then v0.stopReason
                               else Some(if v0.recoveryAttempt > 0 then "max_tokens_recovered" else "end_turn"));
    if r.fault == Some(AtFinalise) then Ends(Threw(Faulted), v)
    else if r.pending then
      Again(v.(iter := v.iter + 1, emitted := ClearDraft(v.emitted), messages := PushAssistant(v.messages, final)))
    else if !HasText(v.emitted) then EmptyRound(v, r, final)
    else if v.truncationRecovery < MAX_TRUNCATION_RETRIES && looksTruncated(LastText(v.emitted)) then
      Again(v.(messages := PushUser(PushAssistant(v.messages, final), TRUNCATION_NUDGE), truncationRecovery := v.truncationRecovery + 1))
    else Ends(Returned, v.(retryBase := PushAssistant(v.messages, final)))
  }

  function ToolRound(v: TurnState, r: Round): Flow {
    if r.fault == Some(BeforeTools) then Ends(Threw(Faulted), v)
    else
      match r.dispatch
      case UnknownToolLoop => Ends(Threw(UnknownTools), v.(stopReason := Some("unknown_tool_loop")))
      case DispatchFailed => Ends(Threw(ToolsFailed), v)
      case Dispatched(results) =>
        if r.fault == Some(AfterTools) then Ends(Threw(Faulted), v)
        else Again(v.(iter := v.iter + 1,
                      messages := v.messages + [Message(Assistant, Blocks(Normalize(r.blocks))), Message(User, Blocks(results))]))
  }

  /** The round from the model's reply on. */
  function ReplyRound(v: TurnState, r: Round, looksTruncated: string -> bool): Flow {
    var u := v.(forceNoThinking := false, emitted := v.emitted + r.blocks, canonical := v.canonical + [Normalize(r.blocks)]);
    if r.fault == Some(AfterStream) then Ends(Threw(Faulted), u)
    else
      match HandleStop(r.stopReason, r.blocks, u.recoveryAttempt, u.messages)
      case Finalise => FinaliseRound(ApplyFinal(u, r.blocks), r, looksTruncated)
      case RunTools(_) => ToolRound(u, r)
      case Recover(messages) => Again(u.(messages := messages, recoveryAttempt := u.recoveryAttempt + 1))
  }

  /** The state in which the model is called. */
  function Calling(v: TurnState, messages: seq<Message>, identity: string): TurnState {
    var sent := AppendIdentity(messages, identity);
    v.(messages := sent, prompts := v.prompts + [Prompt(sent, v.forceNoThinking)])
  }

  /** One pass of the loop body; a hook that skips breaks out of the loop, which is the iteration limit. */
  function Iterate(v: TurnState, r: Round, looksTruncated: string -> bool): Flow {
    if r.fault == Some(AtTop) then Ends(Threw(Faulted), v)
    else
      match r.hook(v.messages)
      case BlockedBy(reason) => Ends(Threw(HookBlocked(reason)), v)
      case Skip => Limit(v)
      case Proceed(messages) =>
        if r.fault == Some(AfterHook) then Ends(Threw(Faulted), v.(messages := messages))
        else
          var u := Calling(v, messages, r.identity);
          if r.fault == Some(InStream) then Ends(Threw(Faulted), u) else ReplyRound(u, r, looksTruncated)
  }

  function Limit(v: TurnState): Flow {
    Ends(Threw(IterationLimit), v.(stopReason := Some("iteration_limit")))
  }

  // ---- The loop

  function Minus(a: nat, b: nat): nat { if a > b then a - b else 0 }

  /** Rounds that are left: those counted by `iter`, and one for each retry that rewinds it. */
  function RoundsLeft(v: TurnState, max: nat): nat {
    Minus(max, v.iter) + Minus(RECOVERY_LIMIT, v.recoveryAttempt) + Minus(MAX_EMPTY_RESPONSE_RETRIES, v.emptyResponseRetry)
    + (if v.fallbackUsed then 0 else 1) + Minus(MAX_TRUNCATION_RETRIES, v.truncationRecovery)
  }

  lemma FinaliseUsesARound(v: TurnState, r: Round, looksTruncated: string -> bool, max: nat)
    requires v.iter < max
    ensures var f := FinaliseRound(v, r, looksTruncated);
            && (f.Again? ==> RoundsLeft(f.state, max) == RoundsLeft(v, max) - 1)
            && f.state.prompts == v.prompts
  {
    hide HasText, FinalBlocks, LastText, ClearDraft, PushAssistant, PushUser;
  }

  lemma ReplyUsesARound(v: TurnState, r: Round, looksTruncated: string -> bool, max: nat)
    requires v.iter < max
    ensures var f := ReplyRound(v, r, looksTruncated);
            && (f.Again? ==> RoundsLeft(f.state, max) == RoundsLeft(v, max) - 1)
            && f.state.prompts == v.prompts
  {
    hide FinaliseRound, ToolUses, WithoutToolUses, Normalize, FinalBlocks, PushAssistant, PushUser;
    var u := v.(forceNoThinking := false, emitted := v.emitted + r.blocks, canonical := v.canonical + [Normalize(r.blocks)]);
    FinaliseUsesARound(ApplyFinal(u, r.blocks), r, looksTruncated, max);
  }

  /** A pass that goes on makes one model call and uses up one of the rounds left. */
  lemma AgainUsesARound(v: TurnState, r: Round, looksTruncated: string -> bool, max: nat)
    requires v.iter < max
    ensures var f := Iterate(v, r, looksTruncated);
            && (f.Again? ==> RoundsLeft(f.state, max) == RoundsLeft(v, max) - 1 && |f.state.prompts| == |v.prompts| + 1)
            && |v.prompts| <= |f.state.prompts| <= |v.prompts| + 1
  {
    hide ReplyRound, AppendIdentity;
    match r.hook(v.messages) {
      case Proceed(messages) => ReplyUsesARound(Calling(v, messages, r.identity), r, looksTruncated, max);
      case _ =>
    }
  }

  function Run(v: TurnState, world: nat -> Round, k: nat, looksTruncated: string -> bool, max: nat): (TurnState, Ending)
    decreases RoundsLeft(v, max)
  {
    if v.iter >= max then (Limit(v).state, Limit(v).ending)
    else
      AgainUsesARound(v, world(k), looksTruncated, max);
      match Iterate(v, world(k), looksTruncated)
      case Ends(ending, u) => (u, ending)
      case Again(u) => Run(u, world, k + 1, looksTruncated, max)
  }

  // ---- What every run keeps

  /** No turn calls the model more often than the rounds it has; recoveries it did not need are left over. */
  lemma {:induction false} CallsAreBounded(v: TurnState, world: nat -> Round, k: nat, looksTruncated: string -> bool, max: nat)
    ensures var u := Run(v, world, k, looksTruncated, max).0;
            |u.prompts| + Minus(RECOVERY_LIMIT, u.recoveryAttempt) <= |v.prompts| + RoundsLeft(v, max)
    decreases RoundsLeft(v, max)
  {
    if v.iter < max {
      hide Iterate, RoundsLeft;
      AgainUsesARound(v, world(k), looksTruncated, max);
      var f := Iterate(v, world(k), looksTruncated);
      if f.Again? {
        CallsAreBounded(f.state, world, k + 1, looksTruncated, max);
      } else {
        EndingKeepsRecoveries(v, world(k), looksTruncated);
      }
      RoundsRemain(v, max);
    } else {
      RoundsRemain(v, max);
    }
  }

  lemma RoundsRemain(v: TurnState, max: nat)
    ensures RoundsLeft(v, max) >= Minus(RECOVERY_LIMIT, v.recoveryAttempt) + (if v.iter < max then 1 else 0)
  {
  }

  lemma EndingKeepsRecoveries(v: TurnState, r: Round, looksTruncated: string -> bool)
    ensures var f := Iterate(v, r, looksTruncated); f.Ends? ==> f.state.recoveryAttempt == v.recoveryAttempt
  {
    hide ToolUses, WithoutToolUses, HasText, Normalize, FinalBlocks, LastText, AppendIdentity, ClearDraft, PushAssistant, PushUser;
  }

  /**
   What a turn that returned in round `r` ends with: a text block, no injection waiting when that was checked, and a text
   that does not look cut off unless the retries for that are used up.
   */
  predicate FinalReply(u: TurnState, r: Round, looksTruncated: string -> bool) {
    && HasText(u.emitted) && !r.pending && r.fault != Some(AtFinalise)
    && (looksTruncated(LastText(u.emitted)) ==> u.truncationRecovery >= MAX_TRUNCATION_RETRIES)
    && u.retryBase == PushAssistant(u.messages, FinalBlocks(r.blocks))
  }

  /** A run that returns does so in the round of its last model call, with a final reply. */
  lemma {:induction false} ReturnsFromAFinalReply(v: TurnState, world: nat -> Round, k: nat, looksTruncated: string -> bool, max: nat)
    returns (last: nat)
    requires Run(v, world, k, looksTruncated, max).1 == Returned
    ensures var u := Run(v, world, k, looksTruncated, max).0;
            last >= k && |u.prompts| == |v.prompts| + (last - k) + 1 && FinalReply(u, world(last), looksTruncated)
    decreases RoundsLeft(v, max)
  {
    hide Iterate, FinalReply, RoundsLeft;
    last := k;
    AgainUsesARound(v, world(k), looksTruncated, max);
    ReturningRound(v, world(k), looksTruncated);
    var f := Iterate(v, world(k), looksTruncated);
    if f.Again? { last := ReturnsFromAFinalReply(f.state, world, k + 1, looksTruncated, max); }
  }

  lemma ReturningRound(v: TurnState, r: Round, looksTruncated: string -> bool)
    ensures var f := Iterate(v, r, looksTruncated);
            f.Ends? && f.ending == Returned ==> FinalReply(f.state, r, looksTruncated) && |f.state.prompts| == |v.prompts| + 1
  {
    hide ReplyRound, AppendIdentity, FinalReply;
    match r.hook(v.messages) {
      case Proceed(messages) => ReturningReply(Calling(v, messages, r.identity), r, looksTruncated);
      case _ =>
    }
  }

  lemma ReturningReply(v: TurnState, r: Round, looksTruncated: string -> bool)
    ensures var f := ReplyRound(v, r, looksTruncated);
            f.Ends? && f.ending == Returned ==> FinalReply(f.state, r, looksTruncated) && f.state.prompts == v.prompts
  {
    hide HasText, LastText, FinalBlocks, PushAssistant, PushUser, ClearDraft, Normalize, ToolUses, WithoutToolUses;
  }

  // ---- Tool uses are answered before the model is called

  /** The hooks pass on answered conversations, and the dispatcher answers the tool uses it is given, in any order. */
  ghost predicate FairRound(r: Round) {
    && (forall ms :: Answered(ms) && r.hook(ms).Proceed? ==> Answered(r.hook(ms).messages))
    && (r.dispatch.Dispatched? && ToolUses(r.blocks) != [] ==>
          && Uses(Message(User, Blocks(r.dispatch.results))) == []
          && Answers(Message(Assistant, Blocks(ToolUses(r.blocks))), Message(User, Blocks(r.dispatch.results))))
  }

  lemma PushKeepsAnswers(messages: seq<Message>, blocks: seq<Block>, text: string)
    requires Answered(messages) && forall k :: 0 <= k < |blocks| ==> !blocks[k].ToolUse?
    ensures Answered(PushAssistant(messages, blocks))
    ensures Answered(PushUser(messages, text)) && Answered(PushUser(PushAssistant(messages, blocks), text))
  {
    hide Answered, Uses;
    var m, u := Message(Assistant, Blocks(blocks)), Message(User, Plain(text));
    assert Uses(m) == [] by { UsesAre(m); NoIds(blocks); }
    UsersUseNothing(u);
    AnsweredPlus(messages, m);
    AnsweredPlus(messages, u);
    AnsweredPlus(messages + [m], u);
  }

  lemma UsesAre(m: Message)
    ensures Uses(m) == if m.role == Assistant && m.content.Blocks? then UsedIds(m.content.blocks) else []
  {
  }

  lemma FinaliseKeepsAnswers(v: TurnState, r: Round, looksTruncated: string -> bool)
    requires Answered(v.messages) && Answered(v.retryBase)
    ensures var u := FinaliseRound(v, r, looksTruncated).state; Answered(u.messages) && Answered(u.retryBase)
  {
    hide Answered, HasText, LastText, FinalBlocks, ClearDraft, PushAssistant, PushUser;
    var final := FinalBlocks(r.blocks);
    assert forall k :: 0 <= k < |final| ==> !final[k].ToolUse? by { FinalHasNoUses(r.blocks); }
    PushKeepsAnswers(v.messages, final, FIRST_NUDGE);
    PushKeepsAnswers(v.messages, final, SECOND_NUDGE);
    PushKeepsAnswers(v.messages, final, FALLBACK_NUDGE);
    PushKeepsAnswers(v.messages, final, TRUNCATION_NUDGE);
  }

  lemma FinalHasNoUses(blocks: seq<Block>)
    ensures forall k :: 0 <= k < |FinalBlocks(blocks)| ==> !FinalBlocks(blocks)[k].ToolUse?
  {
  }

  lemma ToolRoundKeepsAnswers(v: TurnState, r: Round)
    requires Answered(v.messages) && FairRound(r) && ToolUses(r.blocks) != []
    ensures Answered(ToolRound(v, r).state.messages)
  {
    hide Answered, UsedIds, ToolUses, WithoutToolUses, BeginsWithToolResult, AnsweredIds;
    if r.dispatch.Dispatched? {
      var m, next := Message(Assistant, Blocks(Normalize(r.blocks))), Message(User, Blocks(r.dispatch.results));
      NormalizeKeepsIds(r.blocks);
      IdsOfUses(r.blocks);
      assert Answers(m, next);
      AnsweredPlusPair(v.messages, m, next);
    }
  }

  lemma ReplyKeepsAnswers(v: TurnState, r: Round, looksTruncated: string -> bool)
    requires Answered(v.messages) && Answered(v.retryBase) && FairRound(r)
    ensures var u := ReplyRound(v, r, looksTruncated).state; Answered(u.messages) && Answered(u.retryBase)
  {
    hide Answered, FairRound, FinaliseRound, ToolRound, ApplyFinal, ToolUses, WithoutToolUses, Normalize, PushAssistant, PushUser;
    var u := v.(forceNoThinking := false, emitted := v.emitted + r.blocks, canonical := v.canonical + [Normalize(r.blocks)]);
    PushKeepsAnswers(u.messages, WithoutToolUses(r.blocks), "Continue.");
    FinalKeepsMessages(u, r.blocks);
    FinaliseKeepsAnswers(ApplyFinal(u, r.blocks), r, looksTruncated);
    ToolRoundKeepsBase(u, r);
    if ToolUses(r.blocks) != [] { ToolRoundKeepsAnswers(u, r); }
  }

  lemma ToolRoundKeepsBase(v: TurnState, r: Round)
    ensures ToolRound(v, r).state.retryBase == v.retryBase
  {
    hide Normalize;
  }

  lemma FinalKeepsMessages(v: TurnState, blocks: seq<Block>)
    ensures var u := ApplyFinal(v, blocks); u.messages == v.messages && u.prompts == v.prompts && u.retryBase == v.retryBase
  {
  }

  ghost predicate PromptsAnswered(v: TurnState) {
    forall k :: 0 <= k < |v.prompts| ==> Answered(v.prompts[k].messages)
  }

  lemma RoundKeepsAnswers(v: TurnState, r: Round, looksTruncated: string -> bool)
    requires Answered(v.messages) && Answered(v.retryBase) && PromptsAnswered(v) && FairRound(r)
    ensures var u := Iterate(v, r, looksTruncated).state; Answered(u.messages) && Answered(u.retryBase) && PromptsAnswered(u)
  {
    hide Answered, ReplyRound, AppendIdentity;
    match r.hook(v.messages) {
      case Proceed(messages) =>
        IdentityKeepsAnswers(messages, r.identity);
        var u := Calling(v, messages, r.identity);
        ReplyKeepsAnswers(u, r, looksTruncated);
        if u.iter < u.iter + 1 { ReplyUsesARound(u, r, looksTruncated, u.iter + 1); }
      case _ =>
    }
  }

  /** Whatever stops, retries and tools a turn goes through, each prompt answers every tool use in it. */
  lemma {:induction false} EveryPromptIsAnswered(v: TurnState, world: nat -> Round, k: nat, looksTruncated: string -> bool, max: nat)
    requires Answered(v.messages) && Answered(v.retryBase) && PromptsAnswered(v) && forall j :: FairRound(world(j))
    ensures var u := Run(v, world, k, looksTruncated, max).0; Answered(u.messages) && Answered(u.retryBase) && PromptsAnswered(u)
    decreases RoundsLeft(v, max)
  {
    hide Answered, PromptsAnswered, FairRound;
    if v.iter < max {
      hide Iterate;
      AgainUsesARound(v, world(k), looksTruncated, max);
      RoundKeepsAnswers(v, world(k), looksTruncated);
      var f := Iterate(v, world(k), looksTruncated);
      if f.Again? { EveryPromptIsAnswered(f.state, world, k + 1, looksTruncated, max); }
    } else {
      assert PromptsAnswered(Limit(v).state) by { SamePrompts(v, Limit(v).state); }
    }
  }

  lemma SamePrompts(v: TurnState, u: TurnState)
    requires PromptsAnswered(v) && u.prompts == v.prompts
    ensures PromptsAnswered(u)
  {
  }

  // ---- The bound is reached

  /** Three cut-off replies, three empty ones and one from the fallback, two truncated ones, and then tools for good. */
  function WorstRound(k: nat): Round {
    var reply := Round(ms => Proceed(ms), "", [], "end_turn", false, true, Dispatched([ToolResult("t", "", false)]), None);
    if k < 3 then reply.(stopReason := "max_tokens")
    else if k < 7 then reply
    else if k < 9 then reply.(blocks := [TextBlock("and")])
    else reply.(blocks := [ToolUse("t", "Tool", "{}")], stopReason := "tool_use")
  }

  ghost predicate After(k: nat, v: TurnState) {
    && v.iter == Minus(k, 9)
    && v.recoveryAttempt == (if k < 3 then k else 3)
    && v.emptyResponseRetry == Minus(if k < 6 then k else 6, 3)
    && v.fallbackUsed == (k >= 7)
    && v.truncationRecovery == Minus(if k < 9 then k else 9, 7)
    && (k < 7 ==> v.emitted == []) && |v.prompts| == k
  }

  /** Every text looks cut off. */
  predicate Always(text: string) { true }

  lemma CutOffGoesOn(k: nat, v: TurnState)
    requires After(k, v) && k < 3
    ensures Iterate(v, WorstRound(k), Always).Again? && After(k + 1, Iterate(v, WorstRound(k), Always).state)
  {
    hide AppendIdentity, PushAssistant, PushUser, FinaliseRound, ToolRound, ApplyFinal;
  }

  lemma EmptyGoesOn(k: nat, v: TurnState)
    requires After(k, v) && 3 <= k < 7
    ensures Iterate(v, WorstRound(k), Always).Again? && After(k + 1, Iterate(v, WorstRound(k), Always).state)
  {
    hide AppendIdentity, PushAssistant, PushUser, ToolRound, LastText;
    assert v.emitted + [] == [] && Normalize([]) == [];
  }

  lemma TruncatedGoesOn(k: nat, v: TurnState)
    requires After(k, v) && 7 <= k < 9
    ensures Iterate(v, WorstRound(k), Always).Again? && After(k + 1, Iterate(v, WorstRound(k), Always).state)
  {
    hide AppendIdentity, PushAssistant, PushUser, ToolRound, LastText, ToolUses, FinalBlocks, Normalize, ApplyFinal, FinaliseRound;
    var said := [TextBlock("and")];
    var u := Calling(v, v.messages, "").(forceNoThinking := false, emitted := v.emitted + said, canonical := v.canonical + [Normalize(said)]);
    TextStays(u, v.emitted, TextBlock("and"));
    TruncationNudges(ApplyFinal(u, said), WorstRound(k));
  }

  lemma TextStays(u: TurnState, before: seq<Block>, b: Block)
    requires u.emitted == before + [b] && b.TextBlock?
    ensures ApplyFinal(u, [b]) == u.(canonical := ApplyFinal(u, [b]).canonical) && HasText(u.emitted)
  {
    assert ToolUses([b]) == [] && WithoutToolUses([b]) == [b] by { assert [b][..0] == []; }
    assert u.emitted[|before|].TextBlock?;
    assert u.emitted[..|before|] == before;
    hide ToolUses, WithoutToolUses;
  }

  lemma TruncationNudges(v: TurnState, r: Round)
    requires HasText(v.emitted) && v.truncationRecovery < MAX_TRUNCATION_RETRIES && !r.pending && r.fault == None
    ensures var f := FinaliseRound(v, r, Always);
            && f.Again? && f.state.truncationRecovery == v.truncationRecovery + 1
            && f.state == v.(messages := f.state.messages, stopReason := f.state.stopReason, truncationRecovery := f.state.truncationRecovery)
  {
    hide HasText, LastText, FinalBlocks, PushUser, PushAssistant;
  }

  lemma ToolsGoOn(k: nat, v: TurnState)
    requires After(k, v) && 9 <= k
    ensures Iterate(v, WorstRound(k), Always).Again? && After(k + 1, Iterate(v, WorstRound(k), Always).state)
  {
    hide AppendIdentity, PushAssistant, PushUser, FinaliseRound, Normalize, ToolUses, WithoutToolUses;
    OneUse(ToolUse("t", "Tool", "{}"));
  }

  lemma OneUse(b: Block)
    requires b.ToolUse?
    ensures ToolUses([b]) == [b]
  {
    assert [b][..0] == [];
  }

  lemma WorstRoundGoesOn(k: nat, v: TurnState)
    requires After(k, v)
    ensures Iterate(v, WorstRound(k), Always).Again? && After(k + 1, Iterate(v, WorstRound(k), Always).state)
  {
    hide Iterate, After;
    if k < 3 {
      CutOffGoesOn(k, v);
    } else if k < 7 {
      EmptyGoesOn(k, v);
    } else if k < 9 {
      TruncatedGoesOn(k, v);
    } else {
      ToolsGoOn(k, v);
    }
  }

  lemma {:induction false} WorstRun(k: nat, v: TurnState, max: nat)
    requires After(k, v) && k <= max + 9 && max > 0
    ensures var (u, ending) := Run(v, WorstRound, k, Always, max); |u.prompts| == max + 9 && ending == Threw(IterationLimit)
    decreases max + 9 - k
  {
    if k < max + 9 {
      hide Iterate, After;
      assert v.iter < max by { IterAfter(k, v, max); }
      AgainUsesARound(v, WorstRound(k), Always, max);
      WorstRoundGoesOn(k, v);
      WorstRun(k + 1, Iterate(v, WorstRound(k), Always).state, max);
    }
  }

  lemma IterAfter(k: nat, v: TurnState, max: nat)
    requires After(k, v) && k < max + 9 && max > 0
    ensures v.iter < max
  {
  }

  const NEW_TURN: TurnState := TurnState(0, 0, 0, 0, false, false, [], [], [], [], None, [])

  /** MAX_ITERATIONS + 9 model calls are the most a turn makes, and some turns make them. */
  lemma BoundIsTight(world: nat -> Round, looksTruncated: string -> bool, messages: seq<Message>, max: nat)
    requires max > 0
    ensures |Run(NEW_TURN.(messages := messages), world, 0, looksTruncated, max).0.prompts| <= max + 9
    ensures |Run(NEW_TURN, WorstRound, 0, Always, max).0.prompts| == max + 9
  {
    CallsAreBounded(NEW_TURN.(messages := messages), world, 0, looksTruncated, max);
    WorstRun(0, NEW_TURN, max);
  }

  // ---- The turn object

  /** How a part of the loop body ends: with `continue`, or with a return or a throw. */
  datatype Exit = GoOn | Leave(ending: Ending)

  predicate Matches(f: Flow, exit: Exit, state: TurnState) {
    f == if exit.GoOn? then Again(state) else Ends(exit.ending, state)
  }

  class Turn {
    var recoveryAttempt: nat
    var emptyResponseRetry: nat
    var truncationRecovery: nat
    var emptyResponseFallbackUsed: bool
    var forceNoThinking: bool
    var emittedAssistantBlocks: seq<Block>
    var canonicalAssistantMessages: seq<seq<Block>>
    var retryBaseMessages: seq<Message>
    var stopReason: Option<string>
    /** The calls the model has had. */
    var prompts: seq<Prompt>

    constructor ()
      ensures View(0, []) == NEW_TURN
    {
      recoveryAttempt, emptyResponseRetry, truncationRecovery := 0, 0, 0;
      emptyResponseFallbackUsed, forceNoThinking := false, false;
      emittedAssistantBlocks, canonicalAssistantMessages, retryBaseMessages := [], [], [];
      stopReason, prompts := None, [];
    }

    /** The fields, with the loop's own `iter` and `messages`. */
    function View(iter: nat, messages: seq<Message>): TurnState
      reads this
    {
      TurnState(iter, recoveryAttempt, emptyResponseRetry, truncationRecovery, emptyResponseFallbackUsed, forceNoThinking,
                emittedAssistantBlocks, canonicalAssistantMessages, messages, retryBaseMessages, stopReason, prompts)
    }

    method ApplyFinalAssistantReplayBlocks(blocks: seq<Block>, ghost iter: nat, ghost messages: seq<Message>)
      returns (final: seq<Block>)
      modifies this
      ensures final == FinalBlocks(blocks) && View(iter, messages) == ApplyFinal(old(View(iter, messages)), blocks)
    {
      hide FinalBlocks;
      final := FinalBlocks(blocks);
      if blocks != [] {
        var at := if |emittedAssistantBlocks| > |blocks| then |emittedAssistantBlocks| - |blocks| else 0;
        emittedAssistantBlocks := emittedAssistantBlocks[..at] + final;
      }
      if canonicalAssistantMessages != [] {
        canonicalAssistantMessages := canonicalAssistantMessages[..|canonicalAssistantMessages| - 1] + [final];
      }
    }

    method RetryEmpty(r: Round, final: seq<Block>, ghost iter: nat, messages0: seq<Message>)
      returns (exit: Exit, messages: seq<Message>)
      modifies this
      ensures Matches(EmptyRound(old(View(iter, messages0)), r, final), exit, View(iter, messages))
    {
      hide PushAssistant, PushUser;
      messages := messages0;
      if emptyResponseRetry < MAX_EMPTY_RESPONSE_RETRIES {
        messages := PushUser(PushAssistant(messages, final), if emptyResponseRetry == 0 then FIRST_NUDGE else SECOND_NUDGE);
        emptyResponseRetry := emptyResponseRetry + 1;
        forceNoThinking := true;
        return GoOn, messages;
      }
      if !emptyResponseFallbackUsed && r.fallback {
        emptyResponseFallbackUsed := true;
        forceNoThinking := true;
        return GoOn, PushUser(messages, FALLBACK_NUDGE);
      }
      stopReason := Some("empty_response_retry_exhausted");
      exit := Leave(Threw(EmptyExhausted));
    }

    /** The guards of a final reply. */
    method PassGuards(r: Round, final: seq<Block>, looksTruncated: string -> bool, iter0: nat, messages0: seq<Message>)
      returns (exit: Exit, iter: nat, messages: seq<Message>)
      requires final == FinalBlocks(r.blocks)
      modifies this
      ensures Matches(FinaliseRound(old(View(iter0, messages0)), r, looksTruncated), exit, View(iter, messages))
    {
      hide FinalBlocks, HasText, LastText, ClearDraft, PushAssistant, PushUser, EmptyRound;
      iter, messages := iter0, messages0;
      if stopReason.None? {
        stopReason := Some(if recoveryAttempt > 0 then "max_tokens_recovered" else "end_turn");
      }
      if r.fault == Some(AtFinalise) {
        return Leave(Threw(Faulted)), iter, messages;
      }
      if r.pending {
        emittedAssistantBlocks := ClearDraft(emittedAssistantBlocks);
        return GoOn, iter + 1, PushAssistant(messages, final);
      }
      if !HasText(emittedAssistantBlocks) {
        exit, messages := RetryEmpty(r, final, iter, messages);
        return;
      }
      if truncationRecovery < MAX_TRUNCATION_RETRIES && looksTruncated(LastText(emittedAssistantBlocks)) {
        messages := PushUser(PushAssistant(messages, final), TRUNCATION_NUDGE);
        truncationRecovery := truncationRecovery + 1;
        return GoOn, iter, messages;
      }
      retryBaseMessages := PushAssistant(messages, final);
      exit := Leave(Returned);
    }

    method RunTools(r: Round, iter0: nat, messages0: seq<Message>) returns (exit: Exit, iter: nat, messages: seq<Message>)
      modifies this
      ensures Matches(ToolRound(old(View(iter0, messages0)), r), exit, View(iter, messages))
    {
      hide Normalize;
      iter, messages := iter0, messages0;
      if r.fault == Some(BeforeTools) {
        return Leave(Threw(Faulted)), iter, messages;
      }
      match r.dispatch {
        case UnknownToolLoop =>
          stopReason := Some("unknown_tool_loop");
          return Leave(Threw(UnknownTools)), iter, messages;
        case DispatchFailed =>
          return Leave(Threw(ToolsFailed)), iter, messages;
        case Dispatched(results) =>
          if r.fault == Some(AfterTools) {
            return Leave(Threw(Faulted)), iter, messages;
          }
          messages := messages + [Message(Assistant, Blocks(Normalize(r.blocks))), Message(User, Blocks(results))];
          return GoOn, iter + 1, messages;
      }
    }

    /** What follows a reply of the model. */
    method TakeReply(r: Round, looksTruncated: string -> bool, iter0: nat, messages0: seq<Message>)
      returns (exit: Exit, iter: nat, messages: seq<Message>)
      modifies this
      ensures Matches(ReplyRound(old(View(iter0, messages0)), r, looksTruncated), exit, View(iter, messages))
    {
      hide Normalize, HandleStop, FinaliseRound, ToolRound, ApplyFinal;
      iter, messages := iter0, messages0;
      forceNoThinking := false;
      emittedAssistantBlocks := emittedAssistantBlocks + r.blocks;
      canonicalAssistantMessages := canonicalAssistantMessages + [Normalize(r.blocks)];
      if r.fault == Some(AfterStream) {
        return Leave(Threw(Faulted)), iter, messages;
      }
      match HandleStop(r.stopReason, r.blocks, recoveryAttempt, messages) {
        case Finalise =>
          var final := ApplyFinalAssistantReplayBlocks(r.blocks, iter, messages);
          exit, iter, messages := PassGuards(r, final, looksTruncated, iter, messages);
        case RunTools(_) =>
          exit, iter, messages := RunTools(r, iter, messages);
        case Recover(more) =>
          recoveryAttempt := recoveryAttempt + 1;
          return GoOn, iter, more;
      }
    }

    method Execute(max: nat, messages0: seq<Message>, world: nat -> Round, looksTruncated: string -> bool)
      returns (ending: Ending, iter: nat, messages: seq<Message>)
      modifies this
      ensures (View(iter, messages), ending) == Run(old(View(0, messages0)), world, 0, looksTruncated, max)
    {
      hide ReplyRound, AppendIdentity, RoundsLeft;
      iter, messages := 0, messages0;
      var k: nat := 0;
      while iter < max
        invariant Run(View(iter, messages), world, k, looksTruncated, max) == Run(old(View(0, messages0)), world, 0, looksTruncated, max)
        decreases RoundsLeft(View(iter, messages), max)
      {
        var r := world(k);
        AgainUsesARound(View(iter, messages), r, looksTruncated, max);
        if r.fault == Some(AtTop) {
          return Threw(Faulted), iter, messages;
        }
        var hooked := r.hook(messages);
        if hooked.BlockedBy? {
          return Threw(HookBlocked(hooked.reason)), iter, messages;
        }
        if hooked.Skip? {
          break;
        }
        messages := hooked.messages;
        if r.fault == Some(AfterHook) {
          return Threw(Faulted), iter, messages;
        }
        messages := AppendIdentity(messages, r.identity);
        prompts := prompts + [Prompt(messages, forceNoThinking)];
        if r.fault == Some(InStream) {
          return Threw(Faulted), iter, messages;
        }
        var exit;
        exit, iter, messages := TakeReply(r, looksTruncated, iter, messages);
        if exit.Leave? {
          return exit.ending, iter, messages;
        }
        k := k + 1;
      }
      stopReason := Some("iteration_limit");
      ending := Threw(IterationLimit);
    }
  }
}
