/** What the prompts of a turn hold, for src/Turn.ts: each continues the conversation of the one before. */
module TurnPrompts {
  import opened Outcomes
  import opened Conversation
  import opened TurnLoop
  import opened TurnCommit
  import Text

  // ---- Conversations without identity blocks

  lemma {:induction false} RemoveConcat(a: seq<Message>, b: seq<Message>)
    ensures RemoveIdentity(a + b) == RemoveIdentity(a) + RemoveIdentity(b)
  {
    hide StripMessage;
    if b == [] {
      assert a + b == a;
    } else {
      RemoveConcat(a, b[..|b| - 1]);
      assert (a + b)[..|a + b| - 1] == a + b[..|b| - 1];
    }
  }

  lemma {:induction false} WithoutTwice(blocks: seq<Block>)
    ensures WithoutIdentity(WithoutIdentity(blocks)) == WithoutIdentity(blocks)
  {
    hide IsIdentityBlock;
    if blocks != [] {
      var front, last := WithoutIdentity(blocks[..|blocks| - 1]), blocks[|blocks| - 1];
      WithoutTwice(blocks[..|blocks| - 1]);
      assert (front + [last])[..|front|] == front;
      assert front + [] == front;
    }
  }

  lemma StripTwice(m: Message)
    requires StripMessage(m).Some?
    ensures StripMessage(StripMessage(m).value) == StripMessage(m)
  {
    if m.content.Blocks? { WithoutTwice(m.content.blocks); }
  }

  lemma {:induction false} RemoveTwice(messages: seq<Message>)
    ensures RemoveIdentity(RemoveIdentity(messages)) == RemoveIdentity(messages)
  {
    hide StripMessage;
    if messages != [] {
      var front, m := RemoveIdentity(messages[..|messages| - 1]), messages[|messages| - 1];
      RemoveTwice(messages[..|messages| - 1]);
      if StripMessage(m).Some? {
        StripTwice(m);
        assert (front + [StripMessage(m).value])[..|front|] == front;
      }
      assert front + [] == front;
    }
  }

  lemma RemoveOne(m: Message)
    ensures RemoveIdentity([m]) == if StripMessage(m).Some? then [StripMessage(m).value] else []
  {
    hide StripMessage;
    assert [m][..0] == [];
  }

  lemma {:induction false} WithoutAll(blocks: seq<Block>)
    ensures |WithoutIdentity(blocks)| <= |blocks|
    ensures |WithoutIdentity(blocks)| == |blocks| ==> WithoutIdentity(blocks) == blocks
  {
    hide IsIdentityBlock;
    if blocks != [] { WithoutAll(blocks[..|blocks| - 1]); }
  }

  lemma FilledIsStripped(m: Message, identity: string)
    requires BeginsWithToolResult(m) && StripMessage(m) == Some(m) && Contains(identity, IDENTITY_OPEN)
    ensures StripMessage(m.(content := Blocks(m.content.blocks + [TextBlock(identity)]))) == Some(m)
  {
    var blocks := m.content.blocks;
    assert (blocks + [TextBlock(identity)])[..|blocks|] == blocks;
    WithoutAll(blocks);
    assert IsIdentityBlock(TextBlock(identity));
    hide IsIdentityBlock;
    assert WithoutIdentity(blocks) == blocks;
    var more := blocks + [TextBlock(identity)];
    assert more[|more| - 1] == TextBlock(identity);
    assert WithoutIdentity(more) == blocks + [] == blocks;
    assert m.(content := Blocks(more)).(content := Blocks(blocks)) == m;
  }

  lemma {:induction false} StrippedMembers(messages: seq<Message>, i: nat)
    requires RemoveIdentity(messages) == messages && i < |messages|
    ensures StripMessage(messages[i]) == Some(messages[i])
  {
    RemoveIsShorter(messages[..|messages| - 1]);
    hide StripMessage;
    if i < |messages| - 1 { StrippedMembers(messages[..|messages| - 1], i); }
  }

  lemma {:induction false} RemoveIsShorter(messages: seq<Message>)
    ensures |RemoveIdentity(messages)| <= |messages|
  {
    hide StripMessage;
    if messages != [] { RemoveIsShorter(messages[..|messages| - 1]); }
  }

  lemma FilledIsRemoved(ms: seq<Message>, identity: string)
    requires RemoveIdentity(ms) == ms && ms != [] && BeginsWithToolResult(ms[|ms| - 1]) && Contains(identity, IDENTITY_OPEN)
    ensures var at := |ms| - 1; RemoveIdentity(ms[at := ms[at].(content := Blocks(ms[at].content.blocks + [TextBlock(identity)]))]) == ms
  {
    var at := |ms| - 1;
    var filled := ms[at].(content := Blocks(ms[at].content.blocks + [TextBlock(identity)]));
    StrippedMembers(ms, at);
    FilledIsStripped(ms[at], identity);
    hide StripMessage, BeginsWithToolResult, RemoveIdentity;
    RemoveConcat(ms[..at], [filled]);
    RemoveConcat(ms[..at], [ms[at]]);
    RemoveOne(filled);
    RemoveOne(ms[at]);
    assert ms[at := filled] == ms[..at] + [filled] && ms == ms[..at] + [ms[at]];
  }

  lemma RemoveBetween(a: seq<Message>, m: Message, b: seq<Message>)
    requires StripMessage(m) == None
    ensures RemoveIdentity(a + [m] + b) == RemoveIdentity(a + b)
  {
    hide StripMessage, RemoveIdentity;
    RemoveConcat(a + [m], b);
    RemoveConcat(a, [m]);
    RemoveConcat(a, b);
    RemoveOne(m);
    assert RemoveIdentity(a) + [] == RemoveIdentity(a);
  }

  /** The identity block is all that appending it adds. */
  lemma IdentityIsRemoved(messages: seq<Message>, identity: string)
    requires Contains(identity, IDENTITY_OPEN)
    ensures RemoveIdentity(AppendIdentity(messages, identity)) == RemoveIdentity(messages)
  {
    hide StripMessage, BeginsWithToolResult, RemoveIdentity;
    var ms := RemoveIdentity(messages);
    RemoveTwice(messages);
    if ms != [] && BeginsWithToolResult(ms[|ms| - 1]) {
      FilledIsRemoved(ms, identity);
    } else {
      var at := if |ms| == 0 then 0 else |ms| - 1;
      LoneIdentity(identity);
      RemoveBetween(ms[..at], Message(User, Blocks([TextBlock(identity)])), ms[at..]);
      assert ms[..at] + ms[at..] == ms;
    }
  }

  lemma LoneIdentity(identity: string)
    requires Contains(identity, IDENTITY_OPEN)
    ensures StripMessage(Message(User, Blocks([TextBlock(identity)]))) == None
  {
    var block := TextBlock(identity);
    assert IsIdentityBlock(block);
    hide IsIdentityBlock;
    assert [block][..0] == [];
    assert WithoutIdentity([block]) == [];
  }

  // ---- Where the identity block is

  predicate IsAt(text: string, part: string, i: nat) {
    i + |part| <= |text| && text[i..i + |part|] == part
  }

  lemma {:induction false} ContainsMeans(text: string, part: string)
    ensures Contains(text, part) <==> exists i: nat :: IsAt(text, part, i)
  {
    if |part| <= |text| && text[..|part|] == part {
      assert IsAt(text, part, 0);
    } else if text != [] && |part| <= |text| {
      ContainsMeans(text[1..], part);
      if i: nat :| IsAt(text, part, i) {
        assert i > 0 ==> text[1..][i - 1..i - 1 + |part|] == text[i..i + |part|];
        assert i > 0 ==> IsAt(text[1..], part, i - 1);
      }
      if i: nat :| IsAt(text[1..], part, i) {
        assert text[i + 1..i + 1 + |part|] == text[1..][i..i + |part|];
        assert IsAt(text, part, i + 1);
      }
    }
  }

  /** The model is told who it is once: at the end of trailing tool results, or in a message before the last. */
  lemma IdentityPlace(messages: seq<Message>, identity: string)
    ensures var ms, sent := RemoveIdentity(messages), AppendIdentity(messages, identity);
            var n := |ms|;
            if n == 0 then sent == [Message(User, Blocks([TextBlock(identity)]))]
            else if ms[n - 1].role == User && ms[n - 1].content.Blocks? && ms[n - 1].content.blocks != [] && ms[n - 1].content.blocks[0].ToolResult? then
              sent == ms[..n - 1] + [Message(User, Blocks(ms[n - 1].content.blocks + [TextBlock(identity)]))]
            else sent == ms[..n - 1] + [Message(User, Blocks([TextBlock(identity)])), ms[n - 1]]
  {
  }

  /** Taking the identity out leaves no block with its mark, and everything else. */
  lemma {:induction false} WithoutHolds(blocks: seq<Block>, b: Block)
    ensures b in WithoutIdentity(blocks) <==> b in blocks && !(b.TextBlock? && Contains(b.text, "<runtime_model_identity hidden=\"true\">"))
  {
    hide Contains;
    if blocks != [] {
      var front, last := blocks[..|blocks| - 1], blocks[|blocks| - 1];
      WithoutHolds(front, b);
      assert blocks == front + [last];
    }
  }

  /** A message is dropped if nothing else is left of it. */
  lemma RemovedMessage(m: Message)
    ensures RemoveIdentity([m]) ==
            match m.content
            case Plain(text) => if Contains(text, "<runtime_model_identity hidden=\"true\">") then [] else [m]
            case Blocks(blocks) =>
              if WithoutIdentity(blocks) == [] && blocks != [] then [] else [Message(m.role, Blocks(WithoutIdentity(blocks)))]
  {
    RemoveOne(m);
    if m.content.Blocks? { WithoutAll(m.content.blocks); }
    hide WithoutIdentity, Contains;
  }

  // ---- What a round adds

  /** The reply without its tool uses, unless nothing is left of it. */
  function Reply(blocks: seq<Block>): seq<Message> {
    if WithoutToolUses(blocks) == [] then [] else [Message(Assistant, Blocks(WithoutToolUses(blocks)))]
  }

  predicate IsCutOff(r: Round) {
    r.stopReason == "max_tokens" || r.stopReason == "pause_turn"
  }

  predicate AsksForTools(r: Round) {
    r.stopReason == "tool_use" && ToolUses(r.blocks) != []
  }

  /** The reply with its tool uses last, and their results. */
  predicate AddsTools(r: Round, more: seq<Message>) {
    && r.dispatch.Dispatched?
    && more == [Message(Assistant, Blocks(WithoutToolUses(r.blocks) + ToolUses(r.blocks))), Message(User, Blocks(r.dispatch.results))]
  }

  /**
   What follows a reply that should have been the last: nothing but it when messages wait to be injected; without a text,
   as `silent` prompts before, one of the nudges for that, and no thinking; else the nudge for a text that is cut off.
   */
  predicate AddsNudge(r: Round, more: seq<Message>, noThinking: bool, silent: nat) {
    if r.pending then !noThinking && more == Reply(r.blocks)
    else if !noThinking then more == Reply(r.blocks) + [Message(User, Plain(TRUNCATION_NUDGE))]
    else if silent == 0 then more == Reply(r.blocks) + [Message(User, Plain(FIRST_NUDGE))]
    else if silent < 3 then more == Reply(r.blocks) + [Message(User, Plain(SECOND_NUDGE))]
    else silent == 3 && more == [Message(User, Plain(FALLBACK_NUDGE))]
  }

  /** What round `r` adds to the conversation; `cut` replies before it were cut off. */
  predicate Adds(r: Round, more: seq<Message>, noThinking: bool, silent: nat, cut: nat) {
    if IsCutOff(r) && cut < 3 then !noThinking && more == Reply(r.blocks) + [Message(User, Plain("Continue."))]
    else if AsksForTools(r) then !noThinking && AddsTools(r, more)
    else AddsNudge(r, more, noThinking, silent)
  }

  lemma {:induction false} OthersHaveNoUses(blocks: seq<Block>)
    requires forall k :: 0 <= k < |blocks| ==> !blocks[k].ToolUse?
    ensures WithoutToolUses(blocks) == blocks && ToolUses(blocks) == []
  {
    if blocks != [] { OthersHaveNoUses(blocks[..|blocks| - 1]); }
  }

  lemma {:induction false} UsesAreAll(blocks: seq<Block>)
    requires forall k :: 0 <= k < |blocks| ==> blocks[k].ToolUse?
    ensures WithoutToolUses(blocks) == []
  {
    if blocks != [] { UsesAreAll(blocks[..|blocks| - 1]); }
  }

  lemma {:induction false} OthersOfConcat(a: seq<Block>, b: seq<Block>)
    ensures WithoutToolUses(a + b) == WithoutToolUses(a) + WithoutToolUses(b)
  {
    if b == [] {
      assert a + b == a;
    } else {
      OthersOfConcat(a, b[..|b| - 1]);
      assert (a + b)[..|a + b| - 1] == a + b[..|b| - 1];
    }
  }

  lemma FinalIsOthers(blocks: seq<Block>)
    ensures FinalBlocks(blocks) == WithoutToolUses(blocks)
  {
    hide ToolUses, WithoutToolUses;
    if ToolUses(blocks) != [] {
      OthersOfConcat(WithoutToolUses(blocks), ToolUses(blocks));
      OthersHaveNoUses(WithoutToolUses(blocks));
      UsesAreAll(ToolUses(blocks));
      assert WithoutToolUses(blocks) + [] == WithoutToolUses(blocks);
    }
  }

  lemma NormalIsUsesLast(blocks: seq<Block>)
    requires ToolUses(blocks) != []
    ensures Normalize(blocks) == WithoutToolUses(blocks) + ToolUses(blocks)
  {
  }

  /** How often empty replies were nudged so far. */
  function Nudged(v: TurnState): nat {
    v.emptyResponseRetry + (if v.fallbackUsed then 1 else 0)
  }

  predicate CountersFit(v: TurnState) {
    v.emptyResponseRetry <= 3 && (v.fallbackUsed ==> v.emptyResponseRetry == 3)
  }

  /** `u` is `v` with `more` added to its messages, and its counters kept by the rules of `Adds`. */
  ghost predicate Goes(v: TurnState, u: TurnState, r: Round) {
    && |v.messages| <= |u.messages| && u.messages[..|v.messages|] == v.messages
    && Adds(r, u.messages[|v.messages|..], u.forceNoThinking, Nudged(v), v.recoveryAttempt)
    && u.prompts == v.prompts && CountersFit(u) && Nudged(u) == Nudged(v) + (if u.forceNoThinking then 1 else 0)
    && u.recoveryAttempt == v.recoveryAttempt + (if IsCutOff(r) && v.recoveryAttempt < 3 then 1 else 0)
  }

  lemma PushedAre(messages: seq<Message>, blocks: seq<Block>, text: string)
    ensures PushAssistant(messages, FinalBlocks(blocks)) == messages + Reply(blocks)
    ensures PushAssistant(messages, WithoutToolUses(blocks)) == messages + Reply(blocks)
    ensures PushUser(messages + Reply(blocks), text) == messages + (Reply(blocks) + [Message(User, Plain(text))])
    ensures PushUser(messages, text) == messages + [Message(User, Plain(text))]
  {
    hide FinalBlocks, WithoutToolUses;
    FinalIsOthers(blocks);
    assert messages + [] == messages;
    assert messages + Reply(blocks) + [Message(User, Plain(text))] == messages + (Reply(blocks) + [Message(User, Plain(text))]);
  }

  lemma MoreIs(messages: seq<Message>, more: seq<Message>)
    ensures (messages + more)[..|messages|] == messages && (messages + more)[|messages|..] == more
  {
  }

  lemma EmptyGoes(v: TurnState, r: Round)
    requires CountersFit(v) && !v.forceNoThinking && !r.pending && !(IsCutOff(r) && v.recoveryAttempt < 3) && !AsksForTools(r)
    ensures var f := EmptyRound(v, r, FinalBlocks(r.blocks)); f.Again? ==> Goes(v, f.state, r)
  {
    hide FinalBlocks, Reply, PushAssistant, PushUser, ToolUses, IsCutOff, AsksForTools;
    PushedAre(v.messages, r.blocks, FIRST_NUDGE);
    PushedAre(v.messages, r.blocks, SECOND_NUDGE);
    PushedAre(v.messages, r.blocks, FALLBACK_NUDGE);
    MoreIs(v.messages, Reply(r.blocks) + [Message(User, Plain(FIRST_NUDGE))]);
    MoreIs(v.messages, Reply(r.blocks) + [Message(User, Plain(SECOND_NUDGE))]);
    MoreIs(v.messages, [Message(User, Plain(FALLBACK_NUDGE))]);
  }

  lemma FinaliseGoes(v: TurnState, r: Round, looksTruncated: string -> bool)
    requires CountersFit(v) && !v.forceNoThinking && !(IsCutOff(r) && v.recoveryAttempt < 3) && !AsksForTools(r)
    ensures var f := FinaliseRound(v, r, looksTruncated); f.Again? ==> Goes(v, f.state, r)
  {
    hide FinalBlocks, Reply, PushAssistant, PushUser, HasText, LastText, ClearDraft, EmptyRound, ToolUses, IsCutOff, AsksForTools;
    PushedAre(v.messages, r.blocks, TRUNCATION_NUDGE);
    MoreIs(v.messages, Reply(r.blocks));
    MoreIs(v.messages, Reply(r.blocks) + [Message(User, Plain(TRUNCATION_NUDGE))]);
    var w := v.(stopReason := if v.stopReason.Some? then v.stopReason
                              else Some(if v.recoveryAttempt > 0 then "max_tokens_recovered" else "end_turn"));
    if !r.pending { EmptyGoes(w, r); }
  }

  lemma ToolsGo(v: TurnState, r: Round)
    requires CountersFit(v) && !v.forceNoThinking && AsksForTools(r)
    ensures var f := ToolRound(v, r); f.Again? ==> Goes(v, f.state, r)
  {
    NormalIsUsesLast(r.blocks);
    hide Normalize, ToolUses, WithoutToolUses;
    if r.dispatch.Dispatched? {
      MoreIs(v.messages, [Message(Assistant, Blocks(Normalize(r.blocks))), Message(User, Blocks(r.dispatch.results))]);
    }
  }

  /** A reply that is not the end adds what the rules say. */
  lemma ReplyGoes(v: TurnState, r: Round, looksTruncated: string -> bool)
    requires CountersFit(v)
    ensures var f := ReplyRound(v, r, looksTruncated); f.Again? ==> Goes(v, f.state, r)
  {
    hide FinaliseRound, ToolRound, ApplyFinal, Normalize, ToolUses, WithoutToolUses, FinalBlocks, PushAssistant, PushUser, Reply;
    var u := v.(forceNoThinking := false, emitted := v.emitted + r.blocks, canonical := v.canonical + [Normalize(r.blocks)]);
    PushedAre(v.messages, r.blocks, "Continue.");
    MoreIs(v.messages, Reply(r.blocks) + [Message(User, Plain("Continue."))]);
    if AsksForTools(r) {
      ToolsGo(u, r);
    } else if !(IsCutOff(r) && v.recoveryAttempt < 3) {
      FinalKeepsRest(u, r.blocks);
      FinaliseGoes(ApplyFinal(u, r.blocks), r, looksTruncated);
    }
  }

  lemma FinalKeepsRest(v: TurnState, blocks: seq<Block>)
    ensures var u := ApplyFinal(v, blocks); u == v.(emitted := u.emitted, canonical := u.canonical)
  {
  }

  // ---- A turn's prompts

  /** The hook passes on the messages it is given, and the identity text is marked as such. */
  ghost predicate Passes(r: Round) {
    (forall ms :: r.hook(ms).Proceed? ==> r.hook(ms).messages == ms) && Contains(r.identity, IDENTITY_OPEN)
  }

  function Silent(prompts: seq<Prompt>): nat {
    if prompts == [] then 0 else Silent(prompts[..|prompts| - 1]) + (if prompts[|prompts| - 1].noThinking then 1 else 0)
  }

  /** How many of `n` rounds from `k` on were cut off, besides `before` earlier ones. */
  function CutOffs(world: nat -> Round, k: nat, n: nat, before: nat): nat {
    if n == 0 then before else CutOffs(world, k, n - 1, before) + (if IsCutOff(world(k + n - 1)) then 1 else 0)
  }

  /** But for identity blocks, prompt `n + 1` is prompt `n` with what round `r` adds. */
  ghost predicate Continued(prompts: seq<Prompt>, n: nat, r: Round, cut: nat)
    requires n + 1 < |prompts|
  {
    exists more :: Adds(r, more, prompts[n + 1].noThinking, Silent(prompts[..n + 1]), cut)
                && RemoveIdentity(prompts[n + 1].messages) == RemoveIdentity(prompts[n].messages) + RemoveIdentity(more)
  }

  /** The state between two rounds: the counters stand for what was sent. */
  predicate Counted(v: TurnState) {
    CountersFit(v) && Nudged(v) == Silent(v.prompts) + (if v.forceNoThinking then 1 else 0)
  }

  lemma SilentMore(prompts: seq<Prompt>, p: Prompt)
    ensures Silent(prompts + [p]) == Silent(prompts) + (if p.noThinking then 1 else 0)
  {
    assert (prompts + [p])[..|prompts|] == prompts;
  }

  /** A round that goes on sends its prompt and continues from it; a round that ends has sent it, or none. */
  lemma RoundSends(v: TurnState, r: Round, looksTruncated: string -> bool, max: nat)
    requires v.iter < max && Counted(v) && Passes(r)
    ensures var f := Iterate(v, r, looksTruncated);
            var p := Prompt(AppendIdentity(v.messages, r.identity), v.forceNoThinking);
            && (f.state.prompts == v.prompts || f.state.prompts == v.prompts + [p])
            && (f.Again? ==>
                  && f.state.prompts == v.prompts + [p] && Counted(f.state)
                  && Goes(v.(messages := p.messages, prompts := v.prompts + [p]), f.state, r))
  {
    hide ReplyRound, AppendIdentity, Silent, Goes, Contains;
    if r.hook(v.messages).Proceed? {
      var u := Calling(v, v.messages, r.identity);
      ReplyGoes(u, r, looksTruncated);
      ReplyUsesARound(u, r, looksTruncated, max);
      SilentMore(v.prompts, Prompt(AppendIdentity(v.messages, r.identity), v.forceNoThinking));
      GoesCounts(u, ReplyRound(u, r, looksTruncated), r);
    }
  }

  lemma GoesCounts(u: TurnState, f: Flow, r: Round)
    requires f.Again? ==> Goes(u, f.state, r)
    ensures f.Again? ==>
              CountersFit(f.state) && f.state.prompts == u.prompts && Nudged(f.state) == Nudged(u) + (if f.state.forceNoThinking then 1 else 0)
  {
    hide Adds;
  }

  lemma {:induction false} CutOffsShift(world: nat -> Round, k: nat, n: nat, before: nat)
    ensures CutOffs(world, k, n + 1, before) == CutOffs(world, k + 1, n, before + (if IsCutOff(world(k)) then 1 else 0))
  {
    hide IsCutOff;
    if n > 0 { CutOffsShift(world, k, n - 1, before); }
  }

  lemma {:induction false} CutOffsFrom(world: nat -> Round, k: nat, n: nat, a: nat, b: nat)
    ensures CutOffs(world, k, n, a) - a == CutOffs(world, k, n, b) - b && CutOffs(world, k, n, a) >= a
  {
    hide IsCutOff;
    if n > 0 { CutOffsFrom(world, k, n - 1, a, b); }
  }

  /** From the third on, the number of replies cut off does not matter. */
  lemma ManyCutOffs(prompts: seq<Prompt>, n: nat, r: Round, a: nat, b: nat)
    requires n + 1 < |prompts| && Continued(prompts, n, r, a) && (a == b || (a >= 3 && b >= 3))
    ensures Continued(prompts, n, r, b)
  {
    hide RemoveIdentity, Silent, AddsNudge, AddsTools, IsCutOff, AsksForTools;
    var more :| Adds(r, more, prompts[n + 1].noThinking, Silent(prompts[..n + 1]), a)
             && RemoveIdentity(prompts[n + 1].messages) == RemoveIdentity(prompts[n].messages) + RemoveIdentity(more);
    assert Adds(r, more, prompts[n + 1].noThinking, Silent(prompts[..n + 1]), b);
  }

  /** The prompts sent from state `v` and round `k` on: the first holds its messages, and each continues the one before. */
  ghost predicate OneConversation(v: TurnState, prompts: seq<Prompt>, world: nat -> Round, k: nat) {
    && v.prompts <= prompts
    && (|v.prompts| < |prompts| ==>
          var first := prompts[|v.prompts|];
          RemoveIdentity(first.messages) == RemoveIdentity(v.messages) && first.noThinking == v.forceNoThinking)
    && forall n: nat :: NextContinues(v, prompts, world, k, n)
  }

  /** If prompt `n` is one of them and not the last. */
  ghost predicate NextContinues(v: TurnState, prompts: seq<Prompt>, world: nat -> Round, k: nat, n: nat) {
    |v.prompts| <= n < |prompts| - 1 ==>
      Continued(prompts, n, world(k + n - |v.prompts|), CutOffs(world, k, n - |v.prompts|, v.recoveryAttempt))
  }

  /** The second prompt of a run continues its first. */
  lemma SecondContinues(v: TurnState, u: TurnState, prompts: seq<Prompt>, r: Round, sent: seq<Message>)
    requires Counted(v) && u.prompts <= prompts && |u.prompts| < |prompts| && u.prompts == v.prompts + [Prompt(sent, v.forceNoThinking)]
    requires Goes(v.(messages := sent, prompts := u.prompts), u, r)
    requires RemoveIdentity(prompts[|u.prompts|].messages) == RemoveIdentity(u.messages)
    requires prompts[|u.prompts|].noThinking == u.forceNoThinking
    ensures Continued(prompts, |v.prompts|, r, v.recoveryAttempt)
  {
    hide RemoveIdentity, Silent, Adds;
    var more := u.messages[|sent|..];
    SilentMore(v.prompts, Prompt(sent, v.forceNoThinking));
    assert prompts[..|v.prompts| + 1] == u.prompts;
    assert u.messages == sent + more;
    RemoveConcat(sent, more);
    assert prompts[|v.prompts|] == u.prompts[|v.prompts|];
  }

  lemma LaterContinue(v: TurnState, u: TurnState, prompts: seq<Prompt>, world: nat -> Round, k: nat)
    requires OneConversation(u, prompts, world, k + 1) && |u.prompts| == |v.prompts| + 1
    requires u.recoveryAttempt == v.recoveryAttempt + (if IsCutOff(world(k)) && v.recoveryAttempt < 3 then 1 else 0)
    ensures forall n: nat :: n != |v.prompts| ==> NextContinues(v, prompts, world, k, n)
  {
    hide Continued, IsCutOff, CutOffs, RemoveIdentity;
    forall n: nat | |v.prompts| < n < |prompts| - 1 ensures NextContinues(v, prompts, world, k, n) {
      var m := n - |u.prompts|;
      assert NextContinues(u, prompts, world, k + 1, n);
      var later := v.recoveryAttempt + (if IsCutOff(world(k)) then 1 else 0);
      CutOffsShift(world, k, m, v.recoveryAttempt);
      CutOffsFrom(world, k + 1, m, u.recoveryAttempt, later);
      CutOffsFrom(world, k + 1, m, later, u.recoveryAttempt);
      ManyCutOffs(prompts, n, world(k + n - |v.prompts|), CutOffs(world, k + 1, m, u.recoveryAttempt), CutOffs(world, k, m + 1, v.recoveryAttempt));
    }
  }

  /** Each prompt of a run is the one before and what its round adds, with no thinking exactly behind an empty reply. */
  lemma {:induction false} PromptsContinue(v: TurnState, world: nat -> Round, k: nat, looksTruncated: string -> bool, max: nat)
    requires Counted(v) && forall j :: Passes(world(j))
    ensures OneConversation(v, Run(v, world, k, looksTruncated, max).0.prompts, world, k)
    decreases RoundsLeft(v, max)
  {
    hide Passes, Counted, Goes, Continued, AppendIdentity, RemoveIdentity;
    if v.iter < max {
      hide Iterate, RoundsLeft;
      var r := world(k);
      AgainUsesARound(v, r, looksTruncated, max);
      RoundSends(v, r, looksTruncated, max);
      assert Contains(r.identity, IDENTITY_OPEN) by { assert Passes(r); MarkedIdentity(r); }
      IdentityIsRemoved(v.messages, r.identity);
      var f := Iterate(v, r, looksTruncated);
      if f.Again? {
        PromptsContinue(f.state, world, k + 1, looksTruncated, max);
        RunContinues(v, f.state, Run(f.state, world, k + 1, looksTruncated, max).0.prompts, world, k);
      }
    }
  }

  lemma MarkedIdentity(r: Round)
    requires Passes(r)
    ensures Contains(r.identity, IDENTITY_OPEN)
  {
  }

  lemma RunContinues(v: TurnState, u: TurnState, prompts: seq<Prompt>, world: nat -> Round, k: nat)
    requires Counted(v) && OneConversation(u, prompts, world, k + 1)
    requires var sent := AppendIdentity(v.messages, world(k).identity);
             && u.prompts == v.prompts + [Prompt(sent, v.forceNoThinking)] && RemoveIdentity(sent) == RemoveIdentity(v.messages)
             && Goes(v.(messages := sent, prompts := u.prompts), u, world(k))
    ensures OneConversation(v, prompts, world, k)
  {
    hide Counted, Continued, AppendIdentity, RemoveIdentity, Adds;
    var sent := AppendIdentity(v.messages, world(k).identity);
    assert prompts[|v.prompts|] == u.prompts[|v.prompts|];
    LaterContinue(v, u, prompts, world, k);
    if |u.prompts| < |prompts| { SecondContinues(v, u, prompts, world(k), sent); }
    assert NextContinues(v, prompts, world, k, |v.prompts|);
  }

  /** So every prompt of a turn begins with the turn's own messages. */
  lemma {:induction false} PromptsKeepTheTurn(v: TurnState, prompts: seq<Prompt>, world: nat -> Round, k: nat, n: nat)
    requires OneConversation(v, prompts, world, k) && |v.prompts| <= n < |prompts|
    ensures RemoveIdentity(v.messages) <= RemoveIdentity(prompts[n].messages)
  {
    hide RemoveIdentity, Adds, Silent;
    if n > |v.prompts| {
      PromptsKeepTheTurn(v, prompts, world, k, n - 1);
      assert NextContinues(v, prompts, world, k, n - 1);
    }
  }

  // ---- What a returned turn leaves to retry from

  lemma ReturningBase(v: TurnState, r: Round, looksTruncated: string -> bool)
    ensures var f := Iterate(v, r, looksTruncated); var u := f.state;
            f.Ends? && f.ending == Returned ==>
              |u.prompts| == |v.prompts| + 1 && u.retryBase == u.prompts[|v.prompts|].messages + Reply(r.blocks)
  {
    hide ReplyRound, AppendIdentity, Reply;
    match r.hook(v.messages) {
      case Proceed(messages) => ReturningReplyBase(Calling(v, messages, r.identity), r, looksTruncated);
      case _ =>
    }
  }

  lemma ReturningReplyBase(v: TurnState, r: Round, looksTruncated: string -> bool)
    ensures var f := ReplyRound(v, r, looksTruncated); var u := f.state;
            f.Ends? && f.ending == Returned ==> u.prompts == v.prompts && u.retryBase == v.messages + Reply(r.blocks)
  {
    PushedAre(v.messages, r.blocks, "");
    hide HasText, LastText, FinalBlocks, PushAssistant, PushUser, ClearDraft, Normalize, ToolUses, WithoutToolUses, Reply;
  }

  /** A turn that has returned is retried from its last prompt and the reply to it. */
  lemma {:induction false} ReturnedBase(v: TurnState, world: nat -> Round, k: nat, looksTruncated: string -> bool, max: nat)
    requires Run(v, world, k, looksTruncated, max).1 == Returned
    ensures var u := Run(v, world, k, looksTruncated, max).0;
            var calls := |u.prompts| - |v.prompts|;
            calls > 0 && u.retryBase == u.prompts[|u.prompts| - 1].messages + Reply(world(k + calls - 1).blocks)
    decreases RoundsLeft(v, max)
  {
    hide Iterate, RoundsLeft, Reply;
    AgainUsesARound(v, world(k), looksTruncated, max);
    ReturningBase(v, world(k), looksTruncated);
    var f := Iterate(v, world(k), looksTruncated);
    if f.Again? { ReturnedBase(f.state, world, k + 1, looksTruncated, max); }
  }

  // ---- The prompts of a retry

  /** A round of the retry adds what a round of the turn would, but there are no nudges. */
  predicate RetryAdds(r: Round, more: seq<Message>, cut: nat) {
    if IsCutOff(r) && cut < 3 then more == Reply(r.blocks) + [Message(User, Plain("Continue."))]
    else AsksForTools(r) && AddsTools(r, more)
  }

  ghost predicate PassesOn(r: Round) {
    forall ms :: r.hook(ms).Proceed? ==> r.hook(ms).messages == ms
  }

  ghost predicate RetryContinues(v: TurnState, prompts: seq<Prompt>, rounds: nat -> Round, k: nat, n: nat) {
    |v.prompts| <= n < |prompts| - 1 ==>
      && |prompts[n].messages| <= |prompts[n + 1].messages| && prompts[n + 1].messages[..|prompts[n].messages|] == prompts[n].messages
      && RetryAdds(rounds(k + n - |v.prompts|), prompts[n + 1].messages[|prompts[n].messages|..],
                   CutOffs(rounds, k, n - |v.prompts|, v.recoveryAttempt))
      && !prompts[n + 1].noThinking
  }

  /** The prompts sent by a retry: the first holds the retry's messages, each other the one before and what was added. */
  ghost predicate RetryConversation(v: TurnState, prompts: seq<Prompt>, rounds: nat -> Round, k: nat) {
    && v.prompts <= prompts
    && (|v.prompts| < |prompts| ==> prompts[|v.prompts|] == Prompt(v.messages, v.forceNoThinking))
    && forall n: nat :: RetryContinues(v, prompts, rounds, k, n)
  }

  lemma ResampleSends(v: TurnState, r: Round)
    requires PassesOn(r)
    ensures var f := ResampleRound(v, r); var p := Prompt(v.messages, v.forceNoThinking); var u := f.state;
            && (u.prompts == v.prompts || u.prompts == v.prompts + [p])
            && (f.Again? ==>
                  && u.prompts == v.prompts + [p] && !u.forceNoThinking
                  && |v.messages| <= |u.messages| && u.messages[..|v.messages|] == v.messages
                  && RetryAdds(r, u.messages[|v.messages|..], v.recoveryAttempt)
                  && u.recoveryAttempt == v.recoveryAttempt + (if IsCutOff(r) && v.recoveryAttempt < 3 then 1 else 0))
  {
    PushedAre(v.messages, r.blocks, "Continue.");
    MoreIs(v.messages, Reply(r.blocks) + [Message(User, Plain("Continue."))]);
    if AsksForTools(r) { NormalIsUsesLast(r.blocks); }
    if r.dispatch.Dispatched? {
      MoreIs(v.messages, [Message(Assistant, Blocks(Normalize(r.blocks))), Message(User, Blocks(r.dispatch.results))]);
    }
    hide Normalize, ToolUses, WithoutToolUses, FinalBlocks, PushAssistant, PushUser, Reply;
    var u := v.(forceNoThinking := false, emitted := v.emitted + r.blocks, canonical := v.canonical + [Normalize(r.blocks)]);
    FinalKeepsRest(u, r.blocks);
    hide ApplyFinal;
  }

  lemma LaterRetryContinues(v: TurnState, u: TurnState, prompts: seq<Prompt>, rounds: nat -> Round, k: nat)
    requires RetryConversation(u, prompts, rounds, k + 1) && |u.prompts| == |v.prompts| + 1
    requires u.recoveryAttempt == v.recoveryAttempt + (if IsCutOff(rounds(k)) && v.recoveryAttempt < 3 then 1 else 0)
    ensures forall n: nat :: n != |v.prompts| ==> RetryContinues(v, prompts, rounds, k, n)
  {
    hide IsCutOff, CutOffs, Reply, AddsTools, AsksForTools;
    forall n: nat | |v.prompts| < n < |prompts| - 1 ensures RetryContinues(v, prompts, rounds, k, n) {
      var m := n - |u.prompts|;
      assert RetryContinues(u, prompts, rounds, k + 1, n);
      var later := v.recoveryAttempt + (if IsCutOff(rounds(k)) then 1 else 0);
      CutOffsShift(rounds, k, m, v.recoveryAttempt);
      CutOffsFrom(rounds, k + 1, m, u.recoveryAttempt, later);
      CutOffsFrom(rounds, k + 1, m, later, u.recoveryAttempt);
    }
  }

  lemma RetryRunContinues(v: TurnState, u: TurnState, prompts: seq<Prompt>, rounds: nat -> Round, k: nat)
    requires RetryConversation(u, prompts, rounds, k + 1) && u.prompts == v.prompts + [Prompt(v.messages, v.forceNoThinking)]
    requires !u.forceNoThinking && |v.messages| <= |u.messages| && u.messages[..|v.messages|] == v.messages
    requires RetryAdds(rounds(k), u.messages[|v.messages|..], v.recoveryAttempt)
    requires u.recoveryAttempt == v.recoveryAttempt + (if IsCutOff(rounds(k)) && v.recoveryAttempt < 3 then 1 else 0)
    ensures RetryConversation(v, prompts, rounds, k)
  {
    LaterRetryContinues(v, u, prompts, rounds, k);
    hide RetryAdds, IsCutOff;
    assert prompts[|v.prompts|] == u.prompts[|v.prompts|];
    assert RetryContinues(v, prompts, rounds, k, |v.prompts|);
  }

  /** Each prompt of the resampling loop is the one before and what its round adds. */
  lemma {:induction false} RetryPromptsContinue(v: TurnState, rounds: nat -> Round, k: nat, max: nat)
    requires forall j :: PassesOn(rounds(j))
    ensures RetryConversation(v, ResampleRun(v, rounds, k, max).0.prompts, rounds, k)
    decreases ResamplesLeft(v, max)
  {
    hide PassesOn, RetryAdds, IsCutOff;
    if v.iter < max {
      ResampleUsesARound(v, rounds(k), max);
      ResampleSends(v, rounds(k));
      hide ResampleRound, ResamplesLeft;
      var f := ResampleRound(v, rounds(k));
      if f.Again? {
        RetryPromptsContinue(f.state, rounds, k + 1, max);
        RetryRunContinues(v, f.state, ResampleRun(f.state, rounds, k + 1, max).0.prompts, rounds, k);
      }
    }
  }

  /** The draft that failed, without tool uses and empty texts. */
  function Draft(v: TurnState, finalText: string): seq<Block> {
    WithoutToolUses(NonEmpty(if v.emitted != [] then v.emitted else [TextBlock(finalText)]))
  }

  lemma DraftIs(v: TurnState, finalText: string)
    ensures FailedBlocks(v, finalText) == Draft(v, finalText)
  {
    assert NonEmpty([]) == [] && NonEmpty([TextBlock("")]) == [] by { assert [TextBlock("")][..0] == []; }
    hide WithoutToolUses, FinalBlocks, NonEmpty;
    FinalIsOthers(NonEmpty(if v.emitted != [] then v.emitted else if finalText != "" then [TextBlock(finalText)] else []));
  }

  /** A retry starts from what there is to retry from, or else from the messages made anew and the failed draft. */
  function RetryBase(v: TurnState, finalText: string, built: seq<Message>): seq<Message> {
    if v.retryBase != [] then v.retryBase
    else built + (if Draft(v, finalText) == [] then [] else [Message(Assistant, Blocks(Draft(v, finalText)))])
  }

  /**
   The prompts of one retry: first the reason of the block behind its base, then each the one before and what was added.
   Of the draft nothing stays emitted, and its message is taken back.
   */
  lemma RetryPrompts(v: TurnState, finalText: string, reason: string, a: Attempt, max: nat)
    requires forall j :: PassesOn(a.rounds(j))
    ensures var start := ResampleStart(v, finalText, HiddenMessage(reason), a.built);
            && RetryConversation(start, Resampled(v, finalText, reason, a, max).0.prompts, a.rounds, 0)
            && start.prompts == v.prompts && start.emitted == [] && !start.forceNoThinking && start.recoveryAttempt == v.recoveryAttempt
            && start.canonical == (if v.canonical == [] then [] else v.canonical[..|v.canonical| - 1])
            && start.messages == RetryBase(v, finalText, a.built)
                                 + [Message(User, Plain("Your previous draft was blocked by a runtime verifier. Reason: " + reason))]
  {
    hide ResampleRun, RetryConversation, PassesOn, Draft, FailedBlocks, NonEmpty;
    DraftIs(v, finalText);
    RetryPromptsContinue(ResampleStart(v, finalText, HiddenMessage(reason), a.built), a.rounds, 0, max);
    assert a.built + [] == a.built;
  }

  /** A draft block that is kept has something to say. */
  lemma {:induction false} NonEmptyKeeps(blocks: seq<Block>, b: Block)
    ensures b in NonEmpty(blocks) <==> b in blocks && b != TextBlock("")
  {
    if blocks != [] {
      var front, last := blocks[..|blocks| - 1], blocks[|blocks| - 1];
      NonEmptyKeeps(front, b);
      assert blocks == front + [last];
    }
  }
}
