/**
 The messages a turn sends to the model, and the model identity block that src/turn/MessageBuilder.ts puts among
 them. The interface they are sent to wants every tool use of an assistant message answered by a tool result of the
 very next message.
 */
module Conversation {
  import opened Outcomes

  datatype Block =
    | TextBlock(text: string)
    | Thinking(thinking: string)
    | ToolUse(id: string, name: string, input: string)
    | ToolResult(toolUseId: string, content: string, isError: bool)

  datatype Role = User | Assistant

  datatype Content = Plain(text: string) | Blocks(blocks: seq<Block>)

  datatype Message = Message(role: Role, content: Content)

  // ---- Tool uses and their answers

  function ToolUses(blocks: seq<Block>): (uses: seq<Block>)
    ensures forall k :: 0 <= k < |uses| ==> uses[k].ToolUse?
  {
    if blocks == [] then []
    else ToolUses(blocks[..|blocks| - 1]) + (if blocks[|blocks| - 1].ToolUse? then [blocks[|blocks| - 1]] else [])
  }

  function WithoutToolUses(blocks: seq<Block>): (rest: seq<Block>)
    ensures forall k :: 0 <= k < |rest| ==> !rest[k].ToolUse?
  {
    if blocks == [] then []
    else WithoutToolUses(blocks[..|blocks| - 1]) + (if blocks[|blocks| - 1].ToolUse? then [] else [blocks[|blocks| - 1]])
  }

  function UsedIds(blocks: seq<Block>): seq<string> {
    if blocks == [] then []
    else UsedIds(blocks[..|blocks| - 1]) + (if blocks[|blocks| - 1].ToolUse? then [blocks[|blocks| - 1].id] else [])
  }

  function AnsweredIds(blocks: seq<Block>): seq<string> {
    if blocks == [] then []
    else AnsweredIds(blocks[..|blocks| - 1]) + (if blocks[|blocks| - 1].ToolResult? then [blocks[|blocks| - 1].toolUseId] else [])
  }

  function Uses(m: Message): seq<string> {
    if m.role == Assistant && m.content.Blocks? then UsedIds(m.content.blocks) else []
  }

  /** `beginsWithToolResult` */
  predicate BeginsWithToolResult(m: Message) {
    m.role == User && m.content.Blocks? && m.content.blocks != [] && m.content.blocks[0].ToolResult?
  }

  predicate Answers(m: Message, next: Message) {
    BeginsWithToolResult(next) && multiset(AnsweredIds(next.content.blocks)) == multiset(Uses(m))
  }

  /** Every tool use is answered by the next message. */
  ghost predicate Answered(messages: seq<Message>) {
    forall i :: 0 <= i < |messages| && Uses(messages[i]) != [] ==>
      i + 1 < |messages| && Answers(messages[i], messages[i + 1])
  }

  lemma AnsweredPlus(messages: seq<Message>, m: Message)
    requires Answered(messages) && Uses(m) == []
    ensures Answered(messages + [m])
  {
    hide Uses, Answers;
  }

  lemma AnsweredPlusPair(messages: seq<Message>, m: Message, next: Message)
    requires Answered(messages) && Answers(m, next) && Uses(next) == []
    ensures Answered(messages + [m, next])
  {
    hide Uses, Answers;
    var more := messages + [m, next];
    forall i | 0 <= i < |more| && Uses(more[i]) != [] ensures i + 1 < |more| && Answers(more[i], more[i + 1]) {
      if i < |messages| { assert more[i] == messages[i] && more[i + 1] == messages[i + 1]; }
    }
  }

  lemma {:induction false} IdsOfConcat(a: seq<Block>, b: seq<Block>)
    ensures UsedIds(a + b) == UsedIds(a) + UsedIds(b)
  {
    if b == [] {
      assert a + b == a;
    } else {
      IdsOfConcat(a, b[..|b| - 1]);
      assert (a + b)[..|a + b| - 1] == a + b[..|b| - 1];
    }
  }

  lemma {:induction false} NoIds(blocks: seq<Block>)
    requires forall k :: 0 <= k < |blocks| ==> !blocks[k].ToolUse?
    ensures UsedIds(blocks) == []
  {
    if blocks != [] { NoIds(blocks[..|blocks| - 1]); }
  }

  lemma {:induction false} IdsOfUses(blocks: seq<Block>)
    ensures UsedIds(ToolUses(blocks)) == UsedIds(blocks)
  {
    if blocks != [] {
      var last := blocks[|blocks| - 1];
      IdsOfUses(blocks[..|blocks| - 1]);
      IdsOfConcat(ToolUses(blocks[..|blocks| - 1]), if last.ToolUse? then [last] else []);
      assert [last][..0] == [];
    }
  }

  /** `normalizeAssistantReplayBlocks`: the tool uses last. */
  function Normalize(blocks: seq<Block>): seq<Block> {
    if ToolUses(blocks) == [] then blocks else WithoutToolUses(blocks) + ToolUses(blocks)
  }

  lemma NormalizeKeepsIds(blocks: seq<Block>)
    ensures UsedIds(Normalize(blocks)) == UsedIds(blocks)
  {
    IdsOfConcat(WithoutToolUses(blocks), ToolUses(blocks));
    NoIds(WithoutToolUses(blocks));
    IdsOfUses(blocks);
  }

  /** `finalAssistantReplayBlocks` */
  function FinalBlocks(blocks: seq<Block>): seq<Block> {
    WithoutToolUses(Normalize(blocks))
  }

  // ---- The model identity block

  const IDENTITY_OPEN: string := "<runtime_model_identity hidden=\"true\">"

  predicate Contains(text: string, part: string) {
    |part| <= |text| && (text[..|part|] == part || (text != [] && Contains(text[1..], part)))
  }

  predicate IsIdentityBlock(b: Block) {
    b.TextBlock? && Contains(b.text, IDENTITY_OPEN)
  }

  function WithoutIdentity(blocks: seq<Block>): seq<Block> {
    if blocks == [] then []
    else WithoutIdentity(blocks[..|blocks| - 1]) + (if IsIdentityBlock(blocks[|blocks| - 1]) then [] else [blocks[|blocks| - 1]])
  }

  /** A message without identity text; None if nothing is left of it. */
  function StripMessage(m: Message): Option<Message> {
    match m.content
    case Plain(text) => if Contains(text, IDENTITY_OPEN) then None else Some(m)
    case Blocks(blocks) =>
      if |WithoutIdentity(blocks)| == |blocks| then Some(m)
      else if WithoutIdentity(blocks) == [] then None
      else Some(m.(content := Blocks(WithoutIdentity(blocks))))
  }

  /** `removeRuntimeModelIdentityContext`, from the last message to the first. */
  function RemoveIdentity(messages: seq<Message>): seq<Message> {
    if messages == [] then []
    else
      var m := StripMessage(messages[|messages| - 1]);
      RemoveIdentity(messages[..|messages| - 1]) + (if m.Some? then [m.value] else [])
  }

  /** `appendRuntimeModelIdentityContext`: into a last message of tool results, else before the last message. */
  function AppendIdentity(messages: seq<Message>, identity: string): seq<Message> {
    var ms := RemoveIdentity(messages);
    var block := TextBlock(identity);
    if ms != [] && BeginsWithToolResult(ms[|ms| - 1]) then
      ms[|ms| - 1 := ms[|ms| - 1].(content := Blocks(ms[|ms| - 1].content.blocks + [block]))]
    else
      var at := if |ms| == 0 then 0 else |ms| - 1;
      ms[..at] + [Message(User, Blocks([block]))] + ms[at..]
  }

  lemma IdsOfMore(blocks: seq<Block>, last: Block)
    ensures UsedIds(blocks + [last]) == UsedIds(blocks) + (if last.ToolUse? then [last.id] else [])
    ensures AnsweredIds(blocks + [last]) == AnsweredIds(blocks) + (if last.ToolResult? then [last.toolUseId] else [])
  {
    assert (blocks + [last])[..|blocks|] == blocks;
  }

  lemma {:induction false} StrippingKeepsIds(blocks: seq<Block>)
    ensures UsedIds(WithoutIdentity(blocks)) == UsedIds(blocks)
    ensures AnsweredIds(WithoutIdentity(blocks)) == AnsweredIds(blocks)
  {
    hide IsIdentityBlock, UsedIds, AnsweredIds;
    if blocks != [] {
      var front, last := blocks[..|blocks| - 1], blocks[|blocks| - 1];
      StrippingKeepsIds(front);
      OnlyTextIsIdentity(last);
      IdsOfMore(front, last);
      IdsOfMore(WithoutIdentity(front), last);
      assert blocks == front + [last];
      assert WithoutIdentity(blocks) == if IsIdentityBlock(last) then WithoutIdentity(front) else WithoutIdentity(front) + [last];
      assert UsedIds(front) + [] == UsedIds(front) && AnsweredIds(front) + [] == AnsweredIds(front);
    }
  }

  lemma {:induction false} StrippingKeepsFirst(blocks: seq<Block>)
    requires blocks != [] && !IsIdentityBlock(blocks[0])
    ensures WithoutIdentity(blocks) != [] && WithoutIdentity(blocks)[0] == blocks[0]
  {
    hide IsIdentityBlock;
    if |blocks| > 1 { StrippingKeepsFirst(blocks[..|blocks| - 1]); }
  }

  lemma OnlyTextIsIdentity(b: Block)
    ensures b.ToolUse? || b.ToolResult? ==> !IsIdentityBlock(b)
  {
  }

  /** Stripping leaves tool uses and their answers alone. */
  lemma StripKeepsUses(m: Message)
    ensures Uses(m) != [] ==> StripMessage(m).Some?
    ensures StripMessage(m).Some? ==> Uses(StripMessage(m).value) == Uses(m)
    ensures BeginsWithToolResult(m) ==>
              StripMessage(m).Some? && BeginsWithToolResult(StripMessage(m).value)
              && AnsweredIds(StripMessage(m).value.content.blocks) == AnsweredIds(m.content.blocks)
  {
    if m.content.Blocks? {
      StrippingKeepsIds(m.content.blocks);
      if BeginsWithToolResult(m) {
        OnlyTextIsIdentity(m.content.blocks[0]);
        StrippingKeepsFirst(m.content.blocks);
      }
      hide WithoutIdentity, AnsweredIds, IsIdentityBlock;
    }
  }

  lemma StripKeepsAnswers(m: Message, next: Message)
    requires Answers(m, next)
    ensures StripMessage(next).Some?
    ensures StripMessage(m).Some? ==> Answers(StripMessage(m).value, StripMessage(next).value)
  {
    StripKeepsUses(m);
    StripKeepsUses(next);
    hide StripMessage, AnsweredIds;
  }

  /** As Answered, but the last message may still wait for its answers. */
  ghost predicate AnsweredSoFar(messages: seq<Message>) {
    forall i :: 0 <= i < |messages| - 1 && Uses(messages[i]) != [] ==> Answers(messages[i], messages[i + 1])
  }

  /** A stripped conversation that ends with tool uses ends with the stripped last message. */
  ghost predicate EndsAlike(messages: seq<Message>, stripped: seq<Message>) {
    stripped != [] && Uses(stripped[|stripped| - 1]) != [] ==>
      && messages != [] && Uses(messages[|messages| - 1]) != []
      && StripMessage(messages[|messages| - 1]) == Some(stripped[|stripped| - 1])
  }

  lemma {:induction false} RemovingKeepsAnswers(messages: seq<Message>)
    requires AnsweredSoFar(messages)
    ensures AnsweredSoFar(RemoveIdentity(messages)) && EndsAlike(messages, RemoveIdentity(messages))
  {
    hide Uses, Answers, StripMessage;
    if messages != [] {
      var front, m := messages[..|messages| - 1], messages[|messages| - 1];
      RemovingKeepsAnswers(front);
      StripKeepsUses(m);
      if front != [] && Uses(front[|front| - 1]) != [] {
        assert Answers(messages[|messages| - 2], messages[|messages| - 1]);
        StripKeepsAnswers(front[|front| - 1], m);
      }
    }
  }

  lemma AnsweredEnds(messages: seq<Message>)
    ensures Answered(messages) <==> AnsweredSoFar(messages) && (messages != [] ==> Uses(messages[|messages| - 1]) == [])
  {
    hide Uses, Answers;
  }

  lemma IdentityIntoResults(messages: seq<Message>, block: Block)
    requires Answered(messages) && messages != [] && BeginsWithToolResult(messages[|messages| - 1]) && block.TextBlock?
    ensures var n := |messages| - 1;
            Answered(messages[n := messages[n].(content := Blocks(messages[n].content.blocks + [block]))])
  {
    var n := |messages| - 1;
    var last := messages[n];
    var filled := last.(content := Blocks(last.content.blocks + [block]));
    assert (last.content.blocks + [block])[..|last.content.blocks|] == last.content.blocks;
    assert AnsweredIds(filled.content.blocks) == AnsweredIds(last.content.blocks);
    assert BeginsWithToolResult(filled) && Uses(filled) == [];
    hide Uses, AnsweredIds, BeginsWithToolResult;
    var updated := messages[n := filled];
    forall i | 0 <= i < |updated| && Uses(updated[i]) != [] ensures i + 1 < |updated| && Answers(updated[i], updated[i + 1]) {
      assert Answers(messages[i], messages[i + 1]);
    }
  }

  lemma IdentityBeforeLast(messages: seq<Message>, m: Message)
    requires Answered(messages) && Uses(m) == []
    requires messages != [] ==> !BeginsWithToolResult(messages[|messages| - 1])
    ensures var at := if |messages| == 0 then 0 else |messages| - 1;
            Answered(messages[..at] + [m] + messages[at..])
  {
    hide Uses, AnsweredIds, BeginsWithToolResult;
    var at := if |messages| == 0 then 0 else |messages| - 1;
    var more := messages[..at] + [m] + messages[at..];
    forall i | 0 <= i < |more| && Uses(more[i]) != [] ensures i + 1 < |more| && Answers(more[i], more[i + 1]) {
      if i < at { assert Answers(messages[i], messages[i + 1]); }
    }
  }

  /** The identity block never comes between a tool use and its result. */
  lemma IdentityKeepsAnswers(messages: seq<Message>, identity: string)
    requires Answered(messages)
    ensures Answered(AppendIdentity(messages, identity))
  {
    hide Uses, Answers, StripMessage, BeginsWithToolResult, Answered;
    AnsweredEnds(messages);
    RemovingKeepsAnswers(messages);
    var ms := RemoveIdentity(messages);
    AnsweredEnds(ms);
    hide RemoveIdentity;
    if ms != [] && BeginsWithToolResult(ms[|ms| - 1]) {
      IdentityIntoResults(ms, TextBlock(identity));
    } else {
      var m := Message(User, Blocks([TextBlock(identity)]));
      assert Uses(m) == [] by { UsersUseNothing(m); }
      IdentityBeforeLast(ms, m);
    }
  }

  lemma UsersUseNothing(m: Message)
    ensures m.role == User || m.content.Plain? ==> Uses(m) == []
  {
  }
}
