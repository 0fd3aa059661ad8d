/** What the payloads of src/llm/sseUtils.ts mean that lack fields, carry odd ones, or end a message otherwise. */
module AnthropicPayloads {
  import opened Outcomes
  import opened Text
  import opened SseLines
  import opened AnthropicSse

  /** The member of an object, unless it is absent or null; then the default. */
  function Member(fields: map<string, Json>, key: string, default_: Json): Json {
    if key in fields && fields[key] != Null then fields[key] else default_
  }

  /** An error ends the message with its type and message, or with the names for what it lacks. */
  lemma ErrorMeans(r: Run, fields: map<string, Json>)
    ensures OnPayload(r, "error", Obj(map["error" := Obj(fields)]))
         == Run(r.stopReason, r.usage, Finished, r.events + [Error(Member(fields, "type", Str("upstream_error")), Member(fields, "message", Str("unknown")))])
  {
  }

  lemma ErrorWithoutObject(r: Run, payload: Json)
    requires payload != Null && (payload.Obj? && "error" in payload.fields ==> !payload.fields["error"].Obj?)
    ensures OnPayload(r, "error", payload)
         == Run(r.stopReason, r.usage, Finished, r.events + [Error(Str("upstream_error"), Str("unknown"))])
  {
  }

  /** A block without an index is block 0. */
  lemma IndexMeans(r: Run, fields: map<string, Json>)
    ensures OnPayload(r, "content_block_stop", Obj(fields)) == r.Emit(BlockStop(Member(fields, "index", Num(0))))
  {
  }

  /** A tool use starts with an id and a name, and nothing else does. */
  lemma BlockStartMeans(r: Run, fields: map<string, Json>, block: map<string, Json>)
    requires "content_block" in fields && fields["content_block"] == Obj(block)
    ensures var u := OnPayload(r, "content_block_start", Obj(fields));
            if "type" in block && block["type"] == Str("tool_use") && "id" in block && Truthy(Some(block["id"]))
               && "name" in block && Truthy(Some(block["name"])) then
              u == r.Emit(ToolUseStart(Member(fields, "index", Num(0)), block["id"], block["name"]))
            else u == r
  {
  }

  /** The kinds of delta, the field each is read from, and what it makes; without a text only a tool's input is passed on. */
  lemma DeltaMeans(r: Run, fields: map<string, Json>, delta: map<string, Json>)
    requires "delta" in fields && fields["delta"] == Obj(delta)
    ensures var u, i := OnPayload(r, "content_block_delta", Obj(fields)), Member(fields, "index", Num(0));
            var kind := if "type" in delta then delta["type"] else Null;
            var text, thinking := Member(delta, "text", Str("")), Member(delta, "thinking", Str(""));
            var signature, partial := Member(delta, "signature", Str("")), Member(delta, "partial_json", Str(""));
            if kind == Str("text_delta") then u == if Truthy(Some(text)) then r.Emit(TextDelta(i, text)) else r
            else if kind == Str("thinking_delta") then u == if Truthy(Some(thinking)) then r.Emit(ThinkingDelta(i, thinking)) else r
            else if kind == Str("signature_delta") then u == if Truthy(Some(signature)) then r.Emit(ThinkingSignature(i, signature)) else r
            else if kind == Str("input_json_delta") then u == r.Emit(ToolUseInputDelta(i, partial))
            else u == r
  {
  }

  /** Opening usage replaces what it has; closing usage only by numbers. */
  lemma OpeningUsageMeans(r: Run, message: map<string, Json>, usage: map<string, Json>)
    requires "usage" in message && message["usage"] == Obj(usage)
    ensures OnPayload(r, "message_start", Obj(map["message" := Obj(message)]))
         == Run(r.stopReason, Usage(Member(usage, "input_tokens", r.usage.inputTokens), Member(usage, "output_tokens", r.usage.outputTokens)), r.status, r.events)
  {
  }

  lemma ClosingMeans(r: Run, delta: map<string, Json>, usage: map<string, Json>)
    ensures var u := OnPayload(r, "message_delta", Obj(map["delta" := Obj(delta), "usage" := Obj(usage)]));
            && u.status == r.status && u.events == r.events
            && u.stopReason == (if "stop_reason" in delta && Truthy(Some(delta["stop_reason"])) then Some(delta["stop_reason"]) else r.stopReason)
            && u.usage.inputTokens == (if "input_tokens" in usage && usage["input_tokens"].Num? then usage["input_tokens"] else r.usage.inputTokens)
            && u.usage.outputTokens == (if "output_tokens" in usage && usage["output_tokens"].Num? then usage["output_tokens"] else r.usage.outputTokens)
  {
  }

  /** A message that is stopped without a reason has ended its turn; a stream that only closes has no reason. */
  lemma EndMeans(r: Run, payload: Json)
    ensures var u := OnPayload(r, "message_stop", payload);
            u.status == Finished && u.events == r.events + [MessageEnd(Some(if r.stopReason.Some? then r.stopReason.value else Str("end_turn")), r.usage)]
    ensures r.status == Running ==> Close(r).events == r.events + [MessageEnd(r.stopReason, r.usage)]
    ensures r.status != Running ==> Close(r) == r
  {
  }

  /** Events of other names, and pings, are passed over. */
  lemma OtherEventsAreIgnored(r: Run, event: string, payload: Json)
    requires event !in READS_PAYLOAD && event != "message_stop"
    ensures OnPayload(r, event, payload) == r
  {
  }

  /** What is no JSON is passed over, and once the run has stopped everything is. */
  lemma BadFramesAreIgnored(r: Run, f: Frame, parse: string -> Option<Json>)
    requires parse(f.data) == None || r.status != Running
    ensures OnFrame(r, f, parse) == r
  {
  }

  predicate IsTruthyValue(j: Json) {
    j != Null && j != Bool(false) && j != Num(0) && j != Str("")
  }

  lemma TruthyMeans(j: Json)
    ensures Truthy(Some(j)) <==> IsTruthyValue(j)
    ensures !Truthy(None)
  {
  }

  // ---- A message that fails

  function ErrorFrame(code: Json, message: Json, c: Codec): Frame {
    Frame("error", c.render(One("error", Two("type", code, "message", message))))
  }

  lemma ErrorFrameReads(r: Run, code: Json, message: Json, c: Codec)
    requires Lawful(c) && r.status == Running && code != Null && message != Null
    ensures OnFrame(r, ErrorFrame(code, message, c), c.parse).events == r.events + [Error(code, message)]
    ensures OnFrame(r, ErrorFrame(code, message, c), c.parse).status == Finished
  {
    var payload := One("error", Two("type", code, "message", message));
    ErrorMeans(r, map["type" := code, "message" := message]);
    hide OnPayload, DataText;
    assert c.parse(c.render(payload)) == Some(payload);
  }

  /** A message that breaks off with an error is read back as its events and the error. */
  lemma ErrorReadBack(opening: Usage, body: seq<LlmEvent>, code: Json, message: Json, c: Codec)
    requires Lawful(c) && (forall e :: e in body ==> IsBodyEvent(e))
    requires CountsTokens(opening) && code != Null && message != Null
    ensures var first := Frame("message_start", c.render(One("message", One("usage", UsageJson(opening)))));
            var stream := StreamText([first] + BodyFrames(body, c) + [ErrorFrame(code, message, c)]);
            AnthropicMeaning(stream, c.parse).events == body + [Error(code, message)]
  {
    hide BodyFrame, Lawful, UsageJson, OnFrame, OnFrames, IsBodyEvent, CompleteLines, FramesOf, StreamText, Writable, ErrorFrame;
    var first := Frame("message_start", c.render(One("message", One("usage", UsageJson(opening)))));
    var frames := [first] + BodyFrames(body, c);
    FailingIsWritable(opening, body, code, message, c);
    StreamReadBack(frames + [ErrorFrame(code, message, c)]);
    OpeningReadBack(opening, c);
    FirstFrame(first, c.parse);
    BodyReadBack(first, opening, body, c);
    OnFramesMore(frames, Some(ErrorFrame(code, message, c)), c.parse);
    ErrorFrameReads(Run(None, opening, Running, body), code, message, c);
  }

  lemma FailingIsWritable(opening: Usage, body: seq<LlmEvent>, code: Json, message: Json, c: Codec)
    requires Lawful(c) && (forall e :: e in body ==> IsBodyEvent(e))
    ensures var first := Frame("message_start", c.render(One("message", One("usage", UsageJson(opening)))));
            Writable([first] + BodyFrames(body, c) + [ErrorFrame(code, message, c)])
  {
    hide UsageJson, DataText, Lawful, IsBodyEvent;
    BodyIsWritable(body, c);
    RenderedIsData(c, One("message", One("usage", UsageJson(opening))));
    RenderedIsData(c, One("error", Two("type", code, "message", message)));
    assert EventName("message_start") && EventName("error");
    hide EventName;
  }
}
