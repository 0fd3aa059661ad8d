/**
 `parseAnthropicSse` of src/llm/sseUtils.ts. JSON.parse is a parameter:
 None stands for a syntax error. A stream arrives in any chunks of characters.
 */
module AnthropicSse {
  import opened Outcomes
  import opened Text
  import opened SseLines

  // ---- JSON values and the property access of ECMAScript

  /**
   The finite doubles by rank: 0 is zero, and n is the n-th one above it or, if negative, below it. Minus zero, which
   JSON.stringify does not keep either, is taken as zero.
   */
  type Double = n: int | -0x7fef_ffff_ffff_ffff <= n <= 0x7fef_ffff_ffff_ffff

  datatype Json =
    | Null
    | Bool(b: bool)
    | Num(n: Double)
    | Str(s: string)
    | Arr(items: seq<Json>)
    | Obj(fields: map<string, Json>)

  /** `j?.key`; None is undefined. */
  function Get(j: Json, key: string): Option<Json> {
    if j.Obj? && key in j.fields then Some(j.fields[key]) else None
  }

  function GetIn(j: Option<Json>, key: string): Option<Json> {
    if j.Some? then Get(j.value, key) else None
  }

  /** `x ?? d` */
  function OrElse(x: Option<Json>, d: Json): Json {
    if x.None? || x.value.Null? then d else x.value
  }

  predicate Truthy(x: Option<Json>) {
    match x
    case None => false
    case Some(j) =>
      match j
      case Null => false
      case Bool(b) => b
      case Num(n) => n != 0
      case Str(s) => s != ""
      case Arr(_) => true
      case Obj(_) => true
  }

  // ---- Events

  datatype Usage = Usage(inputTokens: Json, outputTokens: Json)

  datatype LlmEvent =
    | ToolUseStart(blockIndex: Json, id: Json, name: Json)
    | TextDelta(blockIndex: Json, delta: Json)
    | ThinkingDelta(blockIndex: Json, delta: Json)
    | ThinkingSignature(blockIndex: Json, signature: Json)
    | ToolUseInputDelta(blockIndex: Json, partial: Json)
    | BlockStop(blockIndex: Json)
    | MessageEnd(stopReason: Option<Json>, usage: Usage)
    | Error(code: Json, message: Json)

  /** Reading on, stopped after a terminal event, or stopped by a TypeError. */
  datatype Status = Running | Finished | Threw

  datatype Run = Run(stopReason: Option<Json>, usage: Usage, status: Status, events: seq<LlmEvent>) {
    function Emit(e: LlmEvent): Run {
      this.(events := events + [e])
    }

    function Finish(e: LlmEvent): Run {
      this.(events := events + [e], status := Finished)
    }
  }

  const START: Run := Run(None, Usage(Num(0), Num(0)), Running, [])

  const READS_PAYLOAD: set<string> :=
    {"message_start", "content_block_start", "content_block_delta", "content_block_stop", "message_delta", "error"}

  function OnDelta(r: Run, idx: Json, delta: Json): Run {
    var t := Get(delta, "type");
    if t == Some(Str("text_delta")) then
      var text := OrElse(Get(delta, "text"), Str(""));
      if Truthy(Some(text)) then r.Emit(TextDelta(idx, text)) else r
    else if t == Some(Str("thinking_delta")) then
      var text := OrElse(Get(delta, "thinking"), Str(""));
      if Truthy(Some(text)) then r.Emit(ThinkingDelta(idx, text)) else r
    else if t == Some(Str("signature_delta")) then
      var sig := OrElse(Get(delta, "signature"), Str(""));
      if Truthy(Some(sig)) then r.Emit(ThinkingSignature(idx, sig)) else r
    else if t == Some(Str("input_json_delta")) then
      r.Emit(ToolUseInputDelta(idx, OrElse(Get(delta, "partial_json"), Str(""))))
    else r
  }

  /** The `switch` on the event name. Reading a property of a null payload throws. */
  function OnPayload(r: Run, event: string, payload: Json): Run {
    if payload.Null? && event in READS_PAYLOAD then r.(status := Threw)
    else if event == "message_start" then
      var u := GetIn(Get(payload, "message"), "usage");
      if Truthy(u) then
        r.(usage := Usage(OrElse(Get(u.value, "input_tokens"), r.usage.inputTokens),
                          OrElse(Get(u.value, "output_tokens"), r.usage.outputTokens)))
      else r
    else if event == "content_block_start" then
      var idx := OrElse(Get(payload, "index"), Num(0));
      var block := Get(payload, "content_block");
      var id, name := GetIn(block, "id"), GetIn(block, "name");
      if GetIn(block, "type") == Some(Str("tool_use")) && Truthy(id) && Truthy(name) then
        r.Emit(ToolUseStart(idx, id.value, name.value))
      else r
    else if event == "content_block_delta" then
      var idx := OrElse(Get(payload, "index"), Num(0));
      var delta := Get(payload, "delta");
      if Truthy(delta) then OnDelta(r, idx, delta.value) else r
    else if event == "content_block_stop" then
      r.Emit(BlockStop(OrElse(Get(payload, "index"), Num(0))))
    else if event == "message_delta" then
      var reason := GetIn(Get(payload, "delta"), "stop_reason");
      var r' := if Truthy(reason) then r.(stopReason := reason) else r;
      var u := Get(payload, "usage");
      if Truthy(u) then
        var input, output := Get(u.value, "input_tokens"), Get(u.value, "output_tokens");
        r'.(usage := Usage(if input.Some? && input.value.Num? then input.value else r.usage.inputTokens,
                           if output.Some? && output.value.Num? then output.value else r.usage.outputTokens))
      else r'
    else if event == "message_stop" then
      r.Finish(MessageEnd(Some(if r.stopReason.Some? then r.stopReason.value else Str("end_turn")), r.usage))
    else if event == "error" then
      var err := Get(payload, "error");
      r.Finish(Error(OrElse(GetIn(err, "type"), Str("upstream_error")), OrElse(GetIn(err, "message"), Str("unknown"))))
    else r
  }

  function OnFrame(r: Run, f: Frame, parse: string -> Option<Json>): Run {
    var payload := parse(f.data);
    if r.status != Running || payload.None? then r else OnPayload(r, f.event, payload.value)
  }

  function OnFrames(frames: seq<Frame>, parse: string -> Option<Json>): Run {
    if frames == [] then START
    else OnFrame(OnFrames(frames[..|frames| - 1], parse), frames[|frames| - 1], parse)
  }

  /** A stream that closes without a terminal frame still ends the message. */
  function Close(r: Run): Run {
    if r.status == Running then r.Finish(MessageEnd(r.stopReason, r.usage)) else r
  }

  /** What a whole stream means, however it is cut. */
  function AnthropicMeaning(stream: string, parse: string -> Option<Json>): Run {
    Close(OnFrames(StreamFrames(stream), parse))
  }

  // ---- The parsers

  lemma FramesOfMore(event: string, lines: seq<string>, next: string)
    ensures var f := FramesOf(event, lines); var r := ReadLine(f.1, next);
            FramesOf(event, lines + [next]) == (f.0 + FrameList(r.frame), r.event)
  {
    assert (lines + [next])[..|lines|] == lines;
  }

  lemma OnFramesMore(frames: seq<Frame>, next: Option<Frame>, parse: string -> Option<Json>)
    ensures OnFrames(frames + FrameList(next), parse) ==
            if next.Some? then OnFrame(OnFrames(frames, parse), next.value, parse) else OnFrames(frames, parse)
  {
    if next.Some? {
      assert (frames + [next.value])[..|frames|] == frames;
    } else {
      assert frames + [] == frames;
    }
  }

  lemma {:induction false} FramesOfConcat(event: string, a: seq<string>, b: seq<string>)
    ensures var f := FramesOf(event, a); var g := FramesOf(f.1, b);
            FramesOf(event, a + b) == (f.0 + g.0, g.1)
  {
    var f := FramesOf(event, a);
    if b == [] {
      assert a + b == a && f.0 + [] == f.0;
    } else {
      hide ReadLine, FramesOf;
      var b', x := b[..|b| - 1], b[|b| - 1];
      FramesOfConcat(event, a, b');
      FramesOfMore(event, a + b', x);
      FramesOfMore(f.1, b', x);
      FrontAndLast(a, b);
      var g := FramesOf(f.1, b');
      FramesRegroup(f.0, g.0, FrameList(ReadLine(g.1, x).frame));
    }
  }

  lemma FrontAndLast(a: seq<string>, b: seq<string>)
    requires b != []
    ensures b[..|b| - 1] + [b[|b| - 1]] == b && (a + b[..|b| - 1]) + [b[|b| - 1]] == a + b
  {
  }

  lemma FramesRegroup(a: seq<Frame>, b: seq<Frame>, c: seq<Frame>)
    ensures (a + b) + c == a + (b + c)
  {
  }

  /** A run that has stopped ignores whatever frames follow. */
  lemma {:induction false} StoppedIsFinal(a: seq<Frame>, b: seq<Frame>, parse: string -> Option<Json>)
    requires OnFrames(a, parse).status != Running
    ensures OnFrames(a + b, parse) == OnFrames(a, parse)
  {
    hide OnPayload;
    if b == [] {
      assert a + b == a;
    } else {
      StoppedIsFinal(a, b[..|b| - 1], parse);
      assert (a + b)[..|a + b| - 1] == a + b[..|b| - 1];
    }
  }

  lemma StreamFramesGrow(a: string, b: string)
    ensures StreamFrames(a) <= StreamFrames(a + b)
  {
    LinesOfPieces(a, b);
    FramesOfConcat("", CompleteLines(a), CompleteLines(Remainder(a) + b));
  }

  lemma {:induction false} ConcatStarts(chunks: seq<string>, k: nat)
    requires k <= |chunks|
    ensures Concat(chunks[..k]) <= Concat(chunks)
    decreases |chunks|
  {
    if k == |chunks| {
      assert chunks[..k] == chunks;
    } else {
      ConcatStarts(chunks[..|chunks| - 1], k);
      assert chunks[..|chunks| - 1][..k] == chunks[..k];
    }
  }

  method ParseAnthropicSse(chunks: seq<string>, parse: string -> Option<Json>) returns (events: seq<LlmEvent>, threw: bool)
    ensures events == AnthropicMeaning(Concat(chunks), parse).events
    ensures threw <==> AnthropicMeaning(Concat(chunks), parse).status == Threw
  {
    hide CompleteLines, Remainder, SplitOn, ReadLine, OnPayload, FramesOf, OnFrames;
    var buffer, currentEvent := "", "";
    var run := START;
    EmptyStart(parse);
    for i := 0 to |chunks|
      invariant buffer == Remainder(Concat(chunks[..i]))
      invariant currentEvent == FramesOf("", CompleteLines(Concat(chunks[..i]))).1
      invariant run == OnFrames(StreamFrames(Concat(chunks[..i])), parse)
      invariant run.status == Running
    {
      var chunk := chunks[i];
      ghost var before := Concat(chunks[..i]);
      assert Concat(chunks[..i + 1]) == before + chunk by { assert chunks[..i + 1][..i] == chunks[..i]; }
      LinesOfPieces(before, chunk);
      buffer := buffer + chunk;
      var lines := CompleteLines(buffer);
      buffer := Remainder(buffer);
      ghost var seen := CompleteLines(before);
      assert lines[..0] == [] && seen + [] == seen;
      for k := 0 to |lines|
        invariant currentEvent == FramesOf("", seen + lines[..k]).1
        invariant run == OnFrames(FramesOf("", seen + lines[..k]).0, parse)
        invariant run.status == Running
      {
        FramesOfMore("", seen + lines[..k], lines[k]);
        assert seen + lines[..k + 1] == seen + lines[..k] + [lines[k]];
        var read := ReadLine(currentEvent, lines[k]);
        OnFramesMore(FramesOf("", seen + lines[..k]).0, read.frame, parse);
        currentEvent := read.event;
        if read.frame.Some? {
          var payload := parse(read.frame.value.data);
          if payload.Some? {
            run := OnPayload(run, read.frame.value.event, payload.value);
            if run.status != Running {
              StopsEarly(chunks, i, seen + lines[..k + 1], parse);
              return run.events, run.status == Threw;
            }
          }
        }
      }
      assert lines[..|lines|] == lines;
    }
    assert chunks[..|chunks|] == chunks;
    run := Close(run);
    events, threw := run.events, false;
  }

  lemma EmptyStart(parse: string -> Option<Json>)
    ensures Remainder(Concat([])) == "" && CompleteLines(Concat([])) == []
    ensures FramesOf("", []) == ([], "") && OnFrames([], parse) == START
  {
  }

  /** Once some lines of the stream stop the run, the whole stream means what it has emitted. */
  lemma StopsEarly(chunks: seq<string>, i: nat, lines: seq<string>, parse: string -> Option<Json>)
    requires i < |chunks| && lines <= CompleteLines(Concat(chunks[..i + 1]))
    requires OnFrames(FramesOf("", lines).0, parse).status != Running
    ensures AnthropicMeaning(Concat(chunks), parse) == OnFrames(FramesOf("", lines).0, parse)
  {
    hide CompleteLines, OnPayload, ReadLine, OnFrames, FramesOf, Concat;
    var part, whole := Concat(chunks[..i + 1]), Concat(chunks);
    ConcatStarts(chunks, i + 1);
    var rest := whole[|part|..];
    assert whole == part + rest;
    var all := CompleteLines(part);
    assert all == lines + all[|lines|..];
    FramesOfConcat("", lines, all[|lines|..]);
    StreamFramesGrow(part, rest);
    var f, g := FramesOf("", lines).0, StreamFrames(whole);
    assert f <= g;
    assert g == f + g[|f|..];
    StoppedIsFinal(f, g[|f|..], parse);
  }

  // ---- One terminal event

  predicate IsTerminal(e: LlmEvent) { e.MessageEnd? || e.Error? }

  /** No terminal event but, once finished, the last. */
  predicate TerminatedOnce(r: Run) {
    var n := |r.events|;
    && (r.status == Finished ==> n > 0 && IsTerminal(r.events[n - 1]))
    && forall i :: 0 <= i < (if r.status == Finished then n - 1 else n) ==> !IsTerminal(r.events[i])
  }

  lemma {:induction false} RunTerminatesOnce(frames: seq<Frame>, parse: string -> Option<Json>)
    ensures TerminatedOnce(OnFrames(frames, parse))
  {
    if frames != [] {
      RunTerminatesOnce(frames[..|frames| - 1], parse);
      var f := frames[|frames| - 1];
      var r := OnFrames(frames[..|frames| - 1], parse);
      if r.status == Running && parse(f.data).Some? {
        PayloadKeepsTermination(r, f.event, parse(f.data).value);
      }
    }
  }

  lemma PayloadKeepsTermination(r: Run, event: string, payload: Json)
    requires r.status == Running && TerminatedOnce(r)
    ensures TerminatedOnce(OnPayload(r, event, payload))
  {
  }

  /** Every stream ends in exactly one terminal event, last, unless the parser throws; then it has none. */
  lemma ExactlyOneTerminalEvent(stream: string, parse: string -> Option<Json>)
    ensures var r := AnthropicMeaning(stream, parse);
            && r.status != Running
            && (r.status == Finished <==> r.events != [] && IsTerminal(r.events[|r.events| - 1]))
            && (forall i :: 0 <= i < |r.events| - 1 ==> !IsTerminal(r.events[i]))
            && (r.status == Threw ==> forall e :: e in r.events ==> !IsTerminal(e))
  {
    hide OnPayload;
    RunTerminatesOnce(StreamFrames(stream), parse);
  }

  /** The frame at `k` is a null payload of an event whose payload is read, and the run is still on. */
  ghost predicate NullReadAt(frames: seq<Frame>, k: nat, parse: string -> Option<Json>) {
    && k < |frames| && frames[k].event in READS_PAYLOAD && parse(frames[k].data) == Some(Null)
    && OnFrames(frames[..k], parse).status == Running
  }

  /** The parser throws exactly when such a null payload is reached. */
  lemma {:induction false} ThrowsExactlyOnNull(frames: seq<Frame>, parse: string -> Option<Json>)
    ensures OnFrames(frames, parse).status == Threw <==> exists k :: NullReadAt(frames, k, parse)
  {
    if frames != [] {
      var n := |frames| - 1;
      var before := frames[..n];
      ThrowsExactlyOnNull(before, parse);
      forall k | 0 <= k < n ensures NullReadAt(frames, k, parse) <==> NullReadAt(before, k, parse) {
        assert before[..k] == frames[..k];
      }
      if OnFrames(before, parse).status == Running && parse(frames[n].data).Some? {
        PayloadThrows(OnFrames(before, parse), frames[n].event, parse(frames[n].data).value);
      }
      hide OnPayload;
      if OnFrames(frames, parse).status == Threw {
        if OnFrames(before, parse).status == Threw {
          var k: nat :| NullReadAt(before, k, parse);
          assert NullReadAt(frames, k, parse);
        } else {
          assert NullReadAt(frames, n, parse);
        }
      }
    }
  }

  lemma PayloadThrows(r: Run, event: string, payload: Json)
    requires r.status != Threw
    ensures OnPayload(r, event, payload).status == Threw <==> payload.Null? && event in READS_PAYLOAD
  {
  }

  // ---- The standard's dispatches mean the same

  lemma {:induction false} TypedMeansTheSame(frames: seq<Frame>, parse: string -> Option<Json>)
    ensures OnFrames(Typed(frames), parse) == OnFrames(frames, parse)
  {
    if frames != [] {
      hide OnPayload;
      var n := |frames| - 1;
      TypedMeansTheSame(frames[..n], parse);
      assert Typed(frames)[..n] == Typed(frames[..n]);
      MessageIsDefault(OnFrames(frames[..n], parse), frames[n], parse);
    }
  }

  lemma MessageIsDefault(r: Run, f: Frame, parse: string -> Option<Json>)
    ensures OnFrame(r, f.(event := EventType(f.event)), parse) == OnFrame(r, f, parse)
  {
  }

  /** On plain streams with clean dispatches the parser acts on what section 9.2.6 of the standard dispatches. */
  lemma CleanStreamsMeanWhatIsDispatched(stream: string, parse: string -> Option<Json>)
    requires PlainStream(stream) && AllClean(WhatwgDispatches(stream))
    ensures AnthropicMeaning(stream, parse) == Close(OnFrames(WhatwgDispatches(stream), parse))
  {
    hide OnFrames, PlainStream, AllClean, WhatwgDispatches;
    CleanStreamsFrameAsDispatched(stream);
    TypedMeansTheSame(StreamFrames(stream), parse);
  }

  // ---- Writing a stream and reading it back

  datatype Codec = Codec(render: Json -> string, parse: string -> Option<Json>)

  /** JSON text has no line ends, no white space around it, and parses back. */
  ghost predicate Lawful(c: Codec) {
    forall j :: var t := c.render(j); DataText(t) && c.parse(t) == Some(j)
  }

  predicate DataText(t: string) {
    t != "" && t != "[DONE]" && Trimmed(t) && '\n' !in t
  }

  predicate EventName(e: string) {
    Trimmed(e) && '\n' !in e
  }

  function FrameText(f: Frame): string {
    "event: " + f.event + "\n" + ("data: " + f.data + "\n" + "\n")
  }

  function StreamText(frames: seq<Frame>): string {
    if frames == [] then "" else StreamText(frames[..|frames| - 1]) + FrameText(frames[|frames| - 1])
  }

  lemma LinesOfLine(line: string, rest: string)
    requires '\n' !in line
    ensures CompleteLines(line + "\n" + rest) == [line] + CompleteLines(rest)
    ensures Remainder(line + "\n" + rest) == Remainder(rest)
  {
    SplitWithout(line, '\n');
    SplitConcat(line, "\n" + rest, '\n');
    var q := SplitOn(rest, '\n');
    assert ("\n" + rest)[1..] == rest;
    assert line + [] == line;
    assert Merge([line], [[]] + q) == [line] + q;
    assert line + "\n" + rest == line + ("\n" + rest);
  }

  lemma FrameTextLines(f: Frame)
    requires EventName(f.event) && DataText(f.data)
    ensures Remainder(FrameText(f)) == ""
    ensures CompleteLines(FrameText(f)) == ["event: " + f.event, "data: " + f.data, ""]
  {
    hide CompleteLines, Remainder;
    var e, d := "event: " + f.event, "data: " + f.data;
    EmptyText();
    var blank, rest := "" + "\n" + "", d + "\n" + "\n";
    assert blank == "\n" && d + "\n" + blank == rest && e + "\n" + rest == FrameText(f);
    LinesOfLine("", "");
    LinesOfLine(d, blank);
    LinesOfLine(e, rest);
    assert [""] + [] == [""] && [d] + [""] == [d, ""] && [e] + [d, ""] == [e, d, ""];
  }

  lemma EmptyText()
    ensures CompleteLines("") == [] && Remainder("") == "" && FramesOf("", []) == ([], "")
  {
  }

  lemma FrameReadBack(f: Frame)
    requires EventName(f.event) && f.event != "" && DataText(f.data)
    ensures FramesOf("", CompleteLines(FrameText(f))) == ([f], "")
  {
    hide CompleteLines, ReadLine, FramesOf, FrameText;
    var e, d := "event: " + f.event, "data: " + f.data;
    FrameTextLines(f);
    EmptyText();
    ReadFrameLines(f);
    FramesOfMore("", [], e);
    FramesOfMore("", [e], d);
    FramesOfMore("", [e, d], "");
    assert [] + [e] == [e] && [e] + [d] == [e, d] && [e, d] + [""] == [e, d, ""];
    assert [] + FrameList(None) + FrameList(Some(f)) + FrameList(None) == [f];
  }

  lemma ReadFrameLines(f: Frame)
    requires EventName(f.event) && f.event != "" && DataText(f.data)
    ensures ReadLine("", "event: " + f.event) == LineResult(f.event, None)
    ensures ReadLine(f.event, "data: " + f.data) == LineResult(f.event, Some(f))
    ensures ReadLine(f.event, "") == LineResult("", None)
  {
    var e, d := "event: " + f.event, "data: " + f.data;
    assert e[6..] == " " + f.event && d[5..] == " " + f.data;
    TrimmedIsFixed(e);
    TrimmedIsFixed(d);
    TrimmedIsFixed(f.event);
    TrimmedIsFixed(f.data);
    assert (" " + f.event)[1..] == f.event && (" " + f.data)[1..] == f.data;
  }

  predicate WritableFrame(f: Frame) {
    EventName(f.event) && f.event != "" && DataText(f.data)
  }

  ghost predicate Writable(frames: seq<Frame>) {
    forall f :: f in frames ==> WritableFrame(f)
  }

  /** Frames written one after the other are read back, in order. */
  lemma {:induction false} StreamReadBack(frames: seq<Frame>)
    requires Writable(frames)
    ensures Remainder(StreamText(frames)) == ""
    ensures FramesOf("", CompleteLines(StreamText(frames))) == (frames, "")
  {
    hide ReadLine, CompleteLines, Remainder, FrameText, FramesOf, EventName, DataText;
    EmptyText();
    if frames != [] {
      var before, f := frames[..|frames| - 1], frames[|frames| - 1];
      StreamReadBack(before);
      assert WritableFrame(f) by { assert f in frames; }
      FrameTextLines(f);
      FrameReadBack(f);
      LinesOfPieces(StreamText(before), FrameText(f));
      assert "" + FrameText(f) == FrameText(f);
      FramesOfConcat("", CompleteLines(StreamText(before)), CompleteLines(FrameText(f)));
      assert before + [f] == frames;
    }
  }

  /** Such a stream: behind any frames read without a stop, a `null` under an event whose payload is looked into. */
  lemma NullPayloadThrows(before: seq<Frame>, event: string, parse: string -> Option<Json>)
    requires Writable(before) && OnFrames(before, parse).status == Running
    requires event in READS_PAYLOAD && parse("null") == Some(Null)
    ensures var r := AnthropicMeaning(StreamText(before + [Frame(event, "null")]), parse);
            r.status == Threw && r.events == OnFrames(before, parse).events
  {
    hide OnFrames, StreamText, FramesOf, CompleteLines;
    var f := Frame(event, "null");
    NullIsWritable(event);
    StreamReadBack(before + [f]);
    OnFramesMore(before, Some(f), parse);
  }

  lemma NullIsWritable(event: string)
    requires event in READS_PAYLOAD
    ensures WritableFrame(Frame(event, "null"))
  {
  }

  function One(key: string, j: Json): Json { Obj(map[key := j]) }

  function Two(key: string, j: Json, key': string, j': Json): Json { Obj(map[key := j, key' := j']) }

  predicate IsBodyEvent(e: LlmEvent) {
    match e
    case ToolUseStart(i, id, name) => !i.Null? && Truthy(Some(id)) && Truthy(Some(name))
    case TextDelta(i, delta) => !i.Null? && Truthy(Some(delta))
    case ThinkingDelta(i, delta) => !i.Null? && Truthy(Some(delta))
    case ThinkingSignature(i, sig) => !i.Null? && Truthy(Some(sig))
    case ToolUseInputDelta(i, partial) => !i.Null? && !partial.Null?
    case BlockStop(i) => !i.Null?
    case _ => false
  }

  function BodyEventName(e: LlmEvent): string {
    if e.ToolUseStart? then "content_block_start"
    else if e.BlockStop? then "content_block_stop"
    else "content_block_delta"
  }

  function DeltaPayload(index: Json, kind: string, key: string, value: Json): Json {
    Two("index", index, "delta", Two("type", Str(kind), key, value))
  }

  function BodyPayload(e: LlmEvent): Json
    requires IsBodyEvent(e)
  {
    match e
    case ToolUseStart(i, id, name) =>
      Two("index", i, "content_block", Obj(map["type" := Str("tool_use"), "id" := id, "name" := name]))
    case TextDelta(i, delta) => DeltaPayload(i, "text_delta", "text", delta)
    case ThinkingDelta(i, delta) => DeltaPayload(i, "thinking_delta", "thinking", delta)
    case ThinkingSignature(i, sig) => DeltaPayload(i, "signature_delta", "signature", sig)
    case ToolUseInputDelta(i, partial) => DeltaPayload(i, "input_json_delta", "partial_json", partial)
    case BlockStop(i) => One("index", i)
  }

  /** The frame a provider sends for a body event. */
  function BodyFrame(e: LlmEvent, c: Codec): Frame
    requires IsBodyEvent(e)
  {
    Frame(BodyEventName(e), c.render(BodyPayload(e)))
  }

  function BodyFrames(body: seq<LlmEvent>, c: Codec): (frames: seq<Frame>)
    requires forall e :: e in body ==> IsBodyEvent(e)
    ensures |frames| == |body| && forall i :: 0 <= i < |body| ==> frames[i] == BodyFrame(body[i], c)
  {
    seq(|body|, i requires 0 <= i < |body| => BodyFrame(body[i], c))
  }

  function UsageJson(u: Usage): Json {
    Two("input_tokens", u.inputTokens, "output_tokens", u.outputTokens)
  }

  /** A whole message: opening usage, body, closing stop reason and usage, end. */
  function MessageFrames(opening: Usage, body: seq<LlmEvent>, stop: Json, closing: Usage, c: Codec): seq<Frame>
    requires forall e :: e in body ==> IsBodyEvent(e)
  {
    [Frame("message_start", c.render(One("message", One("usage", UsageJson(opening)))))]
    + BodyFrames(body, c)
    + [Frame("message_delta", c.render(Two("delta", One("stop_reason", stop), "usage", UsageJson(closing))))]
    + [Frame("message_stop", c.render(Obj(map[])))]
  }

  lemma DeltaReadBack(r: Run, i: Json, kind: string, key: string, value: Json)
    requires r.status == Running && !i.Null? && key != "type"
    ensures OnPayload(r, "content_block_delta", DeltaPayload(i, kind, key, value))
         == OnDelta(r, i, Two("type", Str(kind), key, value))
  {
    hide OnDelta;
    assert "content_block_delta" != "message_start" && "content_block_delta" != "content_block_start";
  }

  lemma PayloadReadBack(r: Run, e: LlmEvent)
    requires IsBodyEvent(e) && r.status == Running
    ensures OnPayload(r, BodyEventName(e), BodyPayload(e)) == r.Emit(e)
  {
    match e {
      case ToolUseStart(i, id, name) =>
      case TextDelta(i, delta) => DeltaReadBack(r, i, "text_delta", "text", delta);
      case ThinkingDelta(i, delta) => DeltaReadBack(r, i, "thinking_delta", "thinking", delta);
      case ThinkingSignature(i, sig) => DeltaReadBack(r, i, "signature_delta", "signature", sig);
      case ToolUseInputDelta(i, partial) => DeltaReadBack(r, i, "input_json_delta", "partial_json", partial);
      case BlockStop(i) =>
    }
  }

  lemma BodyEventReadBack(r: Run, e: LlmEvent, c: Codec)
    requires Lawful(c) && IsBodyEvent(e) && r.status == Running
    ensures OnFrame(r, BodyFrame(e, c), c.parse) == r.Emit(e)
  {
    PayloadReadBack(r, e);
    hide OnPayload, IsBodyEvent, BodyPayload, BodyEventName, DataText;
    assert c.parse(c.render(BodyPayload(e))) == Some(BodyPayload(e));
  }

  lemma {:induction false} BodyReadBack(first: Frame, opening: Usage, body: seq<LlmEvent>, c: Codec)
    requires Lawful(c) && forall e :: e in body ==> IsBodyEvent(e)
    requires OnFrames([first], c.parse) == Run(None, opening, Running, [])
    ensures OnFrames([first] + BodyFrames(body, c), c.parse) == Run(None, opening, Running, body)
  {
    hide OnPayload, BodyFrame, Lawful;
    if body == [] {
      assert [first] + BodyFrames(body, c) == [first];
    } else {
      var before, e := body[..|body| - 1], body[|body| - 1];
      BodyReadBack(first, opening, before, c);
      var frames := [first] + BodyFrames(body, c);
      assert frames[..|frames| - 1] == [first] + BodyFrames(before, c);
      assert frames[|frames| - 1] == BodyFrame(e, c);
      BodyEventReadBack(Run(None, opening, Running, before), e, c);
      assert before + [e] == body;
    }
  }

  predicate CountsTokens(u: Usage) { u.inputTokens.Num? && u.outputTokens.Num? }

  lemma OpeningReadBack(opening: Usage, c: Codec)
    requires Lawful(c) && CountsTokens(opening)
    ensures var f := Frame("message_start", c.render(One("message", One("usage", UsageJson(opening)))));
            OnFrame(START, f, c.parse) == Run(None, opening, Running, [])
  {
    var j := One("message", One("usage", UsageJson(opening)));
    assert c.parse(c.render(j)) == Some(j);
  }

  lemma ClosingReadBack(r: Run, stop: Json, closing: Usage, c: Codec)
    requires Lawful(c) && CountsTokens(closing) && Truthy(Some(stop)) && r.status == Running
    ensures var f := Frame("message_delta", c.render(Two("delta", One("stop_reason", stop), "usage", UsageJson(closing))));
            var g := Frame("message_stop", c.render(Obj(map[])));
            OnFrame(OnFrame(r, f, c.parse), g, c.parse)
            == r.(stopReason := Some(stop), usage := closing).Finish(MessageEnd(Some(stop), closing))
  {
    var j := Two("delta", One("stop_reason", stop), "usage", UsageJson(closing));
    assert c.parse(c.render(j)) == Some(j);
    assert c.parse(c.render(Obj(map[]))) == Some(Obj(map[]));
  }

  lemma OnFramesTwoMore(a: seq<Frame>, x: Frame, y: Frame, parse: string -> Option<Json>)
    ensures OnFrames(a + [x] + [y], parse) == OnFrame(OnFrame(OnFrames(a, parse), x, parse), y, parse)
  {
    hide OnFrame;
    assert (a + [x] + [y])[..|a| + 1] == a + [x];
    assert (a + [x])[..|a|] == a;
  }

  lemma FirstFrame(x: Frame, parse: string -> Option<Json>)
    ensures OnFrames([x], parse) == OnFrame(START, x, parse)
  {
    assert [x][..0] == [];
  }

  /** A message written as a stream is read back as its events, then its end. */
  lemma MessageReadBack(opening: Usage, body: seq<LlmEvent>, stop: Json, closing: Usage, c: Codec)
    requires Lawful(c) && (forall e :: e in body ==> IsBodyEvent(e))
    requires CountsTokens(opening) && CountsTokens(closing) && Truthy(Some(stop))
    ensures var stream := StreamText(MessageFrames(opening, body, stop, closing, c));
            AnthropicMeaning(stream, c.parse).events == body + [MessageEnd(Some(stop), closing)]
  {
    hide BodyFrame, Lawful, UsageJson, OnFrame, OnFrames, IsBodyEvent, CompleteLines, FramesOf, StreamText, Writable;
    var frames := MessageFrames(opening, body, stop, closing, c);
    MessageIsWritable(opening, body, stop, closing, c);
    StreamReadBack(frames);
    var first, delta, end := frames[0], frames[|frames| - 2], frames[|frames| - 1];
    OpeningReadBack(opening, c);
    FirstFrame(first, c.parse);
    BodyReadBack(first, opening, body, c);
    OnFramesTwoMore([first] + BodyFrames(body, c), delta, end, c.parse);
    ClosingReadBack(Run(None, opening, Running, body), stop, closing, c);
  }

  lemma RenderedIsData(c: Codec, j: Json)
    requires Lawful(c)
    ensures DataText(c.render(j))
  {
  }

  lemma EnvelopeNames()
    ensures EventName("message_start") && EventName("message_delta") && EventName("message_stop")
  {
  }

  lemma BodyNames(e: LlmEvent)
    ensures EventName(BodyEventName(e)) && BodyEventName(e) != ""
  {
  }

  lemma BodyIsWritable(body: seq<LlmEvent>, c: Codec)
    requires Lawful(c) && (forall e :: e in body ==> IsBodyEvent(e))
    ensures Writable(BodyFrames(body, c))
  {
    hide DataText, Lawful, IsBodyEvent, BodyPayload, EventName, BodyEventName;
    var frames := BodyFrames(body, c);
    forall i | 0 <= i < |frames| ensures WritableFrame(frames[i]) {
      BodyNames(body[i]);
      RenderedIsData(c, BodyPayload(body[i]));
    }
  }

  lemma MessageIsWritable(opening: Usage, body: seq<LlmEvent>, stop: Json, closing: Usage, c: Codec)
    requires Lawful(c) && (forall e :: e in body ==> IsBodyEvent(e))
    ensures Writable(MessageFrames(opening, body, stop, closing, c))
  {
    hide UsageJson, DataText, Lawful, IsBodyEvent, EventName;
    EnvelopeNames();
    BodyIsWritable(body, c);
    RenderedIsData(c, One("message", One("usage", UsageJson(opening))));
    RenderedIsData(c, Two("delta", One("stop_reason", stop), "usage", UsageJson(closing)));
    RenderedIsData(c, Obj(map[]));
  }
}
