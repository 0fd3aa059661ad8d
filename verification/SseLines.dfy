/**
 Server-sent event framing: the line reader shared by the two parsers of
 src/llm/sseUtils.ts, and section 9.2.6 of the WHATWG HTML Standard to compare it with.
 */
module SseLines {
  import opened Outcomes
  import opened Text

  // ---- Lines of a stream that arrives in pieces

  /** The lines of `s` that end in a line feed. */
  function CompleteLines(s: string): seq<string> {
    var parts := SplitOn(s, '\n');
    parts[..|parts| - 1]
  }

  /** What follows the last line feed: the buffer the parsers carry over. */
  function Remainder(s: string): string {
    var parts := SplitOn(s, '\n');
    parts[|parts| - 1]
  }

  /** Reading on from the carried buffer is reading the uncut text. */
  lemma LinesOfPieces(a: string, b: string)
    ensures CompleteLines(a + b) == CompleteLines(a) + CompleteLines(Remainder(a) + b)
    ensures Remainder(a + b) == Remainder(Remainder(a) + b)
  {
    hide SplitOn;
    var p, q := SplitOn(a, '\n'), SplitOn(b, '\n');
    var r := p[|p| - 1];
    SplitConcat(a, b, '\n');
    SplitJoin(a, '\n');
    SplitWithout(r, '\n');
    SplitConcat(r, b, '\n');
    assert Merge([r], q) == [r + q[0]] + q[1..];
    assert Merge(p, q) == p[..|p| - 1] + Merge([r], q);
  }

  function Concat(chunks: seq<string>): string {
    if chunks == [] then [] else Concat(chunks[..|chunks| - 1]) + chunks[|chunks| - 1]
  }

  // ---- Frames as the source reads them

  /** A data line that reaches the parser, with the event name in force. */
  datatype Frame = Frame(event: string, data: string)

  datatype LineResult = LineResult(event: string, frame: Option<Frame>)

  function ReadLine(currentEvent: string, rawLine: string): LineResult {
    var line := TrimEnd(rawLine);
    if line == "" then LineResult("", None)
    else if StartsWith(line, ":") then LineResult(currentEvent, None)
    else if StartsWith(line, "event:") then LineResult(Trim(line[6..]), None)
    else if !StartsWith(line, "data:") then LineResult(currentEvent, None)
    else
      var data := Trim(line[5..]);
      LineResult(currentEvent, if data == "" || data == "[DONE]" then None else Some(Frame(currentEvent, data)))
  }

  function FrameList(frame: Option<Frame>): seq<Frame> {
    if frame.Some? then [frame.value] else []
  }

  /** The frames of some lines, and the event name left at the end. */
  function FramesOf(currentEvent: string, lines: seq<string>): (seq<Frame>, string) {
    if lines == [] then ([], currentEvent)
    else
      var before := FramesOf(currentEvent, lines[..|lines| - 1]);
      var r := ReadLine(before.1, lines[|lines| - 1]);
      (before.0 + FrameList(r.frame), r.event)
  }

  function StreamFrames(stream: string): seq<Frame> {
    FramesOf("", CompleteLines(stream)).0
  }

  // ---- Section 9.2.6 of the WHATWG HTML Standard

  /** Lines end in CRLF, LF or CR; an unfinished last line is dropped. */
  function WhatwgLines(s: string): seq<string> {
    WhatwgLinesFrom([], s)
  }

  function WhatwgLinesFrom(line: string, s: string): seq<string>
    decreases |s|
  {
    if s == [] then []
    else if s[0] == '\n' then [line] + WhatwgLinesFrom([], s[1..])
    else if s[0] == '\r' then
      [line] + WhatwgLinesFrom([], if |s| > 1 && s[1] == '\n' then s[2..] else s[1..])
    else WhatwgLinesFrom(line + [s[0]], s[1..])
  }

  datatype Field = Field(name: string, value: string)

  function FirstColon(line: string): (n: nat)
    ensures n <= |line| && ':' !in line[..n] && (n < |line| ==> line[n] == ':')
  {
    if line == [] || line[0] == ':' then 0
    else
      assert line[..1 + FirstColon(line[1..])] == [line[0]] + line[1..][..FirstColon(line[1..])];
      1 + FirstColon(line[1..])
  }

  function DropOneSpace(s: string): string {
    if s != [] && s[0] == ' ' then s[1..] else s
  }

  function WhatwgField(line: string): Field {
    var n := FirstColon(line);
    if n == |line| then Field(line, "") else Field(line[..n], DropOneSpace(line[n + 1..]))
  }

  datatype Buffers = Buffers(data: string, eventType: string, dispatched: seq<Frame>)

  const EMPTY_BUFFERS: Buffers := Buffers("", "", [])

  function WhatwgLine(b: Buffers, line: string): Buffers {
    if line == "" then
      if b.data == "" then b.(eventType := "")
      else
        var frame := Frame(if b.eventType == "" then "message" else b.eventType, b.data[..|b.data| - 1]);
        Buffers("", "", b.dispatched + [frame])
    else if line[0] == ':' then b
    else
      var f := WhatwgField(line);
      if f.name == "event" then b.(eventType := f.value)
      else if f.name == "data" then b.(data := b.data + f.value + "\n")
      else b
  }

  function WhatwgRun(lines: seq<string>): Buffers {
    if lines == [] then EMPTY_BUFFERS
    else WhatwgLine(WhatwgRun(lines[..|lines| - 1]), lines[|lines| - 1])
  }

  function WhatwgDispatches(stream: string): seq<Frame> {
    WhatwgRun(WhatwgLines(stream)).dispatched
  }

  // ---- Where the two agree

  /** One trailing CR, which belongs to a CRLF line end. */
  function DropCr(line: string): string {
    if line != [] && line[|line| - 1] == '\r' then line[..|line| - 1] else line
  }

  /** A field line whose value has no white space around it but one optional leading space. */
  predicate CleanField(line: string, name: string) {
    StartsWith(line, name + ":") && Trimmed(DropOneSpace(line[|name| + 1..]))
  }

  predicate CleanData(line: string) {
    CleanField(line, "data") && DropOneSpace(line[5..]) != "" && DropOneSpace(line[5..]) != "[DONE]"
  }

  /** Lines neither reader gives a meaning to. */
  predicate OtherLine(line: string) {
    && TrimEnd(line) != "" && line != "event" && line != "data"
    && !StartsWith(line, "event:") && !StartsWith(line, "data:")
  }

  predicate PlainLine(line: string) {
    line == "" || StartsWith(line, "event:") || StartsWith(line, "data:") || OtherLine(line)
  }

  /** The block that the last of `lines` belongs to already has a data line. */
  predicate DataSeen(lines: seq<string>) {
    if lines == [] then false
    else
      var last := lines[|lines| - 1];
      last != "" && (StartsWith(last, "data:") || DataSeen(lines[..|lines| - 1]))
  }

  /** At most one data line a block, and no event line after it; nothing is asked of their values. */
  predicate PlainBlocks(lines: seq<string>) {
    lines == [] ||
    var last, before := lines[|lines| - 1], lines[..|lines| - 1];
    && PlainBlocks(before) && PlainLine(last)
    && (StartsWith(last, "data:") || StartsWith(last, "event:") ==> !DataSeen(before))
  }

  /** A CR occurs only in front of a line feed. */
  predicate CrOnlyBeforeLf(s: string) {
    forall i :: 0 <= i < |s| && s[i] == '\r' ==> i + 1 < |s| && s[i + 1] == '\n'
  }

  /** The last block is finished too. */
  predicate PlainStream(stream: string) {
    && CrOnlyBeforeLf(stream)
    && var lines := WhatwgLines(stream);
       PlainBlocks(lines) && !DataSeen(lines)
  }

  /** What the source can read from a frame. */
  predicate CleanFrame(f: Frame) {
    Trimmed(f.event) && Trimmed(f.data) && f.data != "" && f.data != "[DONE]"
  }

  predicate AllClean(frames: seq<Frame>) {
    forall k :: 0 <= k < |frames| ==> CleanFrame(frames[k])
  }

  /** The source leaves the event name empty where the standard says "message". */
  function EventType(event: string): string {
    if event == "" then "message" else event
  }

  function Typed(frames: seq<Frame>): (r: seq<Frame>)
    ensures |r| == |frames|
  {
    if frames == [] then [] else Typed(frames[..|frames| - 1]) + [frames[|frames| - 1].(event := EventType(frames[|frames| - 1].event))]
  }

  function DropCrs(lines: seq<string>): (r: seq<string>)
    ensures |r| == |lines| && forall i :: 0 <= i < |lines| ==> r[i] == DropCr(lines[i])
  {
    seq(|lines|, i requires 0 <= i < |lines| => DropCr(lines[i]))
  }

  /** The complete lines of `line + s`, for a `line` without a line feed. */
  function CompleteFrom(line: string, s: string): seq<string> {
    var p := SplitOn(s, '\n');
    ([line + p[0]] + p[1..])[..|p| - 1]
  }

  lemma CrOnlyBeforeLfInSuffix(s: string, k: nat)
    requires CrOnlyBeforeLf(s) && k <= |s|
    ensures CrOnlyBeforeLf(s[k..])
  {
    forall i | 0 <= i < |s[k..]| && s[k..][i] == '\r' ensures i + 1 < |s[k..]| && s[k..][i + 1] == '\n' {
      assert s[i + k] == '\r';
    }
  }

  lemma DropCrsOfHead(line: string, lines: seq<string>)
    ensures DropCrs([line] + lines) == [DropCr(line)] + DropCrs(lines)
  {
  }

  /** The LF and CRLF lines of the standard are the source's lines without their CR. */
  lemma {:induction false} LinesAgreeFrom(line: string, s: string)
    requires '\r' !in line && CrOnlyBeforeLf(s)
    ensures WhatwgLinesFrom(line, s) == DropCrs(CompleteFrom(line, s))
    decreases |s|
  {
    hide CompleteFrom, SplitOn;
    if s == [] {
      NothingComplete(line);
    } else if s[0] == '\n' {
      CrOnlyBeforeLfInSuffix(s, 1);
      LineFeedEndsLine(line, s);
      LinesAgreeFrom([], s[1..]);
      DropCrsOfHead(line, CompleteFrom([], s[1..]));
    } else if s[0] == '\r' {
      CrOnlyBeforeLfInSuffix(s, 2);
      OtherCharacterJoinsLine(line, s);
      LineFeedEndsLine(line + ['\r'], s[1..]);
      assert s[1..][1..] == s[2..];
      LinesAgreeFrom([], s[2..]);
      assert DropCr(line + ['\r']) == line;
      DropCrsOfHead(line + ['\r'], CompleteFrom([], s[2..]));
    } else {
      CrOnlyBeforeLfInSuffix(s, 1);
      OtherCharacterJoinsLine(line, s);
      LinesAgreeFrom(line + [s[0]], s[1..]);
    }
  }

  lemma NothingComplete(line: string)
    ensures CompleteFrom(line, []) == []
  {
  }

  lemma LineFeedEndsLine(line: string, s: string)
    requires s != [] && s[0] == '\n'
    ensures CompleteFrom(line, s) == [line] + CompleteFrom([], s[1..])
  {
    var q := SplitOn(s[1..], '\n');
    assert SplitOn(s, '\n') == [[]] + q;
    assert line + [] == line && [] + q[0] == q[0];
    assert [q[0]] + q[1..] == q;
  }

  lemma OtherCharacterJoinsLine(line: string, s: string)
    requires s != [] && s[0] != '\n'
    ensures CompleteFrom(line, s) == CompleteFrom(line + [s[0]], s[1..])
  {
    var q := SplitOn(s[1..], '\n');
    assert SplitOn(s, '\n') == Prepend(s[0], q);
    assert line + ([s[0]] + q[0]) == line + [s[0]] + q[0];
  }

  lemma LinesAgree(stream: string)
    requires CrOnlyBeforeLf(stream)
    ensures WhatwgLines(stream) == DropCrs(CompleteLines(stream))
  {
    LinesAgreeFrom([], stream);
    var p := SplitOn(stream, '\n');
    assert [] + p[0] == p[0] && [p[0]] + p[1..] == p;
  }

  lemma ReadLineDropsCr(event: string, line: string)
    ensures ReadLine(event, DropCr(line)) == ReadLine(event, line)
  {
    assert TrimEnd(DropCr(line)) == TrimEnd(line);
  }

  lemma {:induction false} CrIsTrimmed(event: string, lines: seq<string>)
    ensures FramesOf(event, DropCrs(lines)) == FramesOf(event, lines)
  {
    if lines != [] {
      hide ReadLine, DropCr;
      var n := |lines| - 1;
      CrIsTrimmed(event, lines[..n]);
      assert DropCrs(lines)[..n] == DropCrs(lines[..n]);
      ReadLineDropsCr(FramesOf(event, lines[..n]).1, lines[n]);
    }
  }

  /** What a clean field line means to the source is its value without one leading space. */
  lemma CleanFieldValue(line: string, name: string)
    requires CleanField(line, name) && name in {"event", "data"}
    ensures TrimEnd(line) != "" && StartsWith(TrimEnd(line), name + ":")
    ensures Trim(TrimEnd(line)[|name| + 1..]) == DropOneSpace(line[|name| + 1..])
  {
    var v := line[|name| + 1..];
    var w := DropOneSpace(v);
    assert line == name + ":" + v;
    if w == "" {
      if v == "" {
        TrimmedIsFixed(line);
      } else {
        assert line[..|line| - 1] == name + ":";
        TrimmedIsFixed(name + ":");
      }
    } else {
      assert w[|w| - 1] == line[|line| - 1];
      TrimmedIsFixed(line);
      TrimmedIsFixed(w);
      if v != w { assert v == " " + w && v[1..] == w; }
    }
  }

  lemma {:induction false} FirstColonAt(line: string, n: nat)
    requires n < |line| && line[n] == ':' && ':' !in line[..n]
    ensures FirstColon(line) == n
  {
    if n > 0 {
      assert line[0] in line[..n];
      assert line[1..][..n - 1] == line[..n][1..];
      FirstColonAt(line[1..], n - 1);
    }
  }

  lemma CleanFieldName(line: string, name: string)
    requires StartsWith(line, name + ":") && name in {"event", "data"}
    ensures WhatwgField(line) == Field(name, DropOneSpace(line[|name| + 1..]))
    ensures line[0] != ':'
  {
    var n := |name|;
    assert line[n] == ':' && line[..n] == name;
    FirstColonAt(line, n);
  }

  lemma OtherLineIsIgnored(line: string, event: string, b: Buffers)
    requires OtherLine(line)
    ensures ReadLine(event, line) == LineResult(event, None)
    ensures WhatwgLine(b, line) == b
  {
    TrimEndIsPrefix(line);
    if line[0] != ':' {
      var n := FirstColon(line);
      if n < |line| {
        assert line[..n + 1] == line[..n] + ":";
      }
    }
  }

  lemma {:induction false} TrimEndIsPrefix(s: string)
    ensures TrimEnd(s) <= s
    decreases |s|
  {
    if s != [] && IsSpace(s[|s| - 1]) { TrimEndIsPrefix(s[..|s| - 1]); }
  }

  /** The two readers in step: the open block's data line is a frame already, or still buffered. */
  ghost predicate InStep(dataSeen: bool, frames: seq<Frame>, event: string, b: Buffers) {
    b.eventType == event &&
    if !dataSeen then b.data == "" && b.dispatched == Typed(frames)
    else
      && frames != [] && b.dispatched == Typed(frames[..|frames| - 1])
      && var open := frames[|frames| - 1]; open.event == event && open.data != "" && b.data == open.data + "\n"
  }

  /** Before the block's data line the names need to agree only if the standard's is one the source can read. */
  ghost predicate PlainStep(dataSeen: bool, frames: seq<Frame>, event: string, b: Buffers) {
    if dataSeen then InStep(true, frames, event, b)
    else b.data == "" && b.dispatched == Typed(frames) && (Trimmed(b.eventType) ==> event == b.eventType)
  }

  /** What the next blank line dispatches. */
  function Open(b: Buffers): seq<Frame> {
    if b.data == "" then [] else [Frame(EventType(b.eventType), b.data[..|b.data| - 1])]
  }

  lemma BlankLineKeepsStep(dataSeen: bool, frames: seq<Frame>, event: string, b: Buffers)
    requires PlainStep(dataSeen, frames, event, b)
    ensures ReadLine(event, "") == LineResult("", None)
    ensures PlainStep(false, frames, "", WhatwgLine(b, ""))
  {
    if dataSeen {
      var open := frames[|frames| - 1];
      assert b.data[..|b.data| - 1] == open.data;
    }
  }

  /** Behind an event line the names agree if the standard's has no white space around it. */
  lemma EventLineKeepsStep(line: string, frames: seq<Frame>, event: string, b: Buffers)
    requires StartsWith(line, "event:") && b.data == "" && b.dispatched == Typed(frames)
    ensures var r := ReadLine(event, line); r.frame == None && PlainStep(false, frames, r.event, WhatwgLine(b, line))
  {
    hide WhatwgField, CleanField, TrimEnd, Trim, Trimmed;
    assert "event" + ":" == "event:";
    EventStart(line);
    CleanFieldName(line, "event");
    TrimEndKeepsStart(line, "event:");
    EventStart(TrimEnd(line));
    if Trimmed(DropOneSpace(line[6..])) {
      assert CleanField(line, "event") by { FieldIsClean(line, "event"); }
      CleanFieldValue(line, "event");
    }
  }

  lemma FieldIsClean(line: string, name: string)
    requires StartsWith(line, name + ":") && Trimmed(DropOneSpace(line[|name| + 1..]))
    ensures CleanField(line, name)
  {
  }

  lemma {:induction false} TrimEndKeepsStart(s: string, start: string)
    requires start <= s && start != "" && !IsSpace(start[|start| - 1])
    ensures start <= TrimEnd(s)
    decreases |s|
  {
    if IsSpace(s[|s| - 1]) { TrimEndKeepsStart(s[..|s| - 1], start); }
  }

  lemma EventStart(line: string)
    ensures CleanField(line, "event") ==> StartsWith(line, "event:")
    ensures StartsWith(line, "event:") ==> !StartsWith(line, "data:") && !StartsWith(line, ":")
  {
    assert "event" + ":" == "event:";
    assert StartsWith(line, "event:") ==> line[0] == 'e';
  }

  lemma DataStart(line: string)
    ensures CleanField(line, "data") ==> StartsWith(line, "data:")
    ensures StartsWith(line, "data:") ==> !StartsWith(line, "event:") && !StartsWith(line, ":")
  {
    assert "data" + ":" == "data:";
    assert StartsWith(line, "data:") ==> line[0] == 'd';
  }

  lemma DataLineKeepsStep(line: string, frames: seq<Frame>, event: string, b: Buffers)
    requires CleanData(line) && InStep(false, frames, event, b)
    ensures var r := ReadLine(event, line);
            r.frame.Some? && InStep(true, frames + [r.frame.value], r.event, WhatwgLine(b, line))
  {
    hide WhatwgField, CleanField, TrimEnd, Trim;
    assert "data" + ":" == "data:";
    CleanFieldValue(line, "data");
    DataStart(line);
    CleanFieldName(line, "data");
    DataStart(TrimEnd(line));
    var frame := Frame(event, DropOneSpace(line[5..]));
    assert (frames + [frame])[..|frames|] == frames;
  }

  /** A data line whose dispatch is one the source can read. */
  lemma OpenDataKeepsStep(line: string, frames: seq<Frame>, event: string, b: Buffers)
    requires StartsWith(line, "data:") && PlainStep(false, frames, event, b) && AllClean(Open(WhatwgLine(b, line)))
    ensures var r := ReadLine(event, line);
            r.frame.Some? && PlainStep(true, frames + [r.frame.value], r.event, WhatwgLine(b, line))
  {
    hide WhatwgField, Trimmed, InStep;
    assert "data" + ":" == "data:";
    DataStart(line);
    CleanFieldName(line, "data");
    var v, after := DropOneSpace(line[5..]), WhatwgLine(b, line);
    assert after.data == "" + v + "\n" && after.data[..|after.data| - 1] == v;
    assert CleanFrame(Open(after)[0]);
    FieldIsClean(line, "data");
    assert InStep(false, frames, event, b) by { EmptyIsTrimmed(); NamesAgree(frames, event, b); }
    DataLineKeepsStep(line, frames, event, b);
  }

  lemma EmptyIsTrimmed()
    ensures Trimmed("")
  {
  }

  lemma NamesAgree(frames: seq<Frame>, event: string, b: Buffers)
    requires PlainStep(false, frames, event, b) && Trimmed(b.eventType)
    ensures InStep(false, frames, event, b)
  {
  }

  /** In plain blocks the data buffer is filled exactly behind a data line. */
  lemma {:induction false} BufferIsOpen(lines: seq<string>)
    requires PlainBlocks(lines)
    ensures WhatwgRun(lines).data == "" <==> !DataSeen(lines)
  {
    if lines != [] {
      var before, last := lines[..|lines| - 1], lines[|lines| - 1];
      BufferIsOpen(before);
      hide WhatwgField, StartsWith, OtherLine;
      EventStart(last);
      DataStart(last);
      if last != "" {
        if StartsWith(last, "event:") || StartsWith(last, "data:") {
          FieldLine(WhatwgRun(before), last);
        } else {
          OtherLineIsIgnored(last, "", WhatwgRun(before));
        }
      }
    }
  }

  lemma FieldLine(b: Buffers, line: string)
    ensures StartsWith(line, "event:") ==> WhatwgLine(b, line) == b.(eventType := DropOneSpace(line[6..]))
    ensures StartsWith(line, "data:") ==> WhatwgLine(b, line) == b.(data := b.data + DropOneSpace(line[5..]) + "\n")
  {
    hide WhatwgField;
    assert "event" + ":" == "event:" && "data" + ":" == "data:";
    if StartsWith(line, "event:") { CleanFieldName(line, "event"); }
    if StartsWith(line, "data:") { CleanFieldName(line, "data"); }
  }

  /** What is clean with one more line was clean before it. */
  lemma EarlierIsClean(before: seq<string>, last: string)
    requires PlainBlocks(before + [last])
    requires var b := WhatwgLine(WhatwgRun(before), last); AllClean(b.dispatched) && AllClean(Open(b))
    ensures AllClean(WhatwgRun(before).dispatched) && AllClean(Open(WhatwgRun(before)))
  {
    assert (before + [last])[..|before|] == before;
    var b := WhatwgRun(before);
    BufferIsOpen(before);
    hide WhatwgRun, WhatwgField, CleanFrame, OtherLine, StartsWith;
    EventStart(last);
    DataStart(last);
    if last == "" {
      if b.data != "" {
        var after := WhatwgLine(b, last);
        assert after.dispatched[|b.dispatched|] == Open(b)[0];
        assert forall k :: 0 <= k < |b.dispatched| ==> after.dispatched[k] == b.dispatched[k];
      }
    } else if StartsWith(last, "event:") || StartsWith(last, "data:") {
      FieldLine(b, last);
    } else {
      OtherLineIsIgnored(last, "", b);
    }
  }

  lemma {:induction false} PlainBlocksInStep(lines: seq<string>)
    requires PlainBlocks(lines) && AllClean(WhatwgRun(lines).dispatched) && AllClean(Open(WhatwgRun(lines)))
    ensures var f := FramesOf("", lines); PlainStep(DataSeen(lines), f.0, f.1, WhatwgRun(lines))
  {
    if lines != [] {
      hide ReadLine, WhatwgLine, OtherLine, PlainStep, StartsWith, AllClean, Open;
      var before, last := lines[..|lines| - 1], lines[|lines| - 1];
      assert before + [last] == lines;
      EarlierIsClean(before, last);
      PlainBlocksInStep(before);
      var f, b := FramesOf("", before), WhatwgRun(before);
      var r := ReadLine(f.1, last);
      assert FramesOf("", lines) == (f.0 + FrameList(r.frame), r.event);
      assert f.0 + [] == f.0;
      EventStart(last);
      DataStart(last);
      if last == "" {
        BlankLineKeepsStep(DataSeen(before), f.0, f.1, b);
      } else if StartsWith(last, "event:") {
        assert b.data == "" && b.dispatched == Typed(f.0) by { NothingOpen(f.0, f.1, b); }
        EventLineKeepsStep(last, f.0, f.1, b);
      } else if StartsWith(last, "data:") {
        OpenDataKeepsStep(last, f.0, f.1, b);
      } else {
        OtherLineIsIgnored(last, f.1, b);
      }
    }
  }

  lemma NothingOpen(frames: seq<Frame>, event: string, b: Buffers)
    requires PlainStep(false, frames, event, b)
    ensures b.data == "" && b.dispatched == Typed(frames)
  {
  }

  /** On plain streams with clean dispatches the source frames what the standard dispatches. */
  lemma CleanStreamsFrameAsDispatched(stream: string)
    requires PlainStream(stream) && AllClean(WhatwgDispatches(stream))
    ensures WhatwgDispatches(stream) == Typed(StreamFrames(stream))
  {
    hide AllClean, Typed, FramesOf;
    var lines := WhatwgLines(stream);
    LinesAgree(stream);
    CrIsTrimmed("", CompleteLines(stream));
    BufferIsOpen(lines);
    assert AllClean(Open(WhatwgRun(lines))) by { NothingIsClean(); }
    PlainBlocksInStep(lines);
  }

  lemma NothingIsClean()
    ensures AllClean([])
  {
  }
}
