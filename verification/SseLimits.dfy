/** Where the framing of src/llm/sseUtils.ts and section 9.2.6 of the WHATWG HTML Standard part. */
module SseLimits {
  import opened Outcomes
  import opened Text
  import opened SseLines

  /** The parser reads the frames the standard dispatches. */
  predicate Agrees(stream: string) {
    WhatwgDispatches(stream) == Typed(StreamFrames(stream))
  }

  // ---- Values

  lemma {:induction false} TrimEndLeavesNoSpace(s: string)
    ensures TrimEnd(s) != [] ==> !IsSpace(TrimEnd(s)[|TrimEnd(s)| - 1]) && TrimEnd(s)[0] == s[0]
    decreases |s|
  {
    if s != [] && IsSpace(s[|s| - 1]) { TrimEndLeavesNoSpace(s[..|s| - 1]); }
  }

  lemma {:induction false} TrimStartLeavesNoSpace(s: string)
    ensures TrimStart(s) != [] ==> !IsSpace(TrimStart(s)[0])
  {
    if s != [] && IsSpace(s[0]) { TrimStartLeavesNoSpace(s[1..]); }
  }

  lemma TrimIsTrimmed(s: string)
    ensures Trimmed(Trim(s))
  {
    TrimStartLeavesNoSpace(s);
    TrimEndLeavesNoSpace(TrimStart(s));
  }

  lemma ReadsOnlyCleanFrames(event: string, line: string)
    requires Trimmed(event)
    ensures var r := ReadLine(event, line); Trimmed(r.event) && (r.frame.Some? ==> CleanFrame(r.frame.value))
  {
    hide Trim, TrimEnd;
    var t := TrimEnd(line);
    if StartsWith(t, "event:") { TrimIsTrimmed(t[6..]); }
    if StartsWith(t, "data:") { TrimIsTrimmed(t[5..]); }
  }

  lemma {:induction false} FramesAreClean(lines: seq<string>)
    ensures var f := FramesOf("", lines); Trimmed(f.1) && AllClean(f.0)
  {
    if lines != [] {
      hide ReadLine, CleanFrame, Trimmed;
      var n := |lines| - 1;
      FramesAreClean(lines[..n]);
      ReadsOnlyCleanFrames(FramesOf("", lines[..n]).1, lines[n]);
    } else {
      assert FramesOf("", lines) == ([], "");
    }
  }

  lemma {:induction false} TypedAt(frames: seq<Frame>, k: nat)
    requires k < |frames|
    ensures Typed(frames)[k] == frames[k].(event := EventType(frames[k].event))
  {
    if k < |frames| - 1 { TypedAt(frames[..|frames| - 1], k); }
  }

  /**
   Whatever the stream, the two agree only if every event dispatched has a name and data without white space around
   them, and data that is neither empty nor `[DONE]`.
   */
  lemma AgreementNeedsCleanValues(stream: string)
    requires Agrees(stream)
    ensures AllClean(WhatwgDispatches(stream))
  {
    hide WhatwgDispatches, FramesOf, CompleteLines, Typed;
    FramesAreClean(CompleteLines(stream));
    var frames := StreamFrames(stream);
    forall k | 0 <= k < |frames| ensures CleanFrame(Typed(frames)[k]) {
      TypedAt(frames, k);
    }
  }

  /** On plain streams that is all it takes: the two agree exactly when everything dispatched is clean. */
  lemma PlainStreamsAgreeExactlyWhen(stream: string)
    requires PlainStream(stream)
    ensures Agrees(stream) <==> AllClean(WhatwgDispatches(stream))
  {
    hide WhatwgDispatches, StreamFrames, PlainStream, AllClean, Typed;
    if Agrees(stream) {
      AgreementNeedsCleanValues(stream);
    } else if AllClean(WhatwgDispatches(stream)) {
      CleanStreamsFrameAsDispatched(stream);
    }
  }

  // ---- Streams made of lines

  ghost predicate OneLine(s: string) { '\n' !in s && '\r' !in s }

  ghost predicate AllOneLine(lines: seq<string>) {
    forall i :: 0 <= i < |lines| ==> OneLine(lines[i])
  }

  /** Each line with a line feed behind it. */
  function TextOf(lines: seq<string>): string {
    Join(lines + [""], '\n')
  }

  lemma {:induction false} JoinHasNoCr(parts: seq<string>)
    requires |parts| >= 1 && AllOneLine(parts)
    ensures '\r' !in Join(parts, '\n')
  {
    if |parts| > 1 { JoinHasNoCr(parts[1..]); }
  }

  lemma LinesOfText(lines: seq<string>)
    requires AllOneLine(lines)
    ensures CompleteLines(TextOf(lines)) == lines && WhatwgLines(TextOf(lines)) == lines
  {
    hide Join, SplitOn, WhatwgLines;
    JoinSplit(lines + [""], '\n');
    JoinHasNoCr(lines + [""]);
    LinesAgree(TextOf(lines));
    assert DropCrs(lines) == lines;
  }

  lemma StandardReads(b: Buffers, v: string)
    ensures WhatwgLine(b, "event: " + v) == b.(eventType := v)
    ensures WhatwgLine(b, "data: " + v) == b.(data := b.data + v + "\n")
  {
    hide WhatwgField;
    var e, d := "event: " + v, "data: " + v;
    assert "event" + ":" == "event:" && "data" + ":" == "data:";
    CleanFieldName(e, "event");
    CleanFieldName(d, "data");
    assert e[6..] == " " + v && d[5..] == " " + v;
    assert (" " + v)[1..] == v;
  }

  lemma SourceReads(event: string, v: string)
    requires Trimmed(v) && v != "" && v != "[DONE]"
    ensures ReadLine(event, "event: " + v) == LineResult(v, None)
    ensures ReadLine(event, "data: " + v) == LineResult(event, Some(Frame(event, v)))
  {
    hide TrimStart, TrimEnd, Trim;
    var e, d := "event: " + v, "data: " + v;
    assert e[6..] == " " + v && d[5..] == " " + v;
    TrimmedIsFixed(e);
    TrimmedIsFixed(d);
    TrimAfterSpace(v);
  }

  lemma TrimAfterSpace(v: string)
    requires Trimmed(v)
    ensures Trim(" " + v) == v
  {
    TrimmedIsFixed(v);
    assert (" " + v)[1..] == v;
  }

  lemma OneMore(lines: seq<string>, line: string)
    ensures WhatwgRun(lines + [line]) == WhatwgLine(WhatwgRun(lines), line)
    ensures var f := FramesOf("", lines); var r := ReadLine(f.1, line);
            FramesOf("", lines + [line]) == (f.0 + FrameList(r.frame), r.event)
  {
    assert (lines + [line])[..|lines|] == lines;
    hide WhatwgLine, ReadLine;
  }

  lemma NothingRead()
    ensures WhatwgRun([]) == EMPTY_BUFFERS && FramesOf("", []) == ([], "")
  {
  }

  lemma RunOfThree(a: string, b: string, c: string)
    ensures WhatwgRun([a, b, c]) == WhatwgLine(WhatwgLine(WhatwgLine(EMPTY_BUFFERS, a), b), c)
    ensures var x := ReadLine("", a); var y := ReadLine(x.event, b); var z := ReadLine(y.event, c);
            FramesOf("", [a, b, c]) == (FrameList(x.frame) + FrameList(y.frame) + FrameList(z.frame), z.event)
  {
    hide ReadLine, WhatwgLine, WhatwgRun, FramesOf;
    NothingRead();
    OneMore([], a);
    OneMore([a], b);
    OneMore([a, b], c);
    assert [] + [a] == [a] && [a] + [b] == [a, b] && [a, b] + [c] == [a, b, c];
    assert [] + FrameList(ReadLine("", a).frame) == FrameList(ReadLine("", a).frame);
  }

  lemma DispatchOf(b: Buffers, data: string)
    requires b.data == data + "\n"
    ensures WhatwgLine(b, "") == Buffers("", "", b.dispatched + [Frame(EventType(b.eventType), data)])
  {
    assert b.data[..|b.data| - 1] == data;
  }

  lemma BlankReads(event: string)
    ensures ReadLine(event, "") == LineResult("", None)
  {
  }

  // ---- One block

  function Block(event: string, data: string): seq<string> {
    ["event: " + event, "data: " + data, ""]
  }

  lemma BlockIsOneLine(event: string, data: string)
    requires OneLine(event) && OneLine(data)
    ensures AllOneLine(Block(event, data))
  {
  }

  lemma BlockDispatches(event: string, data: string)
    ensures WhatwgRun(Block(event, data)).dispatched == [Frame(EventType(event), data)]
  {
    hide WhatwgLine, WhatwgRun;
    StandardReads(EMPTY_BUFFERS, event);
    var b := EMPTY_BUFFERS.(eventType := event);
    StandardReads(b, data);
    RunOfThree("event: " + event, "data: " + data, "");
    assert "" + data == data;
    DispatchOf(b.(data := data + "\n"), data);
    assert [] + [Frame(EventType(event), data)] == [Frame(EventType(event), data)];
  }

  /** So on one block of an event and a data line they agree exactly when its two values are clean. */
  lemma BlockAgreesExactlyWhen(event: string, data: string)
    requires OneLine(event) && OneLine(data)
    ensures Agrees(TextOf(Block(event, data))) <==> CleanFrame(Frame(event, data))
  {
    hide TextOf, Agrees, WhatwgRun, Block, PlainBlocks, DataSeen, WhatwgLines;
    BlockIsOneLine(event, data);
    LinesOfText(Block(event, data));
    BlockIsPlain(event, data);
    NoCr(Block(event, data));
    PlainStreamsAgreeExactlyWhen(TextOf(Block(event, data)));
    BlockDispatches(event, data);
    assert AllClean([Frame(EventType(event), data)]) <==> CleanFrame([Frame(EventType(event), data)][0]);
  }

  lemma NoCr(lines: seq<string>)
    requires AllOneLine(lines)
    ensures CrOnlyBeforeLf(TextOf(lines))
  {
    JoinHasNoCr(lines + [""]);
  }

  lemma BlockIsPlain(event: string, data: string)
    ensures PlainBlocks(Block(event, data)) && !DataSeen(Block(event, data))
  {
    var e, d := "event: " + event, "data: " + data;
    assert e[..6] == "event:" && d[..5] == "data:";
    EventStart(e);
    DataStart(d);
    assert [e, d, ""][..2] == [e, d] && [e, d][..1] == [e] && [e][..0] == [];
    hide StartsWith, OtherLine;
    assert PlainBlocks([e]);
    assert PlainBlocks([e, d]);
  }

  // ---- The other conditions

  /** Two data lines in one block: the standard joins them. */
  lemma SecondDataLineParts()
    ensures WhatwgDispatches(TextOf(["data: a", "data: b", ""])) == [Frame("message", "a\nb")]
    ensures StreamFrames(TextOf(["data: a", "data: b", ""])) == [Frame("", "a"), Frame("", "b")]
  {
    hide TextOf, WhatwgRun, WhatwgLine, FramesOf, ReadLine, WhatwgLines, CompleteLines;
    LinesOfText(["data: a", "data: b", ""]);
    RunOfThree("data: a", "data: b", "");
    assert "data: " + "a" == "data: a" && "data: " + "b" == "data: b";
    assert "" + "a" + "\n" == "a\n" && "a\n" + "b" + "\n" == "a\nb" + "\n";
    StandardReads(EMPTY_BUFFERS, "a");
    StandardReads(EMPTY_BUFFERS.(data := "a\n"), "b");
    DispatchOf(EMPTY_BUFFERS.(data := "a\nb" + "\n"), "a\nb");
    SourceReads("", "a");
    SourceReads("", "b");
    BlankReads("");
  }

  /** An event name behind the data: the standard uses it, the parser has read the data by then. */
  lemma LateEventNameParts()
    ensures WhatwgDispatches(TextOf(["data: a", "event: e", ""])) == [Frame("e", "a")]
    ensures StreamFrames(TextOf(["data: a", "event: e", ""])) == [Frame("", "a")]
  {
    hide TextOf, WhatwgRun, WhatwgLine, FramesOf, ReadLine, WhatwgLines, CompleteLines;
    LinesOfText(["data: a", "event: e", ""]);
    RunOfThree("data: a", "event: e", "");
    assert "data: " + "a" == "data: a" && "event: " + "e" == "event: e";
    assert "" + "a" + "\n" == "a" + "\n";
    var b := EMPTY_BUFFERS.(data := "a" + "\n");
    StandardReads(EMPTY_BUFFERS, "a");
    StandardReads(b, "e");
    DispatchOf(b.(eventType := "e"), "a");
    SourceReads("", "a");
    SourceReads("", "e");
    BlankReads("e");
  }

  lemma {:induction false} NoColon(s: string)
    requires ':' !in s
    ensures FirstColon(s) == |s|
  {
    if s != [] { NoColon(s[1..]); }
  }

  lemma BareNames(b: Buffers, event: string)
    ensures WhatwgLine(b, "data") == b.(data := b.data + "" + "\n") && WhatwgLine(b, "event") == b.(eventType := "")
    ensures ReadLine(event, "data") == ReadLine(event, "event") == LineResult(event, None)
  {
    NoColon("data");
    NoColon("event");
    TrimmedIsFixed("data");
    TrimmedIsFixed("event");
    assert "data"[0] == 'd' && "event"[0] == 'e';
  }

  /** A bare field name: an empty value to the standard, nothing to the parser. */
  lemma BareDataParts()
    ensures WhatwgDispatches(TextOf(["event: e", "data", ""])) == [Frame("e", "")]
    ensures StreamFrames(TextOf(["event: e", "data", ""])) == []
  {
    hide TextOf, WhatwgRun, WhatwgLine, FramesOf, ReadLine, WhatwgLines, CompleteLines;
    LinesOfText(["event: e", "data", ""]);
    RunOfThree("event: e", "data", "");
    assert "event: " + "e" == "event: e" && "" + "" + "\n" == "" + "\n";
    var b := EMPTY_BUFFERS.(eventType := "e");
    StandardReads(EMPTY_BUFFERS, "e");
    BareNames(b, "e");
    DispatchOf(b.(data := "" + "\n"), "");
    SourceReads("", "e");
    BlankReads("e");
  }

  /** A bare event name takes the name back in the standard only. */
  lemma BareEventParts()
    ensures WhatwgDispatches(TextOf(["event: e", "event", "data: a", ""])) == [Frame("message", "a")]
    ensures StreamFrames(TextOf(["event: e", "event", "data: a", ""])) == [Frame("e", "a")]
  {
    hide TextOf, WhatwgRun, WhatwgLine, FramesOf, ReadLine, WhatwgLines, CompleteLines;
    var three := ["event: e", "event", "data: a"];
    assert three + [""] == ["event: e", "event", "data: a", ""];
    LinesOfText(three + [""]);
    RunOfThree("event: e", "event", "data: a");
    OneMore(three, "");
    assert "data: " + "a" == "data: a" && "event: " + "e" == "event: e";
    assert "" + "a" + "\n" == "a" + "\n";
    StandardReads(EMPTY_BUFFERS, "e");
    BareNames(EMPTY_BUFFERS.(eventType := "e"), "e");
    StandardReads(EMPTY_BUFFERS, "a");
    DispatchOf(EMPTY_BUFFERS.(data := "a" + "\n"), "a");
    SourceReads("", "e");
    SourceReads("e", "a");
    BlankReads("e");
  }

  lemma SpaceReads(b: Buffers, event: string)
    ensures WhatwgLine(b, " ") == b && ReadLine(event, " ") == LineResult("", None)
  {
    NoColon(" ");
  }

  /** A line of white space: the parser takes it for the end of the block. */
  lemma SpaceLineParts()
    ensures WhatwgDispatches(TextOf(["event: e", " ", "data: a", ""])) == [Frame("e", "a")]
    ensures StreamFrames(TextOf(["event: e", " ", "data: a", ""])) == [Frame("", "a")]
  {
    hide TextOf, WhatwgRun, WhatwgLine, FramesOf, ReadLine, WhatwgLines, CompleteLines;
    var three := ["event: e", " ", "data: a"];
    assert three + [""] == ["event: e", " ", "data: a", ""];
    LinesOfText(three + [""]);
    RunOfThree("event: e", " ", "data: a");
    OneMore(three, "");
    assert "data: " + "a" == "data: a" && "event: " + "e" == "event: e";
    assert "" + "a" + "\n" == "a" + "\n";
    var b := EMPTY_BUFFERS.(eventType := "e");
    StandardReads(EMPTY_BUFFERS, "e");
    SpaceReads(b, "e");
    StandardReads(b, "a");
    DispatchOf(b.(data := "a" + "\n"), "a");
    SourceReads("", "e");
    SourceReads("", "a");
    BlankReads("");
  }

  /** A block the stream does not finish: the parser has read its data, the standard drops it. */
  lemma UnfinishedBlockParts()
    ensures WhatwgDispatches(TextOf(["data: a"])) == [] && StreamFrames(TextOf(["data: a"])) == [Frame("", "a")]
  {
    hide TextOf, WhatwgRun, WhatwgLine, FramesOf, ReadLine, WhatwgLines, CompleteLines;
    LinesOfText(["data: a"]);
    NothingRead();
    OneMore([], "data: a");
    assert [] + ["data: a"] == ["data: a"] && "data: " + "a" == "data: a";
    StandardReads(EMPTY_BUFFERS, "a");
    SourceReads("", "a");
  }

  /** A CR alone ends a line of the standard's only: here it ends a comment. */
  lemma LoneCrParts()
    ensures WhatwgDispatches(":\r" + TextOf(["data: a", ""])) == [Frame("message", "a")]
    ensures StreamFrames(":\r" + TextOf(["data: a", ""])) == []
  {
    hide TextOf, WhatwgRun, WhatwgLine, FramesOf, ReadLine, WhatwgLines, CompleteLines;
    CrStandardLines();
    CrSourceLines();
    RunOfThree(":", "data: a", "");
    CommentReads(EMPTY_BUFFERS);
    assert "data: " + "a" == "data: a" && "" + "a" + "\n" == "a" + "\n";
    StandardReads(EMPTY_BUFFERS, "a");
    DispatchOf(EMPTY_BUFFERS.(data := "a" + "\n"), "a");
    NothingRead();
    OneMore([], ":\rdata: a");
    OneMore([":\rdata: a"], "");
    assert [] + [":\rdata: a"] == [":\rdata: a"] && [":\rdata: a"] + [""] == [":\rdata: a", ""];
    BlankReads("");
  }

  lemma CommentReads(b: Buffers)
    ensures WhatwgLine(b, ":") == b && ReadLine("", ":\rdata: a") == LineResult("", None)
  {
    TrimmedIsFixed(":\rdata: a");
  }

  lemma CommentEnds(s: string)
    requires s != "" && s[0] != '\n'
    ensures WhatwgLines(":\r" + s) == [":"] + WhatwgLines(s)
  {
    var t := "\r" + s;
    assert ":\r" + s == ":" + t && (":" + t)[1..] == t && t[1..] == s && [] + [':'] == ":";
    assert WhatwgLinesFrom(":", t) == [":"] + WhatwgLinesFrom([], s);
  }

  lemma CrStandardLines()
    ensures WhatwgLines(":\r" + TextOf(["data: a", ""])) == [":", "data: a", ""]
  {
    hide WhatwgLines;
    var s := TextOf(["data: a", ""]);
    assert s[0] == 'd';
    hide TextOf;
    LinesOfText(["data: a", ""]);
    CommentEnds(s);
    assert [":"] + ["data: a", ""] == [":", "data: a", ""];
  }

  lemma CrSourceLines()
    ensures CompleteLines(":\r" + TextOf(["data: a", ""])) == [":\rdata: a", ""]
  {
    hide SplitOn;
    var parts := [":\rdata: a", "", ""];
    JoinSplit(parts, '\n');
    assert ["data: a", ""] + [""] == ["data: a", "", ""] && ["data: a", "", ""][1..] == parts[1..];
    assert ":\r" + ("data: a" + ['\n'] + Join(parts[1..], '\n')) == parts[0] + ['\n'] + Join(parts[1..], '\n');
  }

  /** One frame of the parser against one dispatch, or different numbers of them. */
  lemma Apart(stream: string)
    requires |WhatwgDispatches(stream)| != |StreamFrames(stream)|
      || exists k :: 0 <= k < |StreamFrames(stream)| && WhatwgDispatches(stream)[k].event != EventType(StreamFrames(stream)[k].event)
    ensures !Agrees(stream)
  {
    hide WhatwgDispatches, StreamFrames, Typed, EventType;
    var frames := StreamFrames(stream);
    if |WhatwgDispatches(stream)| == |frames| {
      var k :| 0 <= k < |frames| && WhatwgDispatches(stream)[k].event != EventType(frames[k].event);
      TypedAt(frames, k);
    }
  }

  /**
   Besides clean values, agreement needs at most one data line a block, no event line behind it, no bare field name, no
   line of white space, a finished last block and no CR but in front of a line feed: each stream breaks one of these.
   */
  lemma EveryConditionIsNeeded()
    ensures !Agrees(TextOf(["data: a", "data: b", ""]))
    ensures !Agrees(TextOf(["data: a", "event: e", ""]))
    ensures !Agrees(TextOf(["event: e", "data", ""]))
    ensures !Agrees(TextOf(["event: e", "event", "data: a", ""]))
    ensures !Agrees(TextOf(["event: e", " ", "data: a", ""]))
    ensures !Agrees(TextOf(["data: a"]))
    ensures !Agrees(":\r" + TextOf(["data: a", ""]))
  {
    hide WhatwgDispatches, StreamFrames, Typed, TextOf, Agrees;
    SecondDataLineParts();
    Apart(TextOf(["data: a", "data: b", ""]));
    LateEventNameParts();
    assert StreamFrames(TextOf(["data: a", "event: e", ""]))[0].event == "";
    Apart(TextOf(["data: a", "event: e", ""]));
    BareDataParts();
    Apart(TextOf(["event: e", "data", ""]));
    BareEventParts();
    assert StreamFrames(TextOf(["event: e", "event", "data: a", ""]))[0].event == "e";
    Apart(TextOf(["event: e", "event", "data: a", ""]));
    SpaceLineParts();
    assert StreamFrames(TextOf(["event: e", " ", "data: a", ""]))[0].event == "";
    Apart(TextOf(["event: e", " ", "data: a", ""]));
    UnfinishedBlockParts();
    Apart(TextOf(["data: a"]));
    LoneCrParts();
    Apart(":\r" + TextOf(["data: a", ""]));
  }
}
