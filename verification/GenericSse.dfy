/**
 The other two stream parsers: `parseGenericSse` of src/llm/sseUtils.ts, which yields the
 payload of every data line, and `createSseParser` of apps/web/app.js, which splits frames
 at blank lines.
 */
module GenericSse {
  import opened Outcomes
  import opened Text
  import opened SseLines

  // ---- parseGenericSse

  /** The text of a data line, as the loop body of `parseGenericSse` finds it. */
  function DataOfLine(rawLine: string): Option<string> {
    var line := TrimEnd(rawLine);
    if line == "" || StartsWith(line, ":") then None
    else if !StartsWith(line, "data:") then None
    else
      var data := Trim(line[5..]);
      if data == "" || data == "[DONE]" then None else Some(data)
  }

  function PayloadList<T>(data: Option<string>, parse: string -> Option<T>): seq<T> {
    if data.None? then []
    else
      var payload := parse(data.value);
      if payload.None? then [] else [payload.value]
  }

  function PayloadsOf<T>(lines: seq<string>, parse: string -> Option<T>): seq<T> {
    if lines == [] then []
    else PayloadsOf(lines[..|lines| - 1], parse) + PayloadList(DataOfLine(lines[|lines| - 1]), parse)
  }

  /** What a whole stream yields, however it is cut. */
  function GenericMeaning<T>(stream: string, parse: string -> Option<T>): seq<T> {
    PayloadsOf(CompleteLines(stream), parse)
  }

  method ParseGenericSse<T>(chunks: seq<string>, parse: string -> Option<T>) returns (payloads: seq<T>)
    ensures payloads == GenericMeaning(Concat(chunks), parse)
  {
    hide CompleteLines, Remainder, DataOfLine, PayloadsOf;
    var buffer := "";
    payloads := [];
    NothingYet(parse);
    for i := 0 to |chunks|
      invariant buffer == Remainder(Concat(chunks[..i]))
      invariant payloads == GenericMeaning(Concat(chunks[..i]), parse)
    {
      ghost var before := Concat(chunks[..i]);
      assert Concat(chunks[..i + 1]) == before + chunks[i] by { assert chunks[..i + 1][..i] == chunks[..i]; }
      LinesOfPieces(before, chunks[i]);
      buffer := buffer + chunks[i];
      var lines := CompleteLines(buffer);
      buffer := Remainder(buffer);
      ghost var seen := CompleteLines(before);
      assert lines[..0] == [] && seen + [] == seen;
      for k := 0 to |lines|
        invariant payloads == PayloadsOf(seen + lines[..k], parse)
      {
        PayloadsOfMore(seen + lines[..k], lines[k], parse);
        assert seen + lines[..k + 1] == seen + lines[..k] + [lines[k]];
        var data := DataOfLine(lines[k]);
        if data.Some? {
          var payload := parse(data.value);
          if payload.Some? {
            payloads := payloads + [payload.value];
          }
        }
      }
      assert lines[..|lines|] == lines;
    }
    assert chunks[..|chunks|] == chunks;
  }

  lemma NothingYet<T>(parse: string -> Option<T>)
    ensures Remainder(Concat([])) == "" && GenericMeaning(Concat([]), parse) == []
  {
  }

  lemma PayloadsOfMore<T>(lines: seq<string>, next: string, parse: string -> Option<T>)
    ensures PayloadsOf(lines + [next], parse) == PayloadsOf(lines, parse) + PayloadList(DataOfLine(next), parse)
    ensures PayloadList(DataOfLine(next), parse) == [] ==> PayloadsOf(lines + [next], parse) == PayloadsOf(lines, parse)
  {
    assert (lines + [next])[..|lines|] == lines;
  }

  /** The payloads are those of the frames the Anthropic parser reads, whatever their events. */
  lemma {:induction false} PayloadsAreFrames<T>(event: string, lines: seq<string>, parse: string -> Option<T>)
    ensures PayloadsOf(lines, parse) == FramePayloads(FramesOf(event, lines).0, parse)
  {
    if lines != [] {
      hide ReadLine, DataOfLine;
      var n := |lines| - 1;
      PayloadsAreFrames(event, lines[..n], parse);
      var f := FramesOf(event, lines[..n]);
      DataIsFrameData(f.1, lines[n]);
      var frame := ReadLine(f.1, lines[n]).frame;
      if frame.Some? {
        assert (f.0 + [frame.value])[..|f.0|] == f.0;
      } else {
        assert f.0 + [] == f.0;
        assert FramePayloads(f.0, parse) + [] == FramePayloads(f.0, parse);
      }
    }
  }

  function FramePayloads<T>(frames: seq<Frame>, parse: string -> Option<T>): seq<T> {
    if frames == [] then []
    else FramePayloads(frames[..|frames| - 1], parse) + PayloadList(Some(frames[|frames| - 1].data), parse)
  }

  lemma DataIsFrameData(event: string, line: string)
    ensures var frame := ReadLine(event, line).frame;
            DataOfLine(line) == if frame.Some? then Some(frame.value.data) else None
  {
    var t := TrimEnd(line);
    if StartsWith(t, "event:") { assert t[0] == 'e'; }
  }

  lemma {:induction false} DatalessLineIsSkipped<T>(before: seq<string>, line: string, after: seq<string>, parse: string -> Option<T>)
    requires DataOfLine(line) == None
    ensures PayloadsOf(before + [line] + after, parse) == PayloadsOf(before + after, parse)
  {
    hide DataOfLine, PayloadsOf;
    if after == [] {
      assert before + [line] + after == before + [line] && before + after == before;
      PayloadsOfMore(before, line, parse);
    } else {
      var after', x := after[..|after| - 1], after[|after| - 1];
      DatalessLineIsSkipped(before, line, after', parse);
      PayloadsOfMore(before + [line] + after', x, parse);
      PayloadsOfMore(before + after', x, parse);
      assert before + [line] + after == before + [line] + after' + [x];
      assert before + after == before + after' + [x];
    }
  }

  /** The comment says the parser stops on `[DONE]`; it reads on. */
  lemma DoneDoesNotStop<T>(before: seq<string>, after: seq<string>, parse: string -> Option<T>)
    ensures PayloadsOf(before + ["data: [DONE]"] + after, parse) == PayloadsOf(before + after, parse)
  {
    DoneLineIsNoData();
    hide DataOfLine, PayloadsOf;
    DatalessLineIsSkipped(before, "data: [DONE]", after, parse);
  }

  lemma DoneLineIsNoData()
    ensures DataOfLine("data: [DONE]") == None
  {
    var line := "data: [DONE]";
    TrimmedIsFixed(line);
    assert line[5..] == " [DONE]" && " [DONE]"[1..] == "[DONE]";
    TrimmedIsFixed("[DONE]");
  }

  // ---- createSseParser

  /** `s.split(/\n\n/)`: the separators are the leftmost ones that do not overlap. */
  function SplitBlank(s: string): (parts: seq<string>)
    ensures |parts| >= 1
  {
    if s == "" then [""]
    else if |s| >= 2 && s[0] == '\n' && s[1] == '\n' then [""] + SplitBlank(s[2..])
    else Prepend(s[0], SplitBlank(s[1..]))
  }

  function Frames(s: string): seq<string> {
    SplitBlank(s)[..|SplitBlank(s)| - 1]
  }

  function Tail(s: string): string {
    SplitBlank(s)[|SplitBlank(s)| - 1]
  }

  /** Frames of text that arrives in two pieces, read on from the carried tail. */
  lemma {:induction false} FramesOfPieces(a: string, b: string)
    ensures Frames(a + b) == Frames(a) + Frames(Tail(a) + b)
    ensures Tail(a + b) == Tail(Tail(a) + b)
    decreases |a|
  {
    hide SplitBlank, Frames, Tail;
    if |a| <= 1 {
      ShortText(a);
      assert [] + Frames(a + b) == Frames(a + b);
    } else if a[0] == '\n' && a[1] == '\n' {
      assert (a + b)[2..] == a[2..] + b;
      FramesOfPieces(a[2..], b);
      BlankFirst(a);
      BlankFirst(a + b);
      var p, q := Frames(a[2..]), Frames(Tail(a) + b);
      assert [""] + (p + q) == [""] + p + q;
    } else {
      FramesOfPieces(a[1..], b);
      CharacterFirst(a, b);
    }
  }

  lemma ShortText(s: string)
    requires |s| <= 1
    ensures Frames(s) == [] && Tail(s) == s
  {
    if s != "" {
      assert SplitBlank(s[1..]) == [""] && [s[0]] + "" == s;
    }
  }

  lemma BlankFirst(s: string)
    requires |s| >= 2 && s[0] == '\n' && s[1] == '\n'
    ensures Frames(s) == [""] + Frames(s[2..]) && Tail(s) == Tail(s[2..])
  {
  }

  lemma CharacterFirst(a: string, b: string)
    requires |a| >= 2 && !(a[0] == '\n' && a[1] == '\n')
    requires Frames(a[1..] + b) == Frames(a[1..]) + Frames(Tail(a[1..]) + b)
    requires Tail(a[1..] + b) == Tail(Tail(a[1..]) + b)
    ensures Frames(a + b) == Frames(a) + Frames(Tail(a) + b)
    ensures Tail(a + b) == Tail(Tail(a) + b)
  {
    var p, q := SplitBlank(a[1..]), SplitBlank(a[1..] + b);
    assert (a + b)[1..] == a[1..] + b;
    assert SplitBlank(a) == Prepend(a[0], p) && SplitBlank(a + b) == Prepend(a[0], q);
    hide SplitBlank;
    if |p| == 1 {
      SplitBlankWhole(a[1..]);
      assert p[0] == a[1..] && [a[0]] + a[1..] == a;
      assert Tail(a) == a && Frames(a) == [];
    } else {
      assert Tail(a) == Tail(a[1..]);
      assert Frames(a) == Prepend(a[0], Frames(a[1..]));
      var more := Frames(Tail(a) + b);
      assert Prepend(a[0], Frames(a[1..])) + more == Prepend(a[0], Frames(a[1..]) + more);
    }
  }

  lemma {:induction false} SplitBlankWhole(s: string)
    requires |SplitBlank(s)| == 1
    ensures SplitBlank(s) == [s]
  {
    if s != "" {
      SplitBlankWhole(s[1..]);
      assert [s[0]] + s[1..] == s;
    }
  }

  datatype WebEvent = WebEvent(event: string, data: string)

  /** The event name and data lines a frame's lines leave behind. */
  function ReadFrameLines(lines: seq<string>): (string, seq<string>) {
    if lines == [] then ("message", [])
    else
      var (event, data) := ReadFrameLines(lines[..|lines| - 1]);
      var line := lines[|lines| - 1];
      if StartsWith(line, ":") then (event, data)
      else
        (if StartsWith(line, "event:") then Trim(line[6..]) else event,
         if StartsWith(line, "data:") then data + [TrimStart(line[5..])] else data)
  }

  function ReadFrame(frame: string): seq<WebEvent> {
    var (event, data) := ReadFrameLines(SplitOn(frame, '\n'));
    if data == [] then [] else [WebEvent(event, Join(data, '\n'))]
  }

  function EventsOf(frames: seq<string>): seq<WebEvent> {
    if frames == [] then [] else EventsOf(frames[..|frames| - 1]) + ReadFrame(frames[|frames| - 1])
  }

  lemma EventsOfMore(frames: seq<string>, next: string)
    ensures EventsOf(frames + [next]) == EventsOf(frames) + ReadFrame(next)
  {
    assert (frames + [next])[..|frames|] == frames;
  }

  lemma LastOfConcat<T>(a: seq<T>, b: seq<T>)
    requires b != []
    ensures a + b == a + b[..|b| - 1] + [b[|b| - 1]]
  {
  }

  lemma {:induction false} EventsOfConcat(a: seq<string>, b: seq<string>)
    ensures EventsOf(a + b) == EventsOf(a) + EventsOf(b)
  {
    if b == [] {
      assert a + b == a && EventsOf(a) + [] == EventsOf(a);
    } else {
      var b', x := b[..|b| - 1], b[|b| - 1];
      EventsOfConcat(a, b');
      LastOfConcat(a, b);
      EventsOfMore(a + b', x);
      SeqAssoc(EventsOf(a), EventsOf(b'), ReadFrame(x));
      assert EventsOf(b) == EventsOf(b') + ReadFrame(x);
      hide ReadFrame, EventsOf;
    }
  }

  lemma SeqAssoc<T>(a: seq<T>, b: seq<T>, c: seq<T>)
    ensures a + b + c == a + (b + c)
  {
  }

  /** What the uncut text fed so far means. */
  function WebMeaning(text: string): seq<WebEvent> {
    EventsOf(Frames(text))
  }

  /** The closure returned by `createSseParser`; the events handed to `onEvent` are returned. */
  class SseParser {
    var buffer: string
    ghost var fed: string

    ghost predicate Valid()
      reads this
    {
      buffer == Tail(fed)
    }

    constructor ()
      ensures Valid() && fed == ""
    {
      buffer, fed := "", "";
    }

    /** However the text is cut, a chunk adds what the longer text means beyond the shorter. */
    method Feed(chunk: string) returns (events: seq<WebEvent>)
      requires Valid()
      modifies this
      ensures Valid() && fed == old(fed) + chunk
      ensures WebMeaning(fed) == WebMeaning(old(fed)) + events
    {
      hide Frames, Tail, ReadFrame;
      FramesOfPieces(fed, chunk);
      EventsOfConcat(Frames(fed), Frames(buffer + chunk));
      fed := fed + chunk;
      buffer := buffer + chunk;
      var frames := Frames(buffer);
      buffer := Tail(buffer);
      events := [];
      for i := 0 to |frames|
        invariant events == EventsOf(frames[..i])
        invariant buffer == Tail(fed) && fed == old(fed) + chunk
      {
        var emitted := EmitFrame(frames[i]);
        events := events + emitted;
        assert frames[..i + 1][..i] == frames[..i];
      }
      assert frames[..|frames|] == frames;
    }
  }

  /** The loop over the lines of one frame. */
  method EmitFrame(frame: string) returns (events: seq<WebEvent>)
    ensures events == ReadFrame(frame)
  {
    var lines := SplitOn(frame, '\n');
    var event := "message";
    var data: seq<string> := [];
    for k := 0 to |lines|
      invariant (event, data) == ReadFrameLines(lines[..k])
    {
      assert lines[..k + 1][..k] == lines[..k];
      var line := lines[k];
      if StartsWith(line, ":") {
        continue;
      }
      if StartsWith(line, "event:") {
        event := Trim(line[6..]);
      }
      if StartsWith(line, "data:") {
        data := data + [TrimStart(line[5..])];
      }
    }
    assert lines[..|lines|] == lines;
    events := if data == [] then [] else [WebEvent(event, Join(data, '\n'))];
  }

  /** Feeding a text in any chunks emits what the uncut text means. */
  method FeedAll(chunks: seq<string>) returns (events: seq<WebEvent>)
    ensures events == WebMeaning(Concat(chunks))
  {
    var parser := new SseParser();
    events := [];
    for i := 0 to |chunks|
      invariant parser.Valid() && parser.fed == Concat(chunks[..i])
      invariant fresh(parser)
      invariant events == WebMeaning(Concat(chunks[..i]))
    {
      var emitted := parser.Feed(chunks[i]);
      events := events + emitted;
      assert chunks[..i + 1][..i] == chunks[..i];
    }
    assert chunks[..|chunks|] == chunks;
  }
}
