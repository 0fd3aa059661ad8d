/** Frames written for `createSseParser` of apps/web/app.js are read back. */
module WebFrames {
  import opened Outcomes
  import opened Text
  import opened SseLines
  import opened GenericSse

  /** A line of a frame. */
  datatype Line = Comment(text: string) | Name(event: string) | Data(data: string) | Other(text: string)

  function LineText(line: Line): string {
    match line
    case Comment(text) => ":" + text
    case Name(event) => "event: " + event
    case Data(data) => "data: " + data
    case Other(text) => text
  }

  /** Lines that can be written: names are trimmed, data does not begin with white space, other lines mean nothing. */
  predicate IsLine(line: Line) {
    && '\n' !in LineText(line)
    && match line
       case Comment(_) => true
       case Name(event) => Trimmed(event)
       case Data(data) => data != "" ==> !IsSpace(data[0])
       case Other(text) => text != "" && !StartsWith(text, ":") && !StartsWith(text, "event:") && !StartsWith(text, "data:")
  }

  /** The last name, and the data in order. */
  function NameOf(lines: seq<Line>): string {
    if lines == [] then "message"
    else if lines[|lines| - 1].Name? then lines[|lines| - 1].event
    else NameOf(lines[..|lines| - 1])
  }

  function DataOf(lines: seq<Line>): seq<string> {
    if lines == [] then []
    else DataOf(lines[..|lines| - 1]) + (if lines[|lines| - 1].Data? then [lines[|lines| - 1].data] else [])
  }

  function Texts(lines: seq<Line>): (texts: seq<string>)
    ensures |texts| == |lines| && forall i :: 0 <= i < |lines| ==> texts[i] == LineText(lines[i])
  {
    seq(|lines|, i requires 0 <= i < |lines| => LineText(lines[i]))
  }

  /** What one line leaves of a name and data. */
  lemma LineReads(lines: seq<string>, line: Line)
    requires IsLine(line)
    ensures var (event, data) := ReadFrameLines(lines);
            ReadFrameLines(lines + [LineText(line)]) ==
            (if line.Name? then line.event else event, if line.Data? then data + [line.data] else data)
  {
    var text := LineText(line);
    assert (lines + [text])[..|lines|] == lines;
    match line {
      case Comment(_) =>
      case Name(event) =>
        assert text[6..] == " " + event && text[0] == 'e';
        NameReads(event);
      case Data(data) =>
        assert text[5..] == " " + data && text[0] == 'd';
        TrimStartDrops(" ", data);
      case Other(_) =>
    }
    hide Trim, TrimStart;
  }

  lemma NameReads(event: string)
    requires Trimmed(event)
    ensures Trim(" " + event) == event
  {
    TrimmedIsFixed(event);
    assert (" " + event)[1..] == event;
  }

  lemma TextsMore(lines: seq<Line>)
    requires lines != []
    ensures Texts(lines[..|lines| - 1]) + [LineText(lines[|lines| - 1])] == Texts(lines)
  {
    hide LineText;
  }

  lemma LastLine(lines: seq<Line>)
    requires lines != []
    ensures var front, last := lines[..|lines| - 1], lines[|lines| - 1];
            && NameOf(lines) == (if last.Name? then last.event else NameOf(front))
            && DataOf(lines) == (if last.Data? then DataOf(front) + [last.data] else DataOf(front))
  {
  }

  lemma {:induction false} LinesRead(lines: seq<Line>)
    requires forall i :: 0 <= i < |lines| ==> IsLine(lines[i])
    ensures ReadFrameLines(Texts(lines)) == (NameOf(lines), DataOf(lines))
  {
    if lines != [] {
      hide ReadFrameLines, IsLine, LineText, Texts, NameOf, DataOf;
      LinesRead(lines[..|lines| - 1]);
      LineReads(Texts(lines[..|lines| - 1]), lines[|lines| - 1]);
      TextsMore(lines);
      LastLine(lines);
    } else {
      assert Texts([]) == [];
    }
  }

  function FrameText(lines: seq<Line>): string
    requires lines != []
  {
    Join(Texts(lines), '\n')
  }

  /** A frame is read as its last event name and its data joined, or as nothing without data. */
  lemma FrameReads(lines: seq<Line>)
    requires lines != [] && forall i :: 0 <= i < |lines| ==> IsLine(lines[i])
    ensures ReadFrame(FrameText(lines)) == if DataOf(lines) == [] then [] else [WebEvent(NameOf(lines), Join(DataOf(lines), '\n'))]
  {
    hide SplitOn, Join, IsLine, ReadFrameLines, NameOf, DataOf;
    LinesRead(lines);
    forall i | 0 <= i < |lines| ensures '\n' !in Texts(lines)[i] { OneLineEach(lines[i]); }
    JoinSplit(Texts(lines), '\n');
  }

  lemma OneLineEach(line: Line)
    requires IsLine(line)
    ensures '\n' !in LineText(line) && LineText(line) != ""
  {
  }

  // ---- A stream of frames

  /** A text without a blank line in it, and not beginning or ending with a line feed. */
  predicate IsBody(s: string) {
    s != "" && s[0] != '\n' && s[|s| - 1] != '\n' && forall i :: 0 <= i < |s| - 1 ==> !(s[i] == '\n' && s[i + 1] == '\n')
  }

  lemma {:induction false} BodyIsFrame(s: string)
    requires s != "" && s[|s| - 1] != '\n' && forall i :: 0 <= i < |s| - 1 ==> !(s[i] == '\n' && s[i + 1] == '\n')
    ensures SplitBlank(s + "\n\n") == [s, ""]
  {
    var t := s + "\n\n";
    assert t[0] == s[0] && t[1] == if |s| > 1 then s[1] else '\n';
    assert t[1..] == s[1..] + "\n\n";
    if |s| > 1 {
      assert s[0] == '\n' ==> s[1] != '\n';
      BodyIsFrame(s[1..]);
    } else {
      assert s[1..] == "" && "" + "\n\n" == "\n\n";
      BlankAlone();
    }
    assert [s[0]] + s[1..] == s;
  }

  lemma BlankAlone()
    ensures SplitBlank("\n\n") == ["", ""]
  {
    assert "\n\n"[2..] == "";
  }

  lemma {:induction false} JoinIsBody(parts: seq<string>)
    requires |parts| >= 1 && forall i :: 0 <= i < |parts| ==> parts[i] != "" && '\n' !in parts[i]
    ensures IsBody(Join(parts, '\n')) && Join(parts, '\n')[0] == parts[0][0]
  {
    var p := parts[0];
    assert p[0] in p && p[|p| - 1] in p;
    if |parts| == 1 {
      forall i | 0 <= i < |p| - 1 ensures p[i] != '\n' { assert p[i] in p; }
    } else {
      var rest := Join(parts[1..], '\n');
      JoinIsBody(parts[1..]);
      BodyBehindLine(p, rest);
      assert p + ['\n'] + rest == p + (['\n'] + rest);
    }
  }

  lemma BodyBehindLine(p: string, rest: string)
    requires p != "" && '\n' !in p && IsBody(rest)
    ensures IsBody(p + (['\n'] + rest)) && (p + (['\n'] + rest))[0] == p[0]
  {
    var s := p + (['\n'] + rest);
    assert p[0] in p && s[|s| - 1] == rest[|rest| - 1];
    forall i | 0 <= i < |s| - 1 ensures !(s[i] == '\n' && s[i + 1] == '\n') {
      if i < |p| {
        assert s[i] == p[i] && p[i] in p;
      } else if i == |p| {
        assert s[i + 1] == rest[0];
      } else {
        assert s[i] == rest[i - |p| - 1] && s[i + 1] == rest[i - |p|];
      }
    }
  }

  ghost predicate IsFrame(lines: seq<Line>) {
    lines != [] && forall i :: 0 <= i < |lines| ==> IsLine(lines[i])
  }

  function StreamText(frames: seq<seq<Line>>): string
    requires forall k :: 0 <= k < |frames| ==> frames[k] != []
  {
    if frames == [] then "" else StreamText(frames[..|frames| - 1]) + (FrameText(frames[|frames| - 1]) + "\n\n")
  }

  function Events(frames: seq<seq<Line>>): seq<WebEvent> {
    if frames == [] then []
    else
      var last := frames[|frames| - 1];
      Events(frames[..|frames| - 1]) + (if DataOf(last) == [] then [] else [WebEvent(NameOf(last), Join(DataOf(last), '\n'))])
  }

  lemma OneFrame(lines: seq<Line>)
    requires IsFrame(lines)
    ensures Frames(FrameText(lines) + "\n\n") == [FrameText(lines)] && Tail(FrameText(lines) + "\n\n") == ""
  {
    hide SplitBlank, Join, IsLine;
    forall i | 0 <= i < |lines| ensures Texts(lines)[i] != "" && '\n' !in Texts(lines)[i] { OneLineEach(lines[i]); }
    JoinIsBody(Texts(lines));
    BodyIsFrame(FrameText(lines));
  }

  lemma NothingFed()
    ensures Frames("") == [] && Tail("") == "" && EventsOf([]) == []
  {
  }

  lemma OneMoreFrame(text: string, lines: seq<Line>)
    requires IsFrame(lines) && Tail(text) == ""
    ensures WebMeaning(text + (FrameText(lines) + "\n\n")) == WebMeaning(text) + ReadFrame(FrameText(lines))
    ensures Tail(text + (FrameText(lines) + "\n\n")) == ""
  {
    hide Frames, Tail, EventsOf, FrameText, ReadFrame, IsLine, Join;
    var frame := FrameText(lines);
    OneFrame(lines);
    FramesOfPieces(text, frame + "\n\n");
    assert "" + (frame + "\n\n") == frame + "\n\n";
    EventsOfMore(Frames(text), frame);
  }

  /** Frames written one after the other are read back as their events, in order. */
  lemma {:induction false} StreamReads(frames: seq<seq<Line>>)
    requires forall k :: 0 <= k < |frames| ==> frames[k] != [] && IsFrame(frames[k])
    ensures WebMeaning(StreamText(frames)) == Events(frames) && Tail(StreamText(frames)) == ""
  {
    NothingFed();
    if frames != [] {
      hide Tail, WebMeaning, FrameText, ReadFrame, IsLine, DataOf, NameOf, Join;
      var front, last := frames[..|frames| - 1], frames[|frames| - 1];
      StreamReads(front);
      OneMoreFrame(StreamText(front), last);
      FrameReads(last);
    }
  }
}
