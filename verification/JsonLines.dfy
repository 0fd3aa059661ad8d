/**
 Append-only files with one JSON record a line, as src/control/ControlEventLedger.ts and src/storage/Transcript.ts
 keep them: blank lines and lines that do not parse are passed over.
 */
module JsonLines {
  import opened Outcomes
  import opened Names
  import opened Text

  /** How a record is written on a line, and what a line is read as. */
  datatype Codec<!E> = Codec(encode: E -> string, decode: string -> Option<E>)

  /** An encoded record is one line that decodes to it; no proper prefix decodes. */
  ghost predicate Lawful<E(!new)>(c: Codec<E>) {
    forall e :: OneLine(c.encode(e)) && c.decode(c.encode(e)) == Some(e) && PrefixesFail(c, c.encode(e))
  }

  ghost predicate PrefixesFail<E>(c: Codec<E>, text: string) {
    forall n :: 0 <= n < |text| ==> c.decode(Trim(text[..n])) == None
  }

  predicate OneLine(text: string) {
    text != "" && Trimmed(text) && '\n' !in text
  }

  function DecodeLine<E>(line: string, c: Codec<E>): seq<E> {
    var trimmed := Trim(line);
    if trimmed == "" then []
    else
      var record := c.decode(trimmed);
      if record.Some? then [record.value] else []
  }

  function DecodeLines<E>(lines: seq<string>, c: Codec<E>): seq<E> {
    if lines == [] then [] else DecodeLines(lines[..|lines| - 1], c) + DecodeLine(lines[|lines| - 1], c)
  }

  /** What `readAll` makes of a file; a missing file reads like an empty one. */
  function RecordsIn<E>(file: string, c: Codec<E>): seq<E> {
    DecodeLines(SplitOn(file, '\n'), c)
  }

  /** The reading loop of both logs. */
  method ReadLines<E>(file: string, c: Codec<E>) returns (records: seq<E>)
    ensures records == RecordsIn(file, c)
  {
    var lines := SplitOn(file, '\n');
    records := [];
    for i := 0 to |lines|
      invariant records == DecodeLines(lines[..i], c)
    {
      assert lines[..i + 1][..i] == lines[..i];
      var trimmed := Trim(lines[i]);
      if trimmed != "" {
        var record := c.decode(trimmed);
        if record.Some? {
          records := records + [record.value];
        }
      }
    }
    assert lines[..|lines|] == lines;
  }

  predicate AtBoundary(file: string) {
    file == "" || file[|file| - 1] == '\n'
  }

  lemma {:induction false} BoundaryLine(file: string)
    requires AtBoundary(file)
    ensures SplitOn(file, '\n')[|SplitOn(file, '\n')| - 1] == ""
  {
    if file != "" {
      var n := |file| - 1;
      assert file == file[..n] + "\n";
      SplitConcat(file[..n], "\n", '\n');
      assert SplitOn("\n", '\n') == ["", ""];
    }
  }

  lemma LinesAfterBoundary<E>(file: string, line: string, c: Codec<E>)
    requires AtBoundary(file) && '\n' !in line
    ensures RecordsIn(file + line, c) == RecordsIn(file, c) + DecodeLine(line, c)
  {
    hide SplitOn, DecodeLine;
    var p := SplitOn(file, '\n');
    BoundaryLine(file);
    SplitConcat(file, line, '\n');
    SplitWithout(line, '\n');
    assert "" + line == line;
    assert SplitOn(file + line, '\n') == p[..|p| - 1] + [line];
    assert (p[..|p| - 1] + [line])[..|p| - 1] == p[..|p| - 1];
    BlankDecodesToNothing(c);
    assert DecodeLines(p[..|p| - 1], c) + [] == DecodeLines(p[..|p| - 1], c);
  }

  lemma BlankDecodesToNothing<E>(c: Codec<E>)
    ensures DecodeLine("", c) == []
  {
  }

  lemma LineFeedAddsNothing<E>(file: string, c: Codec<E>)
    ensures RecordsIn(file + "\n", c) == RecordsIn(file, c)
  {
    hide DecodeLine;
    var p := SplitOn(file, '\n');
    assert SplitOn("\n", '\n') == ["", ""];
    SplitConcat(file, "\n", '\n');
    hide SplitOn;
    assert p[|p| - 1] + "" == p[|p| - 1];
    assert SplitOn(file + "\n", '\n') == p + [""];
    assert (p + [""])[..|p|] == p;
    BlankDecodesToNothing(c);
    assert DecodeLines(p, c) + [] == DecodeLines(p, c);
  }

  /** A torn write of a record is invisible; the whole text is visible, with or without its line feed. */
  lemma PartlyWritten<E(!new)>(base: string, e: E, n: nat, c: Codec<E>)
    requires Lawful(c) && AtBoundary(base) && n <= |c.encode(e)| + 1
    ensures var text := c.encode(e);
            RecordsIn(base + (text + "\n")[..n], c) ==
            if n < |text| then RecordsIn(base, c) else RecordsIn(base, c) + [e]
  {
    hide RecordsIn;
    var text := c.encode(e);
    assert OneLine(text) && PrefixesFail(c, text);
    if n < |text| {
      var part := text[..n];
      assert (text + "\n")[..n] == part;
      LinesAfterBoundary(base, part, c);
      assert DecodeLine(part, c) == [];
      assert RecordsIn(base, c) + [] == RecordsIn(base, c);
    } else {
      LinesAfterBoundary(base, text, c);
      TrimmedIsFixed(text);
      assert DecodeLine(text, c) == [e];
      if n == |text| {
        assert (text + "\n")[..n] == text;
      } else {
        assert (text + "\n")[..n] == text + "\n" && base + (text + "\n") == base + text + "\n";
        LineFeedAddsNothing(base + text, c);
      }
    }
  }

  /** With anything but white space in front of it a JSON object is none. */
  ghost predicate NothingInFront<E(!new)>(c: Codec<E>) {
    forall text: string, e :: Trim(text) != "" ==> c.decode(Trim(text + c.encode(e))) == None
  }

  // ---- The laws can be met

  function Braced<E>(name: E -> string, e: E): string {
    "{" + name(e) + "}"
  }

  ghost function Unbraced<E(!new)>(name: E -> string, text: string): Option<E> {
    if exists e :: Braced(name, e) == text then
      var e :| Braced(name, e) == text;
      Some(e)
    else None
  }

  /** One record a line, as a name in braces. */
  ghost function BracedCodec<E(!new)>(name: E -> string): Codec<E> {
    Codec(e => Braced(name, e), text => Unbraced(name, text))
  }

  /** Records that have names of their own have a codec with all the laws. */
  lemma BracedIsLawful<E(!new)>(name: E -> string)
    requires forall e :: IsName(name(e))
    requires forall d, e :: name(d) == name(e) ==> d == e
    ensures Lawful(BracedCodec(name)) && NothingInFront(BracedCodec(name))
  {
    var c := BracedCodec(name);
    forall e ensures OneLine(c.encode(e)) && c.decode(c.encode(e)) == Some(e) && PrefixesFail(c, c.encode(e)) {
      BracesTell(name, e);
      forall n | 0 <= n < |Braced(name, e)| ensures c.decode(Trim(Braced(name, e)[..n])) == None {
        PrefixHasNoEnd(name, e, n);
      }
    }
    forall text: string, e | Trim(text) != "" ensures c.decode(Trim(text + c.encode(e))) == None {
      FrontHasBrace(name, text, e);
    }
  }

  lemma BracesTell<E(!new)>(name: E -> string, e: E)
    requires IsName(name(e)) && forall d :: name(d) == name(e) ==> d == e
    ensures OneLine(Braced(name, e)) && Unbraced(name, Braced(name, e)) == Some(e)
  {
    var text := Braced(name, e);
    var d := Unbraced(name, text).value;
    assert name(d) == Braced(name, d)[1..|text| - 1] == name(e);
  }

  /** A text with a name in braces ends with the only closing brace in it, and begins with the only opening one. */
  lemma BracesAreOuter<E(!new)>(name: E -> string, text: string, k: nat)
    requires (forall e :: IsName(name(e))) && Unbraced(name, text).Some? && k < |text|
    ensures text[0] == '{' && (text[k] == '{' ==> k == 0) && (text[k] == '}' ==> k == |text| - 1) && text[|text| - 1] == '}'
  {
    var e := Unbraced(name, text).value;
    assert text == Braced(name, e);
    assert 0 < k < |text| - 1 ==> text[k] == name(e)[k - 1];
  }

  lemma PrefixHasNoEnd<E(!new)>(name: E -> string, e: E, n: nat)
    requires (forall e :: IsName(name(e))) && n < |Braced(name, e)|
    ensures Unbraced(name, Trim(Braced(name, e)[..n])) == None
  {
    var part := Braced(name, e)[..n];
    forall i | 0 <= i < n ensures part[i] != '}' {
      assert i > 0 ==> part[i] == name(e)[i - 1];
    }
    TrimIsPart(part, '}');
    NamedTextEnds(name, Trim(part));
  }

  lemma NamedTextEnds<E(!new)>(name: E -> string, text: string)
    ensures Unbraced(name, text).Some? ==> '}' in text
  {
    if Unbraced(name, text).Some? {
      var e := Unbraced(name, text).value;
      assert Braced(name, e)[|text| - 1] == '}';
    }
  }

  /** Trimming adds no characters. */
  lemma {:induction false} TrimIsPart(s: string, c: char)
    ensures c in Trim(s) ==> c in s
  {
    StartIsPart(s, c);
    EndIsPart(TrimStart(s), c);
  }

  lemma {:induction false} StartIsPart(s: string, c: char)
    ensures c in TrimStart(s) ==> c in s
  {
    if s != "" && IsSpace(s[0]) { StartIsPart(s[1..], c); }
  }

  lemma {:induction false} EndIsPart(s: string, c: char)
    ensures c in TrimEnd(s) ==> c in s
  {
    if s != "" && IsSpace(s[|s| - 1]) { EndIsPart(s[..|s| - 1], c); }
  }

  lemma FrontHasBrace<E(!new)>(name: E -> string, text: string, e: E)
    requires (forall e :: IsName(name(e))) && Trim(text) != ""
    ensures Unbraced(name, Trim(text + Braced(name, e))) == None
  {
    var t := Trim(text + Braced(name, e));
    FrontStays(text, Braced(name, e));
    var k: nat :| 0 < k < |t| && t[k] == '{';
    if Unbraced(name, t).Some? { BracesAreOuter(name, t, k); }
  }

  /** What is in front of an opening brace and no white space stays in front of it. */
  lemma {:induction false} FrontStays(text: string, record: string)
    requires Trim(text) != "" && record != "" && record[0] == '{' && Trimmed(record)
    ensures exists k: nat :: 0 < k < |Trim(text + record)| && Trim(text + record)[k] == '{'
  {
    if text == "" {
    } else if IsSpace(text[0]) {
      assert (text + record)[1..] == text[1..] + record && (text + record)[0] == text[0];
      assert Trim(text + record) == Trim(text[1..] + record);
      FrontStays(text[1..], record);
    } else {
      var s := text + record;
      assert Trimmed(s);
      TrimmedIsFixed(s);
      assert s[|text|] == '{';
    }
  }
}
