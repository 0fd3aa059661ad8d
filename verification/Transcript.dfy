/** The transcript file and its read cache: src/storage/Transcript.ts. Operations are taken one at a time. */
module Transcript {
  import opened Outcomes
  import opened Text
  import opened JsonLines
  import opened Names

  datatype Kind =
    | UserMessage | AssistantText | ToolCall | ToolResultEntry | TurnStarted | TurnCommitted | TurnAborted
    | CompactionBoundary | CanonicalMessage | ControlEventEntry

  datatype Entry = Entry(kind: Kind, json: string)

  /** A file on disk; `mtime` is the time of its last change. */
  datatype File = NoFile | File(text: string, mtime: int)

  /** `readCache`: what the file held when it had this size and this time. */
  datatype Cache = NoCache | Cache(size: nat, mtime: int, entries: seq<Entry>)

  function TextOf(f: File): string {
    if f.File? then f.text else ""
  }

  /** What reading the file without a cache gives. */
  function Fresh(f: File, c: Codec<Entry>): seq<Entry> {
    RecordsIn(TextOf(f), c)
  }

  function AppendTo(f: File, e: Entry, now: int, c: Codec<Entry>): File {
    File(TextOf(f) + (c.encode(e) + "\n"), now)
  }

  /** The cache after `append`: extended by the entry itself, if there was one. */
  function CacheAfterAppend(cache: Cache, f: File, e: Entry): Cache {
    if cache.NoCache? || f.NoFile? then cache else Cache(|f.text|, f.mtime, cache.entries + [e])
  }

  predicate Hits(cache: Cache, f: File) {
    cache.Cache? && f.File? && cache.size == |f.text| && cache.mtime == f.mtime
  }

  function ReadResult(cache: Cache, f: File, c: Codec<Entry>): seq<Entry> {
    if Hits(cache, f) then cache.entries else Fresh(f, c)
  }

  function CacheAfterRead(cache: Cache, f: File, c: Codec<Entry>): Cache {
    if f.NoFile? then NoCache else Cache(|f.text|, f.mtime, ReadResult(cache, f, c))
  }

  /** A file whose last line is finished. */
  predicate Whole(f: File) {
    AtBoundary(TextOf(f))
  }

  lemma FinishedLineAdds(f: File, e: Entry, now: int, c: Codec<Entry>)
    requires Lawful(c) && Whole(f)
    ensures Fresh(AppendTo(f, e, now, c), c) == Fresh(f, c) + [e] && Whole(AppendTo(f, e, now, c))
  {
    PartlyWritten(TextOf(f), e, |c.encode(e)| + 1, c);
    hide RecordsIn, Lawful;
    var line := c.encode(e) + "\n";
    assert line[..|c.encode(e)| + 1] == line;
  }

  // ---- The transcript object

  /** The file, shared by every transcript object on its path. */
  class Disk {
    var file: File

    constructor ()
      ensures file == NoFile
    {
      file := NoFile;
    }
  }

  class Transcript {
    const disk: Disk
    const codec: Codec<Entry>
    var readCache: Cache

    constructor (disk: Disk, codec: Codec<Entry>)
      ensures this.disk == disk && this.codec == codec && readCache == NoCache
    {
      this.disk, this.codec, readCache := disk, codec, NoCache;
    }

    /** The cache is right and the file has no torn line: kept as long as no other object writes the file. */
    ghost predicate Valid()
      reads this, disk
    {
      Lawful(codec) && Whole(disk.file) && (readCache.Cache? ==> Hits(readCache, disk.file) && readCache.entries == Fresh(disk.file, codec))
    }

    method Append(e: Entry, now: int)
      modifies this`readCache, disk
      ensures disk.file == AppendTo(old(disk.file), e, now, codec)
      ensures readCache == CacheAfterAppend(old(readCache), disk.file, e)
      ensures old(Valid()) ==> Valid() && Fresh(disk.file, codec) == old(Fresh(disk.file, codec)) + [e]
    {
      hide RecordsIn, Lawful, AtBoundary;
      ghost var before := disk.file;
      if Lawful(codec) && Whole(before) { FinishedLineAdds(before, e, now, codec); }
      disk.file := AppendTo(disk.file, e, now, codec);
      if readCache.Cache? {
        readCache := Cache(|disk.file.text|, disk.file.mtime, readCache.entries + [e]);
      }
    }

    method ReadAll() returns (entries: seq<Entry>)
      modifies this`readCache
      ensures entries == ReadResult(old(readCache), disk.file, codec) && readCache == CacheAfterRead(old(readCache), disk.file, codec)
      ensures old(Valid()) ==> Valid() && entries == Fresh(disk.file, codec)
    {
      hide RecordsIn, Lawful, AtBoundary;
      if disk.file.NoFile? {
        readCache := NoCache;
        NothingInNoFile(codec);
        return [];
      }
      if Hits(readCache, disk.file) {
        return readCache.entries;
      }
      entries := ReadLines(disk.file.text, codec);
      readCache := Cache(|disk.file.text|, disk.file.mtime, entries);
    }

    method ReadCommitted() returns (entries: seq<Entry>)
      modifies this`readCache
      ensures entries == Committed(ReadResult(old(readCache), disk.file, codec))
      ensures readCache == CacheAfterRead(old(readCache), disk.file, codec)
      ensures old(Valid()) ==> Valid() && entries == Committed(Fresh(disk.file, codec))
    {
      hide RecordsIn, Lawful, AtBoundary;
      var all := ReadAll();
      var last := -1;
      for i := |all| downto 0
        invariant forall j :: i <= j < |all| ==> !Finishes(all[j])
      {
        if Finishes(all[i]) {
          last := i;
          break;
        }
      }
      if last < 0 {
        CommittedEndIs(all, last, 0);
        return [];
      }
      var end := last + 1;
      for i := last + 1 to |all|
        invariant end == i && forall j :: last < j < i ==> IsBookkeeping(all[j])
      {
        if !IsBookkeeping(all[i]) {
          break;
        }
        end := i + 1;
      }
      CommittedEndIs(all, last, end);
      entries := all[..end];
    }
  }

  lemma NothingInNoFile(c: Codec<Entry>)
    ensures RecordsIn("", c) == []
  {
    BlankDecodesToNothing(c);
    assert SplitOn("", '\n') == [""] && [""][..0] == [];
    hide DecodeLine;
    assert DecodeLines([""], c) == DecodeLines([], c) + DecodeLine("", c);
  }

  // ---- Where the cache goes wrong

  function AppendAll(f: File, entries: seq<Entry>, now: int, c: Codec<Entry>): File {
    if entries == [] then f else AppendTo(AppendAll(f, entries[..|entries| - 1], now, c), entries[|entries| - 1], now, c)
  }

  lemma {:induction false} FinishedLinesAdd(f: File, entries: seq<Entry>, now: int, c: Codec<Entry>)
    requires Lawful(c) && Whole(f)
    ensures Fresh(AppendAll(f, entries, now, c), c) == Fresh(f, c) + entries && Whole(AppendAll(f, entries, now, c))
  {
    hide Fresh, Whole, AppendTo, Lawful;
    if entries != [] {
      var front, last := entries[..|entries| - 1], entries[|entries| - 1];
      FinishedLinesAdd(f, front, now, c);
      FinishedLineAdds(AppendAll(f, front, now, c), last, now, c);
      assert entries == front + [last];
    } else {
      assert Fresh(f, c) + entries == Fresh(f, c);
    }
  }

  /**
   One object holds a cache of the file while others append `theirs`. After its own next append it reads what is on
   disk exactly when they appended nothing: its cache takes their entries' size without the entries.
   */
  lemma CacheMissesOtherWriters(f: File, cache: Cache, theirs: seq<Entry>, e: Entry, then0: int, then1: int, c: Codec<Entry>)
    requires Lawful(c) && Whole(f) && Hits(cache, f) && cache.entries == Fresh(f, c)
    ensures var g := AppendTo(AppendAll(f, theirs, then0, c), e, then1, c);
            ReadResult(CacheAfterAppend(cache, g, e), g, c) == Fresh(g, c) <==> theirs == []
  {
    var between := AppendAll(f, theirs, then0, c);
    FinishedLinesAdd(f, theirs, then0, c);
    FinishedLineAdds(between, e, then1, c);
    hide RecordsIn, Lawful, AtBoundary, Fresh;
    var g := AppendTo(between, e, then1, c);
    assert ReadResult(CacheAfterAppend(cache, g, e), g, c) == Fresh(f, c) + [e];
    assert |Fresh(g, c)| == |Fresh(f, c)| + |theirs| + 1;
    if theirs == [] { assert Fresh(f, c) + theirs == Fresh(f, c); }
  }

  /**
   With an unfinished last line `tail` the entry appended next is read back from the file exactly when the tail is
   blank; a cached read shows it in every case.
   */
  lemma TornTailKeepsEntryExactlyWhen(head: string, tail: string, mtime: int, cache: Cache, e: Entry, now: int, c: Codec<Entry>)
    requires Lawful(c) && NothingInFront(c) && AtBoundary(head) && '\n' !in tail
    requires var f := File(head + tail, mtime); Hits(cache, f) && cache.entries == Fresh(f, c)
    ensures var f := File(head + tail, mtime);
            var g := AppendTo(f, e, now, c);
            && ReadResult(CacheAfterAppend(cache, g, e), g, c) == Fresh(f, c) + [e]
            && (Fresh(g, c) == Fresh(f, c) + [e] <==> Trim(tail) == "")
  {
    var text := c.encode(e);
    assert '\n' !in text by { assert OneLine(text); }
    TailDecides(tail, e, c);
    hide RecordsIn, Lawful, NothingInFront, DecodeLine, AtBoundary;
    LinesAfterBoundary(head, tail, c);
    MergedLine(head, tail, text, c);
    SamePrefix(RecordsIn(head, c), DecodeLine(tail + text, c), DecodeLine(tail, c), e);
  }

  lemma TailDecides(tail: string, e: Entry, c: Codec<Entry>)
    requires Lawful(c) && NothingInFront(c)
    ensures DecodeLine(tail + c.encode(e), c) == DecodeLine(tail, c) + [e] <==> Trim(tail) == ""
    ensures Trim(tail) != "" ==> DecodeLine(tail + c.encode(e), c) == []
  {
    var text := c.encode(e);
    assert OneLine(text) && c.decode(text) == Some(e);
    if Trim(tail) == "" {
      BlankInFront(tail, text);
      assert DecodeLine(tail, c) == [] && [] + [e] == [e];
    }
  }

  lemma {:induction false} BlankInFront(blank: string, text: string)
    requires Trim(blank) == "" && text != "" && Trimmed(text)
    ensures Trim(blank + text) == text
  {
    TrimmedIsFixed(text);
    if blank == "" {
      assert blank + text == text;
    } else {
      BlankStarts(blank);
      assert (blank + text)[1..] == blank[1..] + text;
      BlankInFront(blank[1..], text);
    }
  }

  lemma BlankStarts(blank: string)
    requires Trim(blank) == "" && blank != ""
    ensures IsSpace(blank[0]) && Trim(blank[1..]) == ""
  {
    if !IsSpace(blank[0]) { EndKeepsFirst(blank); }
  }

  lemma {:induction false} EndKeepsFirst(s: string)
    requires s != "" && !IsSpace(s[0])
    ensures TrimEnd(s) != ""
  {
    if |s| > 1 { EndKeepsFirst(s[..|s| - 1]); }
  }

  /** A crash that left a whole record without its line feed: the next append loses both entries. */
  lemma LostLineFeedLosesBoth(head: string, a: Entry, b: Entry, mtime: int, now: int, c: Codec<Entry>)
    requires Lawful(c) && NothingInFront(c) && AtBoundary(head)
    ensures var f := File(head + c.encode(a), mtime);
            && Fresh(f, c) == RecordsIn(head, c) + [a]
            && Fresh(AppendTo(f, b, now, c), c) == RecordsIn(head, c)
  {
    var tail := c.encode(a);
    assert OneLine(tail) && OneLine(c.encode(b)) && c.decode(tail) == Some(a);
    TrimmedIsFixed(tail);
    TailDecides(tail, b, c);
    assert DecodeLine(tail, c) == [a];
    hide RecordsIn, Lawful, NothingInFront, DecodeLine, AtBoundary;
    LinesAfterBoundary(head, tail, c);
    MergedLine(head, tail, c.encode(b), c);
    assert RecordsIn(head, c) + [] == RecordsIn(head, c);
  }

  lemma MergedLine(head: string, tail: string, text: string, c: Codec<Entry>)
    requires AtBoundary(head) && '\n' !in tail && '\n' !in text
    ensures RecordsIn(head + tail + (text + "\n"), c) == RecordsIn(head, c) + DecodeLine(tail + text, c)
  {
    LinesAfterBoundary(head, tail + text, c);
    LineFeedAddsNothing(head + (tail + text), c);
    hide *;
    assert head + tail + (text + "\n") == head + (tail + text) + "\n";
  }

  lemma SamePrefix(a: seq<Entry>, b: seq<Entry>, d: seq<Entry>, e: Entry)
    ensures a + b == (a + d) + [e] <==> b == d + [e]
  {
    assert (a + d) + [e] == a + (d + [e]);
    if a + b == a + (d + [e]) {
      assert b == (a + b)[|a|..] == (a + (d + [e]))[|a|..] == d + [e];
    }
  }

  // ---- The laws of the codec

  function KindLetter(k: Kind): char {
    match k
    case UserMessage => 'a'
    case AssistantText => 'b'
    case ToolCall => 'c'
    case ToolResultEntry => 'd'
    case TurnStarted => 'e'
    case TurnCommitted => 'f'
    case TurnAborted => 'g'
    case CompactionBoundary => 'h'
    case CanonicalMessage => 'i'
    case ControlEventEntry => 'j'
  }

  function EntryName(e: Entry): (name: string)
    ensures IsName(name)
  {
    [KindLetter(e.kind)] + StringName(e.json)
  }

  /** Both laws assumed of the codec are met by one. */
  lemma LawfulCodecExists()
    ensures exists c: Codec<Entry> :: Lawful(c) && NothingInFront(c)
  {
    hide StringName;
    forall d, e | EntryName(d) == EntryName(e) ensures d == e {
      SameHead(KindLetter(d.kind), KindLetter(e.kind), StringName(d.json), StringName(e.json));
      assert StringName(d.json) + "" == StringName(e.json) + "";
      StringIsDelimited(d.json, e.json, "", "");
    }
    hide EntryName;
    BracedIsLawful(EntryName);
    hide Lawful, NothingInFront;
    var c := BracedCodec(EntryName);
  }

  // ---- The committed part

  predicate Finishes(e: Entry) {
    e.kind == TurnCommitted || e.kind == TurnAborted
  }

  predicate IsBookkeeping(e: Entry) {
    e.kind == CanonicalMessage || e.kind == CompactionBoundary || e.kind == ControlEventEntry
  }

  /** How many entries are committed, one entry after the other: a bookkeeping entry counts if all before it do. */
  function CommittedEnd(all: seq<Entry>): (end: nat)
    ensures end <= |all|
  {
    if all == [] then 0
    else
      var before := CommittedEnd(all[..|all| - 1]);
      var e := all[|all| - 1];
      if Finishes(e) then |all|
      else if IsBookkeeping(e) && before == |all| - 1 && before > 0 then |all|
      else before
  }

  function Committed(all: seq<Entry>): seq<Entry> {
    all[..CommittedEnd(all)]
  }

  /** The end lies after the last finished turn and the bookkeeping entries right behind it. */
  lemma {:induction false} CommittedEndIs(all: seq<Entry>, last: int, end: nat)
    requires -1 <= last < |all| && (last >= 0 ==> all[last].kind in {TurnCommitted, TurnAborted})
    requires forall j :: last < j < |all| ==> all[j].kind !in {TurnCommitted, TurnAborted}
    requires last < 0 ==> end == 0
    requires last >= 0 ==>
      last < end <= |all| && forall j :: last < j < end ==> all[j].kind in {CanonicalMessage, CompactionBoundary, ControlEventEntry}
    requires last >= 0 && end < |all| ==> all[end].kind !in {CanonicalMessage, CompactionBoundary, ControlEventEntry}
    ensures CommittedEnd(all) == end
    decreases |all|
  {
    if all != [] {
      var n := |all| - 1;
      if last < n {
        CommittedEndIs(all[..n], last, if end <= n then end else n);
      }
    }
  }

  /** What is committed is a prefix, holds every entry up to the last finished turn, and after it bookkeeping entries only. */
  lemma {:induction false} CommittedHolds(all: seq<Entry>, j: nat)
    requires j < |all|
    ensures Finishes(all[j]) ==> j < CommittedEnd(all)
    ensures j < CommittedEnd(all) ==> IsBookkeeping(all[j]) || exists k :: j <= k < |all| && Finishes(all[k])
    ensures CommittedEnd(all) > 0 ==> exists k :: 0 <= k < CommittedEnd(all) && Finishes(all[k])
    decreases |all|
  {
    var n := |all| - 1;
    if n > 0 {
      CommittedHolds(all[..n], if j < n then j else 0);
      if k :| 0 <= k < n && Finishes(all[..n][k]) { assert Finishes(all[k]); }
    }
  }

  /** As entries are appended the committed part only ever grows at its end. */
  lemma {:induction false} CommittedGrows(all: seq<Entry>, more: seq<Entry>)
    ensures Committed(all) <= Committed(all + more)
    decreases |more|
  {
    if more == [] {
      assert all + more == all;
    } else {
      var n := |more| - 1;
      CommittedGrows(all, more[..n]);
      assert (all + more)[..|all + more| - 1] == all + more[..n];
    }
  }
}
