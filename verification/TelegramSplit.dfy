/** The message splitter of src/channels/TelegramPoller.ts, over UTF-16 code units. */
module TelegramSplit {
  import opened Outcomes

  type Unit = u: int | 0 <= u < 0x1_0000

  type Utf16 = seq<Unit>

  const CHUNK_MAX: nat := 3500

  const MIN_CUT: nat := CHUNK_MAX / 2

  predicate IsHigh(u: Unit) { 0xd800 <= u <= 0xdbff }

  predicate IsLow(u: Unit) { 0xdc00 <= u <= 0xdfff }

  /** A cut at `at` would come between the halves of a surrogate pair. */
  predicate SplitsPair(text: Utf16, at: int) {
    0 < at < |text| && IsHigh(text[at - 1]) && IsLow(text[at])
  }

  predicate OccursAt(text: Utf16, part: Utf16, i: int) {
    0 <= i <= |text| - |part| && text[i..i + |part|] == part
  }

  /** `text.lastIndexOf(part)` */
  function LastIndexOf(text: Utf16, part: Utf16): (i: int)
    requires part != []
    ensures i == -1 || OccursAt(text, part, i)
    ensures forall j :: i < j ==> !OccursAt(text, part, j)
  {
    LastIndexFrom(text, part, |text|)
  }

  function LastIndexFrom(text: Utf16, part: Utf16, n: nat): (i: int)
    requires part != []
    ensures i == -1 || OccursAt(text, part, i)
    ensures forall j :: i < j <= n ==> !OccursAt(text, part, j)
  {
    if OccursAt(text, part, n) then n else if n == 0 then -1 else LastIndexFrom(text, part, n - 1)
  }

  /** Paragraph, line, sentence and word ends, in this order of preference. */
  const SEPARATORS: seq<Utf16> := [[10, 10], [10], [46, 32], [32]]

  /** Separator `s` occurs late enough to cut after it. */
  predicate Usable(text: Utf16, s: nat)
    requires s < |SEPARATORS|
  {
    LastIndexOf(text, SEPARATORS[s]) >= MIN_CUT
  }

  method SafeSliceUtf16(text: Utf16, max: nat) returns (slice: Utf16)
    requires |text| > max > 0
    ensures |slice| == if IsHigh(text[max - 1]) then max - 1 else max
    ensures slice == text[..|slice|] && !SplitsPair(text, |slice|)
  {
    slice := text[..max];
    if IsHigh(slice[|slice| - 1]) {
      slice := slice[..|slice| - 1];
    }
  }

  /** The end of the last occurrence of the first usable separator. */
  method FindReadableCut(text: Utf16) returns (cut: Option<nat>)
    ensures cut.Some? ==> exists s :: 0 <= s < |SEPARATORS| && Usable(text, s) && (forall j :: 0 <= j < s ==> !Usable(text, j))
                                  && cut.value == LastIndexOf(text, SEPARATORS[s]) + |SEPARATORS[s]|
    ensures cut.None? ==> forall j :: 0 <= j < |SEPARATORS| ==> !Usable(text, j)
  {
    for s := 0 to |SEPARATORS|
      invariant forall j :: 0 <= j < s ==> !Usable(text, j)
    {
      var index := LastIndexOf(text, SEPARATORS[s]);
      if index >= MIN_CUT {
        return Some(index + |SEPARATORS[s]|);
      }
    }
    cut := None;
  }

  /** The chunks put together again. */
  function Concat(chunks: seq<Utf16>): Utf16 {
    if chunks == [] then [] else Concat(chunks[..|chunks| - 1]) + chunks[|chunks| - 1]
  }

  /** The longest slice that a chunk may be, without half a pair at its end. */
  function HardLength(text: Utf16): nat
    requires |text| > CHUNK_MAX
  {
    if IsHigh(text[CHUNK_MAX - 1]) then CHUNK_MAX - 1 else CHUNK_MAX
  }

  /** Where a text too long for one chunk is cut: after the best separator in reach, else at the hard length. */
  ghost predicate GoodCut(text: Utf16, cut: nat)
    requires |text| > CHUNK_MAX
  {
    var hard := text[..HardLength(text)];
    if forall j :: 0 <= j < |SEPARATORS| ==> !Usable(hard, j) then cut == |hard|
    else exists s :: 0 <= s < |SEPARATORS| && Usable(hard, s) && (forall j :: 0 <= j < s ==> !Usable(hard, j))
                  && cut == LastIndexOf(hard, SEPARATORS[s]) + |SEPARATORS[s]|
  }

  lemma AfterSeparator(hard: Utf16, s: nat)
    requires s < |SEPARATORS| && Usable(hard, s)
    ensures var cut := LastIndexOf(hard, SEPARATORS[s]) + |SEPARATORS[s]|;
            MIN_CUT + 1 <= cut <= |hard| && !IsHigh(hard[cut - 1])
  {
    var i := LastIndexOf(hard, SEPARATORS[s]);
    assert OccursAt(hard, SEPARATORS[s], i);
    LastUnit(hard, SEPARATORS[s], i);
    assert !IsHigh(SEPARATORS[s][|SEPARATORS[s]| - 1]);
  }

  lemma LastUnit(text: Utf16, part: Utf16, i: int)
    requires part != [] && OccursAt(text, part, i)
    ensures text[i + |part| - 1] == part[|part| - 1]
  {
    assert text[i..i + |part|][|part| - 1] == part[|part| - 1];
  }

  /** A cut leaves at least 1751 units before it and one after it, and never splits a surrogate pair. */
  lemma GoodCutIsSafe(text: Utf16, cut: nat)
    requires |text| > CHUNK_MAX && GoodCut(text, cut)
    ensures 1751 <= cut <= CHUNK_MAX && cut < |text| && !SplitsPair(text, cut)
  {
    hide Usable, IsHigh;
    var hard := text[..HardLength(text)];
    if s :| 0 <= s < |SEPARATORS| && Usable(hard, s) && cut == LastIndexOf(hard, SEPARATORS[s]) + |SEPARATORS[s]| {
      AfterSeparator(hard, s);
      assert text[cut - 1] == hard[cut - 1];
    } else {
      HardLengthIsSafe(text);
    }
  }

  lemma HardLengthIsSafe(text: Utf16)
    requires |text| > CHUNK_MAX
    ensures !SplitsPair(text, HardLength(text))
  {
  }

  /** The text has been cut into these chunks and the rest, each cut good for the text that was left then. */
  ghost predicate CutInto(text: Utf16, chunks: seq<Utf16>, rest: Utf16)
    decreases |chunks|
  {
    if chunks == [] then rest == text
    else
      var n := |chunks| - 1;
      var left := chunks[n] + rest;
      |left| > CHUNK_MAX && GoodCut(left, |chunks[n]|) && CutInto(text, chunks[..n], left)
  }

  ghost predicate IsSplit(text: Utf16, chunks: seq<Utf16>) {
    && chunks != []
    && |chunks[|chunks| - 1]| <= CHUNK_MAX
    && CutInto(text, chunks[..|chunks| - 1], chunks[|chunks| - 1])
  }

  method SplitTelegramText(text: Utf16) returns (chunks: seq<Utf16>)
    ensures IsSplit(text, chunks)
  {
    hide GoodCut;
    if |text| <= CHUNK_MAX {
      assert [text][..0] == [];
      return [text];
    }
    chunks := [];
    var remaining := text;
    while |remaining| > CHUNK_MAX
      invariant CutInto(text, chunks, remaining)
      decreases |remaining|
    {
      var slice := SafeSliceUtf16(remaining, CHUNK_MAX);
      var readable := FindReadableCut(slice);
      var cut := if readable.Some? then readable.value else |slice|;
      assert GoodCut(remaining, cut) by { CutIsGood(remaining, slice, readable, cut); }
      GoodCutIsSafe(remaining, cut);
      assert remaining[..cut] + remaining[cut..] == remaining;
      assert (chunks + [remaining[..cut]])[..|chunks|] == chunks;
      chunks := chunks + [remaining[..cut]];
      remaining := remaining[cut..];
    }
    assert (chunks + [remaining])[..|chunks|] == chunks;
    chunks := chunks + [remaining];
  }

  lemma CutIsGood(text: Utf16, slice: Utf16, readable: Option<nat>, cut: nat)
    requires |text| > CHUNK_MAX && slice == text[..HardLength(text)]
    requires readable.Some? ==> exists s :: 0 <= s < |SEPARATORS| && Usable(slice, s) && (forall j :: 0 <= j < s ==> !Usable(slice, j))
                                  && readable.value == LastIndexOf(slice, SEPARATORS[s]) + |SEPARATORS[s]|
    requires readable.None? ==> forall j :: 0 <= j < |SEPARATORS| ==> !Usable(slice, j)
    requires cut == if readable.Some? then readable.value else |slice|
    ensures GoodCut(text, cut)
  {
    hide Usable, LastIndexOf;
  }

  // ---- What a split means

  lemma {:induction false} CutsConcat(text: Utf16, chunks: seq<Utf16>, rest: Utf16)
    requires CutInto(text, chunks, rest)
    ensures Concat(chunks) + rest == text
    decreases |chunks|
  {
    if chunks != [] {
      hide GoodCut, Concat;
      var n := |chunks| - 1;
      CutsConcat(text, chunks[..n], chunks[n] + rest);
      ConcatUnfolds(chunks);
      Associative(Concat(chunks[..n]), chunks[n], rest);
    } else {
      ConcatOfNone();
    }
  }

  lemma Associative(a: Utf16, b: Utf16, c: Utf16)
    ensures a + (b + c) == (a + b) + c
  {
  }

  lemma ConcatOfNone()
    ensures Concat([]) == []
  {
  }

  lemma ConcatUnfolds(chunks: seq<Utf16>)
    requires chunks != []
    ensures Concat(chunks) == Concat(chunks[..|chunks| - 1]) + chunks[|chunks| - 1]
  {
  }

  /** The last chunk before a rest: where it is cut. */
  lemma LastCutIsSafe(text: Utf16, chunks: seq<Utf16>, rest: Utf16)
    requires CutInto(text, chunks, rest) && chunks != []
    ensures var last := chunks[|chunks| - 1];
            1751 <= |last| <= CHUNK_MAX && rest != [] && !SplitsPair(text, |text| - |rest|)
  {
    hide GoodCut, SplitsPair, Concat;
    var n := |chunks| - 1;
    var left := chunks[n] + rest;
    GoodCutIsSafe(left, |chunks[n]|);
    CutsConcat(text, chunks[..n], left);
    PairsOfSuffix(text, Concat(chunks[..n]), left, |chunks[n]|);
  }

  lemma CutsBeforeLast(text: Utf16, chunks: seq<Utf16>, rest: Utf16)
    requires CutInto(text, chunks, rest) && chunks != []
    ensures CutInto(text, chunks[..|chunks| - 1], chunks[|chunks| - 1] + rest)
  {
    hide GoodCut;
  }

  /** The chunks before a rest are each 1751 to 3500 units long. */
  lemma {:induction false} CutsAreLong(text: Utf16, chunks: seq<Utf16>, rest: Utf16, k: nat)
    requires CutInto(text, chunks, rest) && k < |chunks|
    ensures 1751 <= |chunks[k]| <= CHUNK_MAX
    decreases |chunks|
  {
    hide CutInto, SplitsPair, Concat;
    var n := |chunks| - 1;
    if k == n {
      LastCutIsSafe(text, chunks, rest);
    } else {
      CutsBeforeLast(text, chunks, rest);
      CutsAreLong(text, chunks[..n], chunks[n] + rest, k);
    }
  }

  lemma {:induction false} CutsAreFew(text: Utf16, chunks: seq<Utf16>, rest: Utf16)
    requires CutInto(text, chunks, rest)
    ensures 1751 * |chunks| + |rest| <= |text|
    decreases |chunks|
  {
    if chunks == [] {
      assert rest == text;
    } else {
      hide CutInto, SplitsPair, Concat;
      var n := |chunks| - 1;
      LastCutIsSafe(text, chunks, rest);
      CutsBeforeLast(text, chunks, rest);
      CutsAreFew(text, chunks[..n], chunks[n] + rest);
    }
  }

  lemma PairsOfSuffix(text: Utf16, front: Utf16, left: Utf16, cut: nat)
    requires text == front + left && 0 < cut < |left| && !SplitsPair(left, cut)
    ensures !SplitsPair(text, |front| + cut)
  {
  }

  /** A prefix of the chunks is a cut of its own. */
  lemma {:induction false} CutsBefore(text: Utf16, chunks: seq<Utf16>, rest: Utf16, k: nat) returns (left: Utf16)
    requires CutInto(text, chunks, rest) && k <= |chunks|
    ensures CutInto(text, chunks[..k], left)
    decreases |chunks|
  {
    hide GoodCut;
    if k == |chunks| {
      left := rest;
      assert chunks[..k] == chunks;
    } else {
      var n := |chunks| - 1;
      left := CutsBefore(text, chunks[..n], chunks[n] + rest, k);
      assert chunks[..n][..k] == chunks[..k];
    }
  }

  /**
   The chunks put together are the text; each has at most 3500 units, each but the last at least 1751, none is empty
   unless the text is; no cut splits a surrogate pair; and there is at most one chunk per 1751 units, and one more.
   */
  lemma SplitKeepsText(text: Utf16, chunks: seq<Utf16>)
    requires IsSplit(text, chunks)
    ensures Concat(chunks) == text
    ensures forall k :: 0 <= k < |chunks| ==> |chunks[k]| <= 3500 && (text != [] ==> chunks[k] != [])
    ensures forall k :: 0 <= k < |chunks| - 1 ==> |chunks[k]| >= 1751
    ensures 1751 * (|chunks| - 1) <= |text|
    ensures forall k :: 0 < k < |chunks| ==> !SplitsPair(text, |Concat(chunks[..k])|)
  {
    hide CutInto, SplitsPair, Concat;
    var n := |chunks| - 1;
    CutsConcat(text, chunks[..n], chunks[n]);
    CutsAreFew(text, chunks[..n], chunks[n]);
    forall k | 0 <= k < n ensures 1751 <= |chunks[k]| <= CHUNK_MAX {
      CutsAreLong(text, chunks[..n], chunks[n], k);
    }
    if n > 0 {
      LastCutIsSafe(text, chunks[..n], chunks[n]);
    } else {
      ConcatOfNone();
    }
    ConcatUnfolds(chunks);
    forall k | 0 < k < |chunks| ensures !SplitsPair(text, |Concat(chunks[..k])|) {
      assert chunks[..n][..k] == chunks[..k];
      var left := CutsBefore(text, chunks[..n], chunks[n], k);
      CutsConcat(text, chunks[..k], left);
      LastCutIsSafe(text, chunks[..k], left);
    }
  }

  lemma OneGoodCut(text: Utf16, a: nat, b: nat)
    requires |text| > CHUNK_MAX && GoodCut(text, a) && GoodCut(text, b)
    ensures a == b
  {
    hide Usable, LastIndexOf;
  }

  /** The first cut is good for the whole text, and the rest of the chunks cut what it leaves. */
  lemma {:induction false} FirstCut(text: Utf16, chunks: seq<Utf16>, rest: Utf16)
    requires CutInto(text, chunks, rest) && chunks != []
    ensures |text| > CHUNK_MAX && GoodCut(text, |chunks[0]|) && |chunks[0]| <= |text| && chunks[0] == text[..|chunks[0]|]
    ensures CutInto(text[|chunks[0]|..], chunks[1..], rest)
    decreases |chunks|
  {
    hide GoodCut;
    var n := |chunks| - 1;
    var left := chunks[n] + rest;
    if n == 0 {
      assert text == left && text[|chunks[0]|..] == rest;
    } else {
      FirstCut(text, chunks[..n], left);
      assert chunks[..n][1..] == chunks[1..][..n - 1];
    }
  }

  /** A text has one split only. */
  lemma {:induction false} SplitIsUnique(text: Utf16, a: seq<Utf16>, b: seq<Utf16>)
    requires IsSplit(text, a) && IsSplit(text, b)
    ensures a == b
    decreases |a|
  {
    hide GoodCut, CutInto;
    if |text| <= CHUNK_MAX {
      ShortIsWhole(text, a);
      ShortIsWhole(text, b);
    } else {
      LongIsCut(text, a);
      LongIsCut(text, b);
      OneGoodCut(text, |a[0]|, |b[0]|);
      SplitIsUnique(text[|a[0]|..], a[1..], b[1..]);
      assert a == [a[0]] + a[1..] && b == [b[0]] + b[1..];
    }
  }

  lemma ShortIsWhole(text: Utf16, chunks: seq<Utf16>)
    requires IsSplit(text, chunks) && |text| <= CHUNK_MAX
    ensures chunks == [text]
  {
    hide CutInto;
    var n := |chunks| - 1;
    if n > 0 {
      FirstCut(text, chunks[..n], chunks[n]);
    } else {
      CutsConcat(text, chunks[..n], chunks[n]);
      assert chunks[..n] == [];
      ConcatOfNone();
      assert [] + chunks[n] == chunks[n];
    }
  }

  lemma LongIsCut(text: Utf16, chunks: seq<Utf16>)
    requires IsSplit(text, chunks) && |text| > CHUNK_MAX
    ensures |chunks| > 1 && GoodCut(text, |chunks[0]|) && |chunks[0]| <= |text| && chunks[0] == text[..|chunks[0]|]
    ensures IsSplit(text[|chunks[0]|..], chunks[1..])
  {
    hide CutInto, GoodCut;
    var n := |chunks| - 1;
    if n == 0 {
      CutsConcat(text, chunks[..n], chunks[n]);
    } else {
      FirstCut(text, chunks[..n], chunks[n]);
      assert chunks[..n][1..] == chunks[1..][..n - 1];
      assert chunks[1..][n - 1] == chunks[n];
    }
  }

  // ---- Where a cut is, in the units of the text

  /** `part` occurs at 1750 or later. */
  ghost predicate OccursLate(hard: Utf16, part: Utf16) {
    exists i :: i >= 1750 && OccursAt(hard, part, i)
  }

  /** `cut` is the end of its last occurrence there. */
  ghost predicate CutsAfter(hard: Utf16, part: Utf16, cut: nat) {
    cut >= 1750 + |part| && OccursAt(hard, part, cut - |part|) && forall i :: i > cut - |part| ==> !OccursAt(hard, part, i)
  }

  lemma UsableMeans(hard: Utf16, s: nat)
    requires s < |SEPARATORS|
    ensures Usable(hard, s) <==> OccursLate(hard, SEPARATORS[s])
    ensures Usable(hard, s) ==> CutsAfter(hard, SEPARATORS[s], LastIndexOf(hard, SEPARATORS[s]) + |SEPARATORS[s]|)
  {
    hide LastIndexOf, OccursAt;
    assert Usable(hard, s) ==> OccursAt(hard, SEPARATORS[s], LastIndexOf(hard, SEPARATORS[s]));
  }

  /** A long text is cut after its last paragraph end in reach, else line end, sentence end or space, else at the hard length. */
  lemma CutMeans(text: Utf16, cut: nat)
    requires |text| > 3500 && GoodCut(text, cut)
    ensures var hard := text[..if 0xd800 <= text[3499] <= 0xdbff then 3499 else 3500];
            if OccursLate(hard, [10, 10]) then CutsAfter(hard, [10, 10], cut)
            else if OccursLate(hard, [10]) then CutsAfter(hard, [10], cut)
            else if OccursLate(hard, [46, 32]) then CutsAfter(hard, [46, 32], cut)
            else if OccursLate(hard, [32]) then CutsAfter(hard, [32], cut)
            else cut == |hard|
  {
    hide Usable, OccursLate, CutsAfter, LastIndexOf;
    var hard := text[..HardLength(text)];
    UsableMeans(hard, 0);
    UsableMeans(hard, 1);
    UsableMeans(hard, 2);
    UsableMeans(hard, 3);
  }
}
