/**
 What the expressions of src/cron/cronParser.ts mean, said without its parser: comma lists of `*`, `*` with a step,
 ranges and numbers, between white space, and the shorthands.
 */
module CronGrammar {
  import opened Outcomes
  import opened Text
  import opened CronParser

  // ---- One piece

  datatype Item = All | EveryNth(n: nat) | Range(from: nat, to: nat) | One(n: nat)

  function ItemText(item: Item): string {
    match item
    case All => "*"
    case EveryNth(n) => "*/" + Decimal(n)
    case Range(a, b) => Decimal(a) + "-" + Decimal(b)
    case One(n) => Decimal(n)
  }

  predicate Good(item: Item, lo: int, hi: int) {
    match item
    case All => true
    case EveryNth(n) => n > 0
    case Range(a, b) => lo <= a <= b <= hi
    case One(n) => lo <= n <= hi
  }

  /** The values between `lo` and `hi` that a good item stands for. */
  predicate Denotes(item: Item, v: int, lo: int, hi: int)
    requires Good(item, lo, hi)
  {
    lo <= v <= hi &&
    match item
    case All => true
    case EveryNth(n) => (v - lo) % n == 0
    case Range(a, b) => a <= v <= b
    case One(n) => v == n
  }

  function Complaint(item: Item): CronError {
    match item
    case EveryNth(_) => BadStep(ItemText(item))
    case Range(_, _) => BadRange(ItemText(item))
    case _ => BadValue(ItemText(item))
  }

  lemma DigitsHave(n: nat, c: char)
    requires !IsDigit(c)
    ensures c !in Decimal(n)
  {
    hide Decimal;
    var s := Decimal(n);
    forall i | 0 <= i < |s| ensures s[i] != c {
      assert IsDigit(s[i]);
    }
  }

  lemma RangeSplits(a: nat, b: nat)
    ensures SplitOn(Decimal(a) + "-" + Decimal(b), '-') == [Decimal(a), Decimal(b)]
  {
    hide Decimal, SplitOn;
    DigitsHave(a, '-');
    DigitsHave(b, '-');
    var parts := [Decimal(a), Decimal(b)];
    assert Join(parts, '-') == Decimal(a) + "-" + Decimal(b) by { assert parts[1..] == [Decimal(b)]; }
    JoinSplit(parts, '-');
  }

  lemma StarStarts(n: nat)
    ensures StartsWith("*/" + Decimal(n), "*/") && ("*/" + Decimal(n))[2..] == Decimal(n) && "*/" + Decimal(n) != "*"
  {
    hide Decimal;
  }

  lemma DigitStarts(n: nat, rest: string)
    ensures Decimal(n) + rest != "*" && !StartsWith(Decimal(n) + rest, "*/")
  {
    hide Decimal;
    assert IsDigit(Decimal(n)[0]);
    assert (Decimal(n) + rest)[0] == Decimal(n)[0];
  }

  lemma RangeReads(a: nat, b: nat, lo: int, hi: int)
    ensures ReadPiece(ItemText(Range(a, b)), lo, hi)
         == if lo <= a <= b <= hi then Span(a, b) else Bad(BadRange(ItemText(Range(a, b))))
  {
    hide Decimal, SplitOn, ParseInt;
    var text := ItemText(Range(a, b));
    RangeSplits(a, b);
    DigitStarts(a, "-" + Decimal(b));
    assert Decimal(a) + ("-" + Decimal(b)) == text;
    assert text[|Decimal(a)|] == '-';
    ParseDecimal(a);
    ParseDecimal(b);
  }

  lemma NumberReads(n: nat, lo: int, hi: int)
    ensures ReadPiece(ItemText(One(n)), lo, hi) == if lo <= n <= hi then Single(n) else Bad(BadValue(ItemText(One(n))))
  {
    hide Decimal, SplitOn, ParseInt;
    DigitStarts(n, "");
    assert Decimal(n) + "" == Decimal(n);
    DigitsHave(n, '-');
    ParseDecimal(n);
  }

  lemma StepReads(n: nat, lo: int, hi: int)
    ensures ReadPiece(ItemText(EveryNth(n)), lo, hi) == if n > 0 then Step(n) else Bad(BadStep(ItemText(EveryNth(n))))
  {
    hide Decimal, SplitOn, ParseInt;
    StarStarts(n);
    ParseDecimal(n);
  }

  /** A piece selects what its item denotes, or is refused with its own complaint. */
  lemma ItemReads(item: Item, lo: int, hi: int)
    ensures var p := ReadPiece(ItemText(item), lo, hi);
            if Good(item, lo, hi) then !p.Bad? && forall v :: Selects(p, v, lo, hi) <==> Denotes(item, v, lo, hi)
            else p == Bad(Complaint(item))
  {
    hide Decimal;
    match item {
      case All =>
      case EveryNth(n) => StepReads(n, lo, hi);
      case Range(a, b) => RangeReads(a, b, lo, hi);
      case One(n) => NumberReads(n, lo, hi);
    }
  }

  // ---- A field

  function Texts(items: seq<Item>): (texts: seq<string>)
    ensures |texts| == |items| && forall i :: 0 <= i < |items| ==> texts[i] == ItemText(items[i])
  {
    seq(|items|, i requires 0 <= i < |items| => ItemText(items[i]))
  }

  function ListText(items: seq<Item>): string
    requires items != []
  {
    Join(Texts(items), ',')
  }

  predicate AllGood(items: seq<Item>, lo: int, hi: int) {
    forall i :: 0 <= i < |items| ==> Good(items[i], lo, hi)
  }

  predicate Denoted(items: seq<Item>, v: int, lo: int, hi: int)
    requires AllGood(items, lo, hi)
  {
    exists i :: 0 <= i < |items| && Denotes(items[i], v, lo, hi)
  }

  /** The union of what the items denote. */
  function Union(items: seq<Item>, lo: int, hi: int): set<int>
    requires AllGood(items, lo, hi)
  {
    set v | lo <= v <= hi && Denoted(items, v, lo, hi)
  }

  lemma NoComma(item: Item)
    ensures ',' !in ItemText(item)
  {
    hide Decimal;
    match item {
      case All =>
      case EveryNth(n) => DigitsHave(n, ',');
      case Range(a, b) => DigitsHave(a, ','); DigitsHave(b, ',');
      case One(n) => DigitsHave(n, ',');
    }
  }

  lemma ListSplits(items: seq<Item>)
    requires items != []
    ensures SplitOn(ListText(items), ',') == Texts(items)
  {
    hide SplitOn, Join, ItemText;
    forall i | 0 <= i < |items| ensures ',' !in Texts(items)[i] { NoComma(items[i]); }
    JoinSplit(Texts(items), ',');
  }

  /** A list of good items means their union. */
  lemma ListMeans(items: seq<Item>, lo: int, hi: int)
    requires items != [] && AllGood(items, lo, hi)
    ensures FieldMeaning(ListText(items), lo, hi) == Ok(Union(items, lo, hi))
  {
    hide SplitOn, Join, ItemText, ReadPiece, Selects, Denotes, Good;
    var texts := Texts(items);
    ListSplits(items);
    forall i | 0 <= i < |items|
      ensures !ReadPiece(texts[i], lo, hi).Bad? && forall v :: Selects(ReadPiece(texts[i], lo, hi), v, lo, hi) <==> Denotes(items[i], v, lo, hi)
    {
      ItemReads(items[i], lo, hi);
    }
    assert CronParser.AllGood(texts, lo, hi);
    forall v ensures Selected(texts, v, lo, hi) <==> Denoted(items, v, lo, hi) {
      if i :| 0 <= i < |items| && Denotes(items[i], v, lo, hi) {
        assert Selects(ReadPiece(texts[i], lo, hi), v, lo, hi);
      }
    }
    assert ListMeaning(texts, lo, hi).value == Union(items, lo, hi);
  }

  /** A list with a bad item is refused with the complaint of the first one. */
  lemma BadListMeans(items: seq<Item>, lo: int, hi: int, k: nat)
    requires k < |items| && !Good(items[k], lo, hi) && forall i :: 0 <= i < k ==> Good(items[i], lo, hi)
    ensures FieldMeaning(ListText(items), lo, hi) == Err(Complaint(items[k]))
  {
    hide SplitOn, Join, ItemText, ReadPiece, Selects, Denotes, Good;
    ListSplits(items);
    forall i | 0 <= i <= k ensures ReadPiece(Texts(items)[i], lo, hi).Bad? <==> i == k {
      ItemReads(items[i], lo, hi);
    }
    ItemReads(items[k], lo, hi);
    FirstErrorAt(Texts(items), lo, hi, k);
  }

  // ---- An expression

  /** Characters of lists; none is white space, a capital, or the start of a shorthand or an inherited name. */
  predicate ListCharacter(c: char) {
    IsDigit(c) || c == ',' || c == '*' || c == '/' || c == '-'
  }

  predicate ListWord(s: string) {
    s != [] && forall i :: 0 <= i < |s| ==> ListCharacter(s[i])
  }

  lemma ItemIsWord(item: Item)
    ensures ListWord(ItemText(item))
  {
    hide Decimal;
  }

  lemma {:induction false} JoinIsWord(parts: seq<string>)
    requires |parts| >= 1 && forall i :: 0 <= i < |parts| ==> ListWord(parts[i])
    ensures ListWord(Join(parts, ','))
  {
    if |parts| > 1 { JoinIsWord(parts[1..]); }
  }

  lemma ListIsWord(items: seq<Item>)
    requires items != []
    ensures ListWord(ListText(items))
  {
    hide ItemText, ListWord;
    forall i | 0 <= i < |items| ensures ListWord(Texts(items)[i]) { ItemIsWord(items[i]); }
    JoinIsWord(Texts(items));
  }

  lemma SpacesSplit(w: string, sp: string, rest: string)
    requires ListWord(w) && Spaces(sp) && sp != [] && rest != [] && !IsSpace(rest[0])
    ensures SplitSpaces(w + (sp + rest)) == [w] + SplitSpaces(rest)
  {
    var s := w + (sp + rest);
    assert Word(w) by { ListWordIsWord(w); }
    hide WordLength, SplitSpaces, ListWord, Word;
    WordLengthIs(w, sp + rest);
    SplitAfterWord(s);
    assert s[|w|..] == sp + rest && s[..|w|] == w;
    TrimStartDrops(sp, rest);
  }

  lemma ListWordIsWord(w: string)
    requires ListWord(w)
    ensures Word(w) && !IsSpace(w[0]) && !IsSpace(w[|w| - 1])
  {
  }

  /** Words with gaps between them. */
  function Spread(w: seq<string>, gap: seq<string>): string
    requires |w| >= 1 && |gap| == |w| - 1
  {
    if |w| == 1 then w[0] else w[0] + (gap[0] + Spread(w[1..], gap[1..]))
  }

  ghost predicate Spreads(w: seq<string>, gap: seq<string>) {
    && |w| >= 1 && |gap| == |w| - 1
    && (forall i :: 0 <= i < |w| ==> ListWord(w[i])) && forall i :: 0 <= i < |gap| ==> gap[i] != [] && Spaces(gap[i])
  }

  predicate Lower(s: string) {
    forall i :: 0 <= i < |s| ==> !('A' <= s[i] <= 'Z')
  }

  lemma LowerConcat(a: string, b: string)
    requires Lower(a) && Lower(b)
    ensures Lower(a + b)
  {
  }

  lemma LowerIsKept(s: string)
    requires Lower(s)
    ensures LowerCase(s) == s
  {
  }

  lemma WordIsLower(w: string)
    requires ListWord(w)
    ensures Lower(w)
  {
  }

  lemma SpacesAreLower(s: string)
    requires Spaces(s)
    ensures Lower(s)
  {
  }

  lemma EndsOf(w: string, middle: string, rest: string)
    requires w != [] && rest != []
    ensures var s := w + (middle + rest); s != [] && s[0] == w[0] && s[|s| - 1] == rest[|rest| - 1]
  {
  }

  lemma {:induction false} SpreadSplits(w: seq<string>, gap: seq<string>)
    requires Spreads(w, gap)
    ensures var s := Spread(w, gap);
            && SplitSpaces(s) == w && Lower(s)
            && s != [] && s[0] == w[0][0] && s[|s| - 1] == w[|w| - 1][|w[|w| - 1]| - 1]
  {
    hide SplitSpaces, Spaces, IsSpace, Lower;
    ListWordIsWord(w[0]);
    WordIsLower(w[0]);
    if |w| == 1 {
      LastWord(w[0]);
    } else {
      var rest := Spread(w[1..], gap[1..]);
      SpreadSplits(w[1..], gap[1..]);
      ListWordIsWord(w[1]);
      SpacesAreLower(gap[0]);
      hide ListWord;
      SpacesSplit(w[0], gap[0], rest);
      LowerConcat(gap[0], rest);
      LowerConcat(w[0], gap[0] + rest);
      EndsOf(w[0], gap[0], rest);
    }
  }

  lemma NoShorthand(s: string)
    requires s != [] && ListCharacter(s[0])
    ensures Shorthand(s) == s && !Inherited(s)
  {
  }

  /** White space around an expression and between its words does not matter. */
  lemma SpreadParts(before: string, w: seq<string>, gap: seq<string>, after: string)
    requires Spaces(before) && Spaces(after) && Spreads(w, gap)
    ensures Parts(before + Spread(w, gap) + after) == w && !Inherited(Raw(before + Spread(w, gap) + after))
  {
    var s := Spread(w, gap);
    SpreadSplits(w, gap);
    assert ListCharacter(w[0][0]);
    ListWordIsWord(w[0]);
    ListWordIsWord(w[|w| - 1]);
    LowerIsKept(s);
    NoShorthand(s);
    hide Spread, IsSpace, ListWord, SplitSpaces, Spaces, Shorthand, Inherited, Trim, Lower;
    TrimDrops(before, s, after);
  }

  // ---- What an expression means

  const LO: seq<int> := [0, 0, 1, 1, 0]
  const HI: seq<int> := [59, 23, 31, 12, 6]

  function ListTexts(lists: seq<seq<Item>>): (texts: seq<string>)
    requires forall i :: 0 <= i < |lists| ==> lists[i] != []
    ensures |texts| == |lists| && forall i :: 0 <= i < |lists| ==> texts[i] == ListText(lists[i])
  {
    seq(|lists|, i requires 0 <= i < |lists| => ListText(lists[i]))
  }

  /** Words that are lists, with white space around and between them. */
  ghost predicate Expression(before: string, lists: seq<seq<Item>>, gap: seq<string>, after: string) {
    && Spaces(before) && Spaces(after) && |lists| >= 1 && |gap| == |lists| - 1
    && (forall i :: 0 <= i < |lists| ==> lists[i] != []) && forall i :: 0 <= i < |gap| ==> gap[i] != [] && Spaces(gap[i])
  }

  lemma ListsSpread(before: string, lists: seq<seq<Item>>, gap: seq<string>, after: string)
    requires Expression(before, lists, gap, after)
    ensures var text := before + Spread(ListTexts(lists), gap) + after; Parts(text) == ListTexts(lists) && !Inherited(Raw(text))
  {
    hide ListText, ListWord, Spread, Parts, Raw, Inherited, Spaces;
    forall i | 0 <= i < |lists| ensures ListWord(ListTexts(lists)[i]) { ListIsWord(lists[i]); }
    SpreadParts(before, ListTexts(lists), gap, after);
  }

  /** An expression of five lists of good items has the five unions as its fields. */
  lemma ExpressionMeans(before: string, lists: seq<seq<Item>>, gap: seq<string>, after: string)
    requires Expression(before, lists, gap, after) && |lists| == 5
    requires forall i :: 0 <= i < 5 ==> AllGood(lists[i], LO[i], HI[i])
    ensures CronMeaning(before + Spread(ListTexts(lists), gap) + after)
         == Ok(CronFields(Union(lists[0], 0, 59), Union(lists[1], 0, 23), Union(lists[2], 1, 31), Union(lists[3], 1, 12), Union(lists[4], 0, 6)))
  {
    hide ListText, AllGood, Union, FieldMeaning, Parts, Raw, Inherited, Spread;
    ListsSpread(before, lists, gap, after);
    ListMeans(lists[0], 0, 59);
    ListMeans(lists[1], 0, 23);
    ListMeans(lists[2], 1, 31);
    ListMeans(lists[3], 1, 12);
    ListMeans(lists[4], 0, 6);
  }

  /** With a bad item it is refused, and the first bad item of the first bad list says why. */
  lemma ExpressionIsRefused(before: string, lists: seq<seq<Item>>, gap: seq<string>, after: string, k: nat, j: nat)
    requires Expression(before, lists, gap, after) && |lists| == 5 && k < 5 && j < |lists[k]|
    requires forall i :: 0 <= i < k ==> AllGood(lists[i], LO[i], HI[i])
    requires !Good(lists[k][j], LO[k], HI[k]) && forall i :: 0 <= i < j ==> Good(lists[k][i], LO[k], HI[k])
    ensures CronMeaning(before + Spread(ListTexts(lists), gap) + after) == Err(Complaint(lists[k][j]))
  {
    hide ListText, AllGood, Union, FieldMeaning, Parts, Raw, Inherited, Spread, Good, Complaint;
    ListsSpread(before, lists, gap, after);
    BadListMeans(lists[k], LO[k], HI[k], j);
    if k > 0 { ListMeans(lists[0], 0, 59); }
    if k > 1 { ListMeans(lists[1], 0, 23); }
    if k > 2 { ListMeans(lists[2], 1, 31); }
    if k > 3 { ListMeans(lists[3], 1, 12); }
  }

  /** With any other number of lists it is refused for that. */
  lemma CountIsRefused(before: string, lists: seq<seq<Item>>, gap: seq<string>, after: string)
    requires Expression(before, lists, gap, after) && |lists| != 5
    ensures CronMeaning(before + Spread(ListTexts(lists), gap) + after) == Err(FieldCount(|lists|))
  {
    hide ListText, FieldMeaning, Parts, Raw, Inherited, Spread;
    ListsSpread(before, lists, gap, after);
  }

  // ---- Shorthands

  /** `s` is `name` but for capitals. */
  predicate SameButCase(s: string, name: string) {
    |s| == |name| && forall i :: 0 <= i < |s| ==> s[i] == name[i] || ('A' <= s[i] <= 'Z' && s[i] as int + 32 == name[i] as int)
  }

  lemma NameIsRead(before: string, s: string, after: string, name: string)
    requires Spaces(before) && Spaces(after) && SameButCase(s, name) && name != [] && Lower(name) && Trimmed(s)
    ensures Raw(before + s + after) == name
  {
    hide Spaces, Trim, Trimmed, IsSpace;
    TrimDrops(before, s, after);
    assert LowerCase(s) == name;
  }

  ghost predicate IsWhole(s: set<int>, lo: int, hi: int) {
    forall v :: v in s <==> lo <= v <= hi
  }

  lemma StarIsWhole(lo: int, hi: int)
    ensures FieldMeaning("*", lo, hi).Ok? && IsWhole(FieldMeaning("*", lo, hi).value, lo, hi)
  {
    ListMeans([All], lo, hi);
    assert Texts([All]) == ["*"];
    assert Union([All], lo, hi) == FieldMeaning("*", lo, hi).value;
    forall v ensures v in Union([All], lo, hi) <==> lo <= v <= hi {
      if lo <= v <= hi { assert Denotes([All][0], v, lo, hi); }
    }
  }

  /** One of the words that the expansions are made of, and its set. */
  predicate SimpleWord(w: string, lo: int, hi: int) {
    w == "*" || (w == "0" && lo <= 0 <= hi) || (w == "1" && lo <= 1 <= hi)
  }

  ghost predicate SimpleSet(w: string, s: set<int>, lo: int, hi: int) {
    if w == "*" then IsWhole(s, lo, hi) else if w == "0" then s == {0} else s == {1}
  }

  lemma SimpleMeans(w: string, lo: int, hi: int)
    requires SimpleWord(w, lo, hi)
    ensures ListWord(w) && FieldMeaning(w, lo, hi).Ok? && SimpleSet(w, FieldMeaning(w, lo, hi).value, lo, hi)
  {
    hide FieldMeaning;
    StarIsWhole(lo, hi);
    assert Decimal(0) == "0" && Decimal(1) == "1";
    if w == "0" { NumberMeans(0, lo, hi); }
    if w == "1" { NumberMeans(1, lo, hi); }
  }

  lemma ShorthandReads(before: string, s: string, after: string, name: string, w0: string, w1: string, w2: string, w3: string, w4: string)
    requires Spaces(before) && Spaces(after) && SameButCase(s, name) && name != [] && Lower(name) && Trimmed(s)
    requires Shorthand(name) == Words(w0, w1, w2, w3, w4) && name[0] == '@'
    requires SimpleWord(w0, 0, 59) && SimpleWord(w1, 0, 23) && SimpleWord(w2, 1, 31) && SimpleWord(w3, 1, 12) && SimpleWord(w4, 0, 6)
    ensures var r := CronMeaning(before + s + after);
            && r.Ok? && SimpleSet(w0, r.value.minute, 0, 59) && SimpleSet(w1, r.value.hour, 0, 23)
            && SimpleSet(w2, r.value.dayOfMonth, 1, 31) && SimpleSet(w3, r.value.month, 1, 12) && SimpleSet(w4, r.value.dayOfWeek, 0, 6)
  {
    SimpleMeans(w0, 0, 59);
    SimpleMeans(w1, 0, 23);
    SimpleMeans(w2, 1, 31);
    SimpleMeans(w3, 1, 12);
    SimpleMeans(w4, 0, 6);
    NameIsRead(before, s, after, name);
    assert !Inherited(name);
    hide SimpleWord, SimpleSet, FieldMeaning, Shorthand, Raw, Inherited, ListWord, Spaces, SameButCase, Lower, Trimmed, Words;
    SimpleParts(w0, w1, w2, w3, w4);
    assert Parts(before + s + after) == [w0, w1, w2, w3, w4];
    hide Parts;
  }

  function Words(w0: string, w1: string, w2: string, w3: string, w4: string): string {
    w0 + (" " + (w1 + (" " + (w2 + (" " + (w3 + (" " + w4)))))))
  }

  lemma SimpleParts(w0: string, w1: string, w2: string, w3: string, w4: string)
    requires ListWord(w0) && ListWord(w1) && ListWord(w2) && ListWord(w3) && ListWord(w4)
    ensures SplitSpaces(Words(w0, w1, w2, w3, w4)) == [w0, w1, w2, w3, w4]
  {
    ListWordIsWord(w0);
    ListWordIsWord(w1);
    ListWordIsWord(w2);
    ListWordIsWord(w3);
    ListWordIsWord(w4);
    hide ListWord, Word, SplitSpaces;
    FiveWords(w0, w1, w2, w3, w4);
  }

  lemma LettersSpread(a: char, b: char, c: char, d: char, e: char)
    ensures Words([a], [b], [c], [d], [e]) == [a, ' ', b, ' ', c, ' ', d, ' ', e]
  {
    var r := [d] + (" " + [e]);
    assert r == [d, ' ', e];
    var q := [c] + (" " + r);
    assert q == [c, ' ', d, ' ', e];
    var p := [b] + (" " + q);
    assert p == [b, ' ', c, ' ', d, ' ', e];
  }

  lemma Expansions()
    ensures Shorthand("@hourly") == Words("0", "*", "*", "*", "*")
    ensures Shorthand("@daily") == Shorthand("@midnight") == Words("0", "0", "*", "*", "*")
    ensures Shorthand("@weekly") == Words("0", "0", "*", "*", "0")
    ensures Shorthand("@monthly") == Words("0", "0", "1", "*", "*")
    ensures Shorthand("@yearly") == Shorthand("@annually") == Words("0", "0", "1", "1", "*")
  {
    hide Words;
    LettersSpread('0', '*', '*', '*', '*');
    LettersSpread('0', '0', '*', '*', '*');
    LettersSpread('0', '0', '*', '*', '0');
    LettersSpread('0', '0', '1', '*', '*');
    LettersSpread('0', '0', '1', '1', '*');
  }

  /** A name's letters begin and end it, so nothing is trimmed off it. */
  lemma NameIsTrimmed(s: string, name: string)
    requires SameButCase(s, name) && name != [] && name[0] == '@' && 'a' <= name[|name| - 1] <= 'z'
    ensures Trimmed(s)
  {
  }

  /** Each shorthand, in any case and with white space around it, means its five sets. */
  lemma ShorthandMeans(before: string, s: string, after: string)
    requires Spaces(before) && Spaces(after)
    ensures SameButCase(s, "@hourly") ==>
              var r := CronMeaning(before + s + after);
              r.Ok? && r.value.minute == {0} && IsWhole(r.value.hour, 0, 23)
              && IsWhole(r.value.dayOfMonth, 1, 31) && IsWhole(r.value.month, 1, 12) && IsWhole(r.value.dayOfWeek, 0, 6)
    ensures SameButCase(s, "@daily") || SameButCase(s, "@midnight") ==>
              var r := CronMeaning(before + s + after);
              r.Ok? && r.value.minute == {0} && r.value.hour == {0}
              && IsWhole(r.value.dayOfMonth, 1, 31) && IsWhole(r.value.month, 1, 12) && IsWhole(r.value.dayOfWeek, 0, 6)
    ensures SameButCase(s, "@weekly") ==>
              var r := CronMeaning(before + s + after);
              r.Ok? && r.value.minute == {0} && r.value.hour == {0}
              && IsWhole(r.value.dayOfMonth, 1, 31) && IsWhole(r.value.month, 1, 12) && r.value.dayOfWeek == {0}
    ensures SameButCase(s, "@monthly") ==>
              var r := CronMeaning(before + s + after);
              r.Ok? && r.value.minute == {0} && r.value.hour == {0}
              && r.value.dayOfMonth == {1} && IsWhole(r.value.month, 1, 12) && IsWhole(r.value.dayOfWeek, 0, 6)
    ensures SameButCase(s, "@yearly") || SameButCase(s, "@annually") ==>
              var r := CronMeaning(before + s + after);
              r.Ok? && r.value.minute == {0} && r.value.hour == {0}
              && r.value.dayOfMonth == {1} && r.value.month == {1} && IsWhole(r.value.dayOfWeek, 0, 6)
  {
    Expansions();
    hide CronMeaning, SameButCase, Trimmed, Spaces, IsWhole, Shorthand, Words;
    if SameButCase(s, "@hourly") {
      NameIsTrimmed(s, "@hourly");
      ShorthandReads(before, s, after, "@hourly", "0", "*", "*", "*", "*");
    }
    if SameButCase(s, "@daily") {
      NameIsTrimmed(s, "@daily");
      ShorthandReads(before, s, after, "@daily", "0", "0", "*", "*", "*");
    }
    if SameButCase(s, "@midnight") {
      NameIsTrimmed(s, "@midnight");
      ShorthandReads(before, s, after, "@midnight", "0", "0", "*", "*", "*");
    }
    if SameButCase(s, "@weekly") {
      NameIsTrimmed(s, "@weekly");
      ShorthandReads(before, s, after, "@weekly", "0", "0", "*", "*", "0");
    }
    if SameButCase(s, "@monthly") {
      NameIsTrimmed(s, "@monthly");
      ShorthandReads(before, s, after, "@monthly", "0", "0", "1", "*", "*");
    }
    if SameButCase(s, "@yearly") {
      NameIsTrimmed(s, "@yearly");
      ShorthandReads(before, s, after, "@yearly", "0", "0", "1", "1", "*");
    }
    if SameButCase(s, "@annually") {
      NameIsTrimmed(s, "@annually");
      ShorthandReads(before, s, after, "@annually", "0", "0", "1", "1", "*");
    }
  }
}
