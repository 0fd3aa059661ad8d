/**
 The cron expression parser of src/cron/cronParser.ts: five comma lists of `*`,
 `*` with a step, ranges and numbers, or one of the `@` shorthands.
 */
module CronParser {
  import opened Outcomes
  import opened Text

  datatype CronFields = CronFields(
    minute: set<int>, hour: set<int>, dayOfMonth: set<int>, month: set<int>, dayOfWeek: set<int>)

  datatype CronError =
    | FieldCount(count: nat)
    | BadStep(piece: string)
    | BadRange(piece: string)
    | BadValue(piece: string)
    | NoFireTime
    | NotText

  predicate InRange(s: set<int>, lo: int, hi: int) {
    (exists v :: v in s) && forall v :: v in s ==> lo <= v <= hi
  }

  /** The field sets a caller can get out of the parser. */
  predicate Accepted(f: CronFields) {
    && InRange(f.minute, 0, 59) && InRange(f.hour, 0, 23) && InRange(f.dayOfMonth, 1, 31)
    && InRange(f.month, 1, 12) && InRange(f.dayOfWeek, 0, 6)
  }

  // ---- One piece of a comma list

  datatype Piece = Every | Step(step: int) | Span(from: int, to: int) | Single(n: int) | Bad(error: CronError)

  function ReadPiece(piece: string, lo: int, hi: int): Piece {
    if piece == "*" then Every
    else if StartsWith(piece, "*/") then
      var step := ParseInt(piece[2..]);
      if step.Some? && step.value > 0 then Step(step.value) else Bad(BadStep(piece))
    else if '-' in piece then
      var ends := SplitOn(piece, '-');
      var a, b := ParseInt(ends[0]), if |ends| > 1 then ParseInt(ends[1]) else None;
      if a.None? || b.None? || a.value > b.value || a.value < lo || b.value > hi then Bad(BadRange(piece))
      else Span(a.value, b.value)
    else
      var n := ParseInt(piece);
      if n.None? || n.value < lo || n.value > hi then Bad(BadValue(piece)) else Single(n.value)
  }

  /** The values between `lo` and `hi` that a piece stands for. */
  predicate Selects(p: Piece, v: int, lo: int, hi: int) {
    lo <= v <= hi &&
    match p
    case Every => true
    case Step(step) => step > 0 && (v - lo) % step == 0
    case Span(a, b) => a <= v <= b
    case Single(n) => v == n
    case Bad(_) => false
  }

  // ---- A field

  ghost predicate AllGood(pieces: seq<string>, lo: int, hi: int) {
    forall i :: 0 <= i < |pieces| ==> !ReadPiece(pieces[i], lo, hi).Bad?
  }

  ghost predicate Selected(pieces: seq<string>, v: int, lo: int, hi: int) {
    exists i :: 0 <= i < |pieces| && Selects(ReadPiece(pieces[i], lo, hi), v, lo, hi)
  }

  /** What a list of pieces stands for: the union, or the error of the first bad piece. */
  ghost function ListMeaning(pieces: seq<string>, lo: int, hi: int): Result<set<int>, CronError> {
    if AllGood(pieces, lo, hi) then
      Ok(set v | lo <= v <= hi && Selected(pieces, v, lo, hi))
    else
      Err(FirstError(pieces, lo, hi))
  }

  ghost function FirstError(pieces: seq<string>, lo: int, hi: int): CronError
    requires !AllGood(pieces, lo, hi)
  {
    var p := ReadPiece(pieces[0], lo, hi);
    if p.Bad? then p.error else FirstError(pieces[1..], lo, hi)
  }

  ghost function FieldMeaning(s: string, lo: int, hi: int): Result<set<int>, CronError> {
    ListMeaning(SplitOn(s, ','), lo, hi)
  }

  lemma {:induction false} FirstErrorAt(pieces: seq<string>, lo: int, hi: int, k: nat)
    requires k < |pieces| && ReadPiece(pieces[k], lo, hi).Bad?
    requires forall i :: 0 <= i < k ==> !ReadPiece(pieces[i], lo, hi).Bad?
    ensures ListMeaning(pieces, lo, hi) == Err(ReadPiece(pieces[k], lo, hi).error)
  {
    if k > 0 {
      FirstErrorAt(pieces[1..], lo, hi, k - 1);
    }
  }

  // ---- Values at steps of a loop

  /** The values a counting loop from `from` to `to` visits. */
  function Stepped(from: int, to: int, step: nat): set<int>
    requires step > 0
    decreases if to < from then 0 else to - from + 1
  {
    if from <= to then {from} + Stepped(from + step, to, step) else {}
  }

  lemma ProductAtLeast(a: int, b: int)
    requires a >= 1 && b > 0
    ensures a * b >= b
  {
    assert a * b == (a - 1) * b + b;
  }

  lemma SmallProduct(k: int, s: int)
    requires s > 0 && -s < k * s < s
    ensures k == 0
  {
    if k >= 1 {
      ProductAtLeast(k, s);
    } else if k <= -1 {
      ProductAtLeast(-k, s);
    }
  }

  lemma RemainderIsUnique(x: int, s: int, q: int, r: int)
    requires s > 0 && 0 <= r < s && x == q * s + r
    ensures x % s == r
  {
    var q', r' := x / s, x % s;
    assert x == q' * s + r';
    assert (q - q') * s == q * s - q' * s;
    SmallProduct(q - q', s);
  }

  lemma RemainderStep(x: int, s: int)
    requires s > 0
    ensures (x - s) % s == x % s
  {
    var q := x / s;
    assert x == q * s + x % s;
    assert x - s == (q - 1) * s + x % s;
    RemainderIsUnique(x - s, s, q - 1, x % s);
  }

  lemma {:induction false} SteppedMembers(from: int, to: int, step: nat, v: int)
    requires step > 0
    ensures v in Stepped(from, to, step) <==> from <= v <= to && (v - from) % step == 0
    decreases if to < from then 0 else to - from + 1
  {
    if from <= to {
      SteppedMembers(from + step, to, step, v);
      if from + step <= v {
        RemainderStep(v - from, step);
        assert v - from - step == v - (from + step);
      } else if from <= v {
        RemainderIsUnique(v - from, step, 0, v - from);
      }
    }
  }

  method AddStepped(out0: set<int>, from: int, to: int, step: nat) returns (out: set<int>)
    requires step > 0
    ensures forall v :: v in out <==> (v in out0 || (from <= v <= to && (v - from) % step == 0))
  {
    out := out0;
    var i := from;
    while i <= to
      invariant out + Stepped(i, to, step) == out0 + Stepped(from, to, step)
      decreases if to < i then 0 else to - i + 1
    {
      out := out + {i};
      i := i + step;
    }
    forall v ensures v in out <==> (v in out0 || (from <= v <= to && (v - from) % step == 0)) {
      SteppedMembers(from, to, step, v);
      assert v in out + Stepped(i, to, step) <==> v in out0 + Stepped(from, to, step);
    }
  }

  lemma SelectedByOneMore(pieces: seq<string>, k: nat, v: int, lo: int, hi: int)
    requires k < |pieces|
    ensures Selected(pieces[..k + 1], v, lo, hi)
       <==> Selected(pieces[..k], v, lo, hi) || Selects(ReadPiece(pieces[k], lo, hi), v, lo, hi)
  {
    hide ReadPiece, Selects;
    var p, q := pieces[..k], pieces[..k + 1];
    if Selected(p, v, lo, hi) {
      var i :| 0 <= i < |p| && Selects(ReadPiece(p[i], lo, hi), v, lo, hi);
      assert q[i] == p[i];
    }
    if Selected(q, v, lo, hi) {
      var i :| 0 <= i < |q| && Selects(ReadPiece(q[i], lo, hi), v, lo, hi);
      if i < k { assert p[i] == q[i]; }
    }
    assert q[k] == pieces[k];
  }

  /** The loop body of `parseField`. */
  method AddPiece(piece: string, lo: int, hi: int, out0: set<int>) returns (r: Result<set<int>, CronError>)
    ensures match ReadPiece(piece, lo, hi)
            case Bad(error) => r == Err(error)
            case p => r.Ok? && forall v :: v in r.value <==> (v in out0 || Selects(p, v, lo, hi))
  {
    var out := out0;
    if piece == "*" {
      out := AddStepped(out, lo, hi, 1);
    } else if StartsWith(piece, "*/") {
      var step := ParseInt(piece[2..]);
      if !(step.Some? && step.value > 0) {
        return Err(BadStep(piece));
      }
      out := AddStepped(out, lo, hi, step.value);
    } else if '-' in piece {
      var ends := SplitOn(piece, '-');
      var a, b := ParseInt(ends[0]), if |ends| > 1 then ParseInt(ends[1]) else None;
      if a.None? || b.None? || a.value > b.value || a.value < lo || b.value > hi {
        return Err(BadRange(piece));
      }
      out := AddStepped(out, a.value, b.value, 1);
    } else {
      var n := ParseInt(piece);
      if n.None? || n.value < lo || n.value > hi {
        return Err(BadValue(piece));
      }
      out := out + {n.value};
    }
    r := Ok(out);
  }

  method ParseField(s: string, lo: int, hi: int) returns (r: Result<set<int>, CronError>)
    ensures r == FieldMeaning(s, lo, hi)
  {
    hide ReadPiece, Selects;
    var pieces := SplitOn(s, ',');
    var out: set<int> := {};
    for k := 0 to |pieces|
      invariant forall i :: 0 <= i < k ==> !ReadPiece(pieces[i], lo, hi).Bad?
      invariant forall v :: v in out <==> Selected(pieces[..k], v, lo, hi)
    {
      var added := AddPiece(pieces[k], lo, hi, out);
      if added.Err? {
        FirstErrorAt(pieces, lo, hi, k);
        return added;
      }
      forall v ensures v in added.value <==> Selected(pieces[..k + 1], v, lo, hi) {
        SelectedByOneMore(pieces, k, v, lo, hi);
      }
      out := added.value;
    }
    assert pieces[..|pieces|] == pieces;
    forall v ensures v in out ==> lo <= v <= hi {
      SelectedInRange(pieces, v, lo, hi);
    }
    assert AllGood(pieces, lo, hi);
    assert out == set v | lo <= v <= hi && Selected(pieces, v, lo, hi);
    r := Ok(out);
  }

  lemma SelectedInRange(pieces: seq<string>, v: int, lo: int, hi: int)
    ensures Selected(pieces, v, lo, hi) ==> lo <= v <= hi
  {
  }

  lemma FieldIsInRange(s: string, lo: int, hi: int)
    requires lo <= hi
    ensures FieldMeaning(s, lo, hi).Ok? ==> InRange(FieldMeaning(s, lo, hi).value, lo, hi)
  {
    if FieldMeaning(s, lo, hi).Ok? {
      var pieces := SplitOn(s, ',');
      var p := ReadPiece(pieces[0], lo, hi);
      var v := match p
        case Span(a, _) => a
        case Single(n) => n
        case _ => lo;
      assert Selects(p, v, lo, hi);
      assert v in FieldMeaning(s, lo, hi).value;
    }
  }

  // ---- An expression

  function Shorthand(raw: string): string {
    if raw == "@hourly" then "0 * * * *"
    else if raw == "@daily" then "0 0 * * *"
    else if raw == "@midnight" then "0 0 * * *"
    else if raw == "@weekly" then "0 0 * * 0"
    else if raw == "@monthly" then "0 0 1 * *"
    else if raw == "@yearly" then "0 0 1 1 *"
    else if raw == "@annually" then "0 0 1 1 *"
    else raw
  }

  function Raw(expression: string): string {
    LowerCase(Trim(expression))
  }

  /** Names that every object inherits a value under: the shorthand found is no text, and splitting it throws. */
  predicate Inherited(raw: string) {
    raw == "constructor" || raw == "__proto__"
  }

  function Parts(expression: string): seq<string> {
    SplitSpaces(Shorthand(Raw(expression)))
  }

  /** Five parts, each with the meaning of its field; the leftmost error wins. */
  ghost function CronMeaning(expression: string): Result<CronFields, CronError> {
    var parts := Parts(expression);
    if Inherited(Raw(expression)) then Err(NotText)
    else if |parts| != 5 then Err(FieldCount(|parts|))
    else
      var minute, hour := FieldMeaning(parts[0], 0, 59), FieldMeaning(parts[1], 0, 23);
      var dom, month := FieldMeaning(parts[2], 1, 31), FieldMeaning(parts[3], 1, 12);
      var dow := FieldMeaning(parts[4], 0, 6);
      if minute.Err? then Err(minute.error)
      else if hour.Err? then Err(hour.error)
      else if dom.Err? then Err(dom.error)
      else if month.Err? then Err(month.error)
      else if dow.Err? then Err(dow.error)
      else Ok(CronFields(minute.value, hour.value, dom.value, month.value, dow.value))
  }

  const FIELD_LO: seq<int> := [0, 0, 1, 1, 0]
  const FIELD_HI: seq<int> := [59, 23, 31, 12, 6]

  method ParseCron(expression: string) returns (r: Result<CronFields, CronError>)
    ensures r == CronMeaning(expression)
  {
    if Inherited(Raw(expression)) {
      return Err(NotText);
    }
    var parts := Parts(expression);
    if |parts| != 5 {
      return Err(FieldCount(|parts|));
    }
    hide Parts, Raw;
    var sets: seq<set<int>> := [];
    for i := 0 to 5
      invariant |sets| == i
      invariant forall k :: 0 <= k < i ==> FieldMeaning(parts[k], FIELD_LO[k], FIELD_HI[k]) == Ok(sets[k])
    {
      var field := ParseField(parts[i], FIELD_LO[i], FIELD_HI[i]);
      if field.Err? {
        return Err(field.error);
      }
      sets := sets + [field.value];
    }
    r := Ok(CronFields(sets[0], sets[1], sets[2], sets[3], sets[4]));
  }

  lemma ParsedFieldsAreAccepted(expression: string)
    ensures CronMeaning(expression).Ok? ==> Accepted(CronMeaning(expression).value)
  {
    var parts := Parts(expression);
    if |parts| == 5 {
      FieldIsInRange(parts[0], 0, 59);
      FieldIsInRange(parts[1], 0, 23);
      FieldIsInRange(parts[2], 1, 31);
      FieldIsInRange(parts[3], 1, 12);
      FieldIsInRange(parts[4], 0, 6);
    }
  }

  // ---- Every accepted field set has an expression

  /** The members of `s` from `lo` to `hi`, in ascending order. */
  function Values(s: set<int>, lo: nat, hi: int): (vs: seq<nat>)
    ensures forall v: int :: v in vs <==> (v in s && lo <= v <= hi)
    decreases if hi < lo then 0 else hi - lo + 1
  {
    if hi < lo then []
    else if lo in s then [lo] + Values(s, lo + 1, hi)
    else Values(s, lo + 1, hi)
  }

  /** Digits and commas: characters no step of the parser changes or stops at. */
  predicate Plain(s: string) {
    s != [] && forall i :: 0 <= i < |s| ==> IsDigit(s[i]) || s[i] == ','
  }

  function ListText(vs: seq<nat>): (s: string)
    requires vs != []
    ensures Plain(s) && IsDigit(s[0])
  {
    if |vs| == 1 then Decimal(vs[0]) else Decimal(vs[0]) + "," + ListText(vs[1..])
  }

  lemma {:induction false} ListTextPieces(vs: seq<nat>)
    requires vs != []
    ensures var pieces := SplitOn(ListText(vs), ',');
            |pieces| == |vs| && forall i :: 0 <= i < |vs| ==> pieces[i] == Decimal(vs[i])
  {
    var head := Decimal(vs[0]);
    assert ',' !in head;
    SplitWithout(head, ',');
    if |vs| > 1 {
      var rest := ListText(vs[1..]);
      ListTextPieces(vs[1..]);
      assert ListText(vs) == head + ("," + rest);
      SplitConcat(head, "," + rest, ',');
      assert ("," + rest)[1..] == rest;
      assert SplitOn("," + rest, ',') == [[]] + SplitOn(rest, ',');
      assert head + [] == head;
    }
  }

  lemma NumberIsSingle(n: nat, lo: int, hi: int)
    requires lo <= n <= hi
    ensures ReadPiece(Decimal(n), lo, hi) == Single(n)
  {
    ParseDecimal(n);
    assert IsDigit(Decimal(n)[0]);
  }

  function FieldText(s: set<int>, lo: nat, hi: int): (text: string)
    requires InRange(s, lo, hi)
    ensures Plain(text) && IsDigit(text[0])
  {
    ValuesExist(s, lo, hi);
    ListText(Values(s, lo, hi))
  }

  lemma ValuesExist(s: set<int>, lo: nat, hi: int)
    requires InRange(s, lo, hi)
    ensures Values(s, lo, hi) != []
  {
    var v :| v in s;
    assert v in Values(s, lo, hi);
  }

  lemma FieldTextMeans(s: set<int>, lo: nat, hi: int)
    requires InRange(s, lo, hi)
    ensures FieldMeaning(FieldText(s, lo, hi), lo, hi) == Ok(s)
  {
    hide ReadPiece, Values, ListText, SplitOn;
    ValuesExist(s, lo, hi);
    var vs := Values(s, lo, hi);
    var pieces := SplitOn(FieldText(s, lo, hi), ',');
    ListTextPieces(vs);
    forall i | 0 <= i < |pieces| ensures ReadPiece(pieces[i], lo, hi) == Single(vs[i]) {
      assert vs[i] in vs;
      NumberIsSingle(vs[i], lo, hi);
    }
    forall v ensures v in s <==> Selected(pieces, v, lo, hi) {
      if v in s {
        var i :| 0 <= i < |vs| && vs[i] == v;
        assert Selects(ReadPiece(pieces[i], lo, hi), v, lo, hi);
      }
    }
    assert AllGood(pieces, lo, hi);
    assert s == set v | lo <= v <= hi && Selected(pieces, v, lo, hi);
  }

  function CronText(f: CronFields): string
    requires Accepted(f)
  {
    FieldText(f.minute, 0, 59) + (" " + (FieldText(f.hour, 0, 23) + (" " + (FieldText(f.dayOfMonth, 1, 31)
    + (" " + (FieldText(f.month, 1, 12) + (" " + FieldText(f.dayOfWeek, 0, 6))))))))
  }

  /** Words of plain characters separated by single spaces, not starting or ending with one. */
  predicate PlainWords(s: string) {
    && s != [] && IsDigit(s[0]) && s[|s| - 1] != ' '
    && forall i :: 0 <= i < |s| ==> IsDigit(s[i]) || s[i] == ',' || s[i] == ' '
  }

  lemma PlainWordsAreKept(s: string)
    requires PlainWords(s)
    ensures Shorthand(LowerCase(Trim(s))) == s
  {
    assert !IsSpace(s[|s| - 1]);
    TrimmedIsFixed(s);
    assert LowerCase(s) == s;
  }

  predicate Word(w: string) {
    w != [] && forall i :: 0 <= i < |w| ==> !IsSpace(w[i])
  }

  lemma PlainIsWord(w: string)
    requires Plain(w)
    ensures Word(w)
  {
  }

  lemma {:induction false} WordLengthIs(w: string, rest: string)
    requires Word(w) && (rest == [] || IsSpace(rest[0]))
    ensures WordLength(w + rest) == |w|
  {
    if |w| == 1 {
      assert (w + rest)[1..] == rest;
    } else {
      assert (w + rest)[1..] == w[1..] + rest;
      WordLengthIs(w[1..], rest);
    }
  }

  lemma SplitAfterWord(s: string)
    requires WordLength(s) < |s|
    ensures SplitSpaces(s) == [s[..WordLength(s)]] + SplitSpaces(TrimStart(s[WordLength(s)..]))
  {
  }

  lemma SplitFirstWord(w: string, rest: string)
    requires Word(w) && rest != [] && !IsSpace(rest[0])
    ensures SplitSpaces(w + (" " + rest)) == [w] + SplitSpaces(rest)
  {
    hide WordLength, SplitSpaces;
    var s := w + (" " + rest);
    WordLengthIs(w, " " + rest);
    SplitAfterWord(s);
    assert s[|w|..] == " " + rest && s[..|w|] == w;
    assert TrimStart(" " + rest) == rest by { assert (" " + rest)[1..] == rest; }
  }

  /** An expression of five good fields that is its own shorthand. */
  lemma FiveFieldsMean(text: string, w0: string, w1: string, w2: string, w3: string, w4: string, f: CronFields)
    requires Shorthand(Raw(text)) == text && !Inherited(Raw(text))
    requires text == w0 + (" " + (w1 + (" " + (w2 + (" " + (w3 + (" " + w4)))))))
    requires Word(w0) && Word(w1) && Word(w2) && Word(w3) && Word(w4)
    requires FieldMeaning(w0, 0, 59) == Ok(f.minute) && FieldMeaning(w1, 0, 23) == Ok(f.hour)
    requires FieldMeaning(w2, 1, 31) == Ok(f.dayOfMonth) && FieldMeaning(w3, 1, 12) == Ok(f.month)
    requires FieldMeaning(w4, 0, 6) == Ok(f.dayOfWeek)
    ensures CronMeaning(text) == Ok(f)
  {
    hide FieldMeaning, SplitSpaces, Word, Shorthand, Raw, Inherited;
    FiveWords(w0, w1, w2, w3, w4);
    assert Parts(text) == [w0, w1, w2, w3, w4];
    hide Parts;
  }

  lemma DigitsAreKept(s: string)
    requires PlainWords(s)
    ensures Shorthand(Raw(s)) == s && !Inherited(Raw(s))
  {
    PlainWordsAreKept(s);
    assert !IsSpace(s[|s| - 1]);
    TrimmedIsFixed(s);
    assert LowerCase(s) == s;
  }

  lemma EveryAcceptedSetIsWritable(f: CronFields)
    requires Accepted(f)
    ensures CronMeaning(CronText(f)) == Ok(f)
  {
    hide FieldText, FieldMeaning, InRange, CronMeaning, Shorthand, Raw, Inherited;
    var w0, w1, w2 := FieldText(f.minute, 0, 59), FieldText(f.hour, 0, 23), FieldText(f.dayOfMonth, 1, 31);
    var w3, w4 := FieldText(f.month, 1, 12), FieldText(f.dayOfWeek, 0, 6);
    DigitsAreKept(CronText(f));
    PlainIsWord(w0);
    PlainIsWord(w1);
    PlainIsWord(w2);
    PlainIsWord(w3);
    PlainIsWord(w4);
    hide Plain, Word, PlainWords;
    FieldTextMeans(f.minute, 0, 59);
    FieldTextMeans(f.hour, 0, 23);
    FieldTextMeans(f.dayOfMonth, 1, 31);
    FieldTextMeans(f.month, 1, 12);
    FieldTextMeans(f.dayOfWeek, 0, 6);
    FiveFieldsMean(CronText(f), w0, w1, w2, w3, w4, f);
  }

  lemma FiveWords(w0: string, w1: string, w2: string, w3: string, w4: string)
    requires Word(w0) && Word(w1) && Word(w2) && Word(w3) && Word(w4)
    ensures SplitSpaces(w0 + (" " + (w1 + (" " + (w2 + (" " + (w3 + (" " + w4)))))))) == [w0, w1, w2, w3, w4]
  {
    hide SplitSpaces;
    var r3 := w3 + (" " + w4);
    var r2 := w2 + (" " + r3);
    var r1 := w1 + (" " + r2);
    WordStarts(w1);
    WordStarts(w2);
    WordStarts(w3);
    WordStarts(w4);
    hide Word, IsSpace;
    SplitFirstWord(w0, r1);
    SplitFirstWord(w1, r2);
    SplitFirstWord(w2, r3);
    SplitFirstWord(w3, w4);
    LastWord(w4);
  }

  lemma WordStarts(w: string)
    requires Word(w)
    ensures w != [] && !IsSpace(w[0])
  {
  }

  lemma LastWord(w: string)
    requires Word(w)
    ensures SplitSpaces(w) == [w]
  {
    WordLengthIs(w, []);
    assert w + [] == w;
  }

  lemma NumberMeans(n: nat, lo: int, hi: int)
    requires lo <= n <= hi
    ensures FieldMeaning(Decimal(n), lo, hi) == Ok({n})
  {
    NumberIsSingle(n, lo, hi);
    hide ReadPiece, SplitOn;
    forall i | 0 <= i < |Decimal(n)| ensures Decimal(n)[i] != ',' {
      assert IsDigit(Decimal(n)[i]);
    }
    SplitWithout(Decimal(n), ',');
    OnePieceMeans(Decimal(n), lo, hi, {n});
  }

  lemma OnePieceMeans(piece: string, lo: int, hi: int, s: set<int>)
    requires !ReadPiece(piece, lo, hi).Bad? && forall v :: v in s <==> Selects(ReadPiece(piece, lo, hi), v, lo, hi)
    ensures ListMeaning([piece], lo, hi) == Ok(s)
  {
    hide ReadPiece;
    forall v ensures Selected([piece], v, lo, hi) <==> v in s {
      if v in s { assert Selects(ReadPiece([piece][0], lo, hi), v, lo, hi); }
    }
    forall v | v in s ensures lo <= v <= hi {
      assert Selects(ReadPiece(piece, lo, hi), v, lo, hi);
    }
    hide Selects, Selected;
    assert AllGood([piece], lo, hi);
    var m := ListMeaning([piece], lo, hi);
    assert forall v :: v in m.value <==> v in s;
    assert m.value == s;
  }

  const LEAP_DAY: CronFields := CronFields({0}, {0}, {29}, {2}, {0, 1, 2, 3, 4, 5, 6})

  const LEAP_DAY_TEXT: string := "0 0 29 2 *"

  lemma LeapDayIsKept()
    ensures Shorthand(Raw(LEAP_DAY_TEXT)) == LEAP_DAY_TEXT && !Inherited(Raw(LEAP_DAY_TEXT))
  {
    var text := LEAP_DAY_TEXT;
    TrimmedIsFixed(text);
    assert LowerCase(text) == text;
    assert text[0] == '0';
  }

  lemma LeapDayFields()
    ensures FieldMeaning("0", 0, 59) == Ok({0}) && FieldMeaning("0", 0, 23) == Ok({0})
    ensures FieldMeaning("29", 1, 31) == Ok({29}) && FieldMeaning("2", 1, 12) == Ok({2})
    ensures FieldMeaning("*", 0, 6) == Ok({0, 1, 2, 3, 4, 5, 6})
  {
    hide FieldMeaning;
    assert Decimal(0) == "0" && Decimal(2) == "2" && Decimal(29) == "29";
    NumberMeans(0, 0, 59);
    NumberMeans(0, 0, 23);
    NumberMeans(29, 1, 31);
    NumberMeans(2, 1, 12);
    StarMeans();
  }

  lemma StarMeans()
    ensures FieldMeaning("*", 0, 6) == Ok({0, 1, 2, 3, 4, 5, 6})
  {
    SplitWithout("*", ',');
    OnePieceMeans("*", 0, 6, {0, 1, 2, 3, 4, 5, 6});
  }

  /** Midnight of 29 February. */
  lemma LeapDayMeans()
    ensures CronMeaning(LEAP_DAY_TEXT) == Ok(LEAP_DAY)
  {
    hide FieldMeaning, CronMeaning, Shorthand, Raw, Inherited;
    LeapDayIsKept();
    LeapDayFields();
    assert LEAP_DAY_TEXT == "0" + (" " + ("0" + (" " + ("29" + (" " + ("2" + (" " + "*")))))));
    FiveFieldsMean(LEAP_DAY_TEXT, "0", "0", "29", "2", "*", LEAP_DAY);
  }
}
