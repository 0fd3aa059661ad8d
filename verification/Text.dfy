/** The string operations of ECMA-262 that the parsers of this project rest on. */
module Text {
  import opened Outcomes

  /** WhiteSpace and LineTerminator of ECMA-262: what trim removes and \s matches. */
  predicate IsSpace(c: char) {
    || '\t' <= c <= '\r' || c == ' ' || c == '\U{a0}' || c == '\U{1680}' || '\U{2000}' <= c <= '\U{200a}'
    || c == '\U{2028}' || c == '\U{2029}' || c == '\U{202f}' || c == '\U{205f}' || c == '\U{3000}' || c == '\U{feff}'
  }

  function TrimStart(s: string): string {
    if s != [] && IsSpace(s[0]) then TrimStart(s[1..]) else s
  }

  function TrimEnd(s: string): string {
    if s != [] && IsSpace(s[|s| - 1]) then TrimEnd(s[..|s| - 1]) else s
  }

  function Trim(s: string): string {
    TrimEnd(TrimStart(s))
  }

  /** No white space at either end. */
  predicate Trimmed(s: string) {
    s != [] ==> !IsSpace(s[0]) && !IsSpace(s[|s| - 1])
  }

  lemma TrimmedIsFixed(s: string)
    requires Trimmed(s)
    ensures TrimStart(s) == TrimEnd(s) == Trim(s) == s
  {
  }

  // ---- White space around a text

  predicate Spaces(s: string) {
    forall i :: 0 <= i < |s| ==> IsSpace(s[i])
  }

  lemma {:induction false} TrimStartDrops(sp: string, s: string)
    requires Spaces(sp) && (s != [] ==> !IsSpace(s[0]))
    ensures TrimStart(sp + s) == s
  {
    if sp == [] {
      assert sp + s == s;
    } else {
      assert (sp + s)[1..] == sp[1..] + s;
      TrimStartDrops(sp[1..], s);
    }
  }

  lemma {:induction false} TrimEndDrops(s: string, sp: string)
    requires Spaces(sp) && (s != [] ==> !IsSpace(s[|s| - 1]))
    ensures TrimEnd(s + sp) == s
    decreases |sp|
  {
    if sp == [] {
      assert s + sp == s;
    } else {
      assert (s + sp)[..|s + sp| - 1] == s + sp[..|sp| - 1];
      TrimEndDrops(s, sp[..|sp| - 1]);
    }
  }

  lemma TrimDrops(before: string, s: string, after: string)
    requires Spaces(before) && Spaces(after) && s != [] && Trimmed(s)
    ensures Trim(before + s + after) == s
  {
    hide TrimStart, TrimEnd;
    assert before + s + after == before + (s + after);
    TrimStartDrops(before, s + after);
    TrimEndDrops(s, after);
  }

  predicate StartsWith(s: string, prefix: string) {
    prefix <= s
  }

  // ---- Splitting on one character

  /** `s.split(c)` */
  function SplitOn(s: string, c: char): (parts: seq<string>)
    ensures |parts| >= 1
  {
    if s == [] then [[]]
    else
      var rest := SplitOn(s[1..], c);
      if s[0] == c then [[]] + rest
      else Prepend(s[0], rest)
  }

  function Join(parts: seq<string>, c: char): string
    requires |parts| >= 1
  {
    if |parts| == 1 then parts[0] else parts[0] + [c] + Join(parts[1..], c)
  }

  lemma {:induction false} SplitJoin(s: string, c: char)
    ensures Join(SplitOn(s, c), c) == s
    ensures forall i :: 0 <= i < |SplitOn(s, c)| ==> c !in SplitOn(s, c)[i]
  {
    if s != [] {
      SplitJoin(s[1..], c);
      var rest := SplitOn(s[1..], c);
      if s[0] != c {
        var parts := SplitOn(s, c);
        assert parts[1..] == rest[1..];
        assert s == [s[0]] + s[1..];
        if |rest| > 1 {
          assert [s[0]] + (rest[0] + [c] + Join(rest[1..], c)) == parts[0] + [c] + Join(parts[1..], c);
        }
      } else {
        assert SplitOn(s, c)[1..] == rest;
      }
    }
  }

  /** The pieces of a concatenation: only the two that meet are merged. */
  function Merge(p: seq<string>, q: seq<string>): (r: seq<string>)
    requires |p| >= 1 && |q| >= 1
    ensures |r| == |p| + |q| - 1
  {
    p[..|p| - 1] + [p[|p| - 1] + q[0]] + q[1..]
  }

  lemma MergeAfterHead(h: string, p: seq<string>, q: seq<string>)
    requires |p| >= 1 && |q| >= 1
    ensures Merge([h] + p, q) == [h] + Merge(p, q)
  {
  }

  function Prepend(x: char, p: seq<string>): seq<string>
    requires |p| >= 1
  {
    [[x] + p[0]] + p[1..]
  }

  lemma MergeAfterPrepend(x: char, p: seq<string>, q: seq<string>)
    requires |p| >= 1 && |q| >= 1
    ensures Merge(Prepend(x, p), q) == Prepend(x, Merge(p, q))
  {
    if |p| == 1 {
      assert [x] + (p[0] + q[0]) == [x] + p[0] + q[0];
    }
  }

  lemma {:induction false} SplitConcat(a: string, b: string, c: char)
    ensures SplitOn(a + b, c) == Merge(SplitOn(a, c), SplitOn(b, c))
  {
    if a == [] {
      assert a + b == b && [] + SplitOn(b, c)[0] == SplitOn(b, c)[0];
    } else {
      var r, q := SplitOn(a[1..], c), SplitOn(b, c);
      SplitConcat(a[1..], b, c);
      assert (a + b)[1..] == a[1..] + b;
      MergeAfterHead([], r, q);
      MergeAfterPrepend(a[0], r, q);
      hide Merge;
    }
  }

  lemma {:induction false} SplitWithout(s: string, c: char)
    requires c !in s
    ensures SplitOn(s, c) == [s]
  {
    if s != [] {
      SplitWithout(s[1..], c);
      assert [s[0]] + s[1..] == s;
    }
  }

  lemma {:induction false} JoinSplit(parts: seq<string>, c: char)
    requires |parts| >= 1 && forall i :: 0 <= i < |parts| ==> c !in parts[i]
    ensures SplitOn(Join(parts, c), c) == parts
  {
    SplitWithout(parts[0], c);
    if |parts| > 1 {
      var rest := Join(parts[1..], c);
      JoinSplit(parts[1..], c);
      assert Join(parts, c) == parts[0] + ([c] + rest);
      assert ([c] + rest)[1..] == rest;
      SplitConcat(parts[0], [c] + rest, c);
      assert parts[0] + [] == parts[0];
      assert Merge([parts[0]], [[]] + parts[1..]) == parts;
    }
  }

  // ---- Splitting on white space

  function WordLength(s: string): (n: nat)
    ensures n <= |s|
    ensures forall i :: 0 <= i < n ==> !IsSpace(s[i])
    ensures n < |s| ==> IsSpace(s[n])
  {
    if s == [] || IsSpace(s[0]) then 0 else 1 + WordLength(s[1..])
  }

  /** `s.split(/\s+/)`; the argument of TrimStart begins with the white space after a word. */
  function SplitSpaces(s: string): (parts: seq<string>)
    ensures |parts| >= 1
    decreases |s|
  {
    var n := WordLength(s);
    if n == |s| then [s]
    else
      TrimStartShortens(s[n..]);
      [s[..n]] + SplitSpaces(TrimStart(s[n..]))
  }

  lemma TrimStartShortens(s: string)
    ensures |TrimStart(s)| <= |s|
    ensures s != [] && IsSpace(s[0]) ==> |TrimStart(s)| < |s|
  {
  }

  // ---- Integers

  predicate IsDigit(c: char) { '0' <= c <= '9' }

  function DigitCount(s: string): (n: nat)
    ensures n <= |s|
    ensures forall i :: 0 <= i < n ==> IsDigit(s[i])
  {
    if s != [] && IsDigit(s[0]) then 1 + DigitCount(s[1..]) else 0
  }

  function DecimalValue(s: string): nat
    requires forall i :: 0 <= i < |s| ==> IsDigit(s[i])
  {
    if s == [] then 0
    else
      assert IsDigit(s[|s| - 1]);
      10 * DecimalValue(s[..|s| - 1]) + (s[|s| - 1] as int - '0' as int)
  }

  /** `parseInt(s, 10)`; None stands for NaN. */
  function ParseInt(s: string): Option<int> {
    var t := TrimStart(s);
    var negative := t != [] && t[0] == '-';
    var u := if t != [] && (t[0] == '-' || t[0] == '+') then t[1..] else t;
    var n := DigitCount(u);
    if n == 0 then None
    else
      var v: int := DecimalValue(u[..n]);
      Some(if negative then -v else v)
  }

  function Decimal(n: nat): (s: string)
    ensures s != [] && forall i :: 0 <= i < |s| ==> IsDigit(s[i])
    ensures DecimalValue(s) == n
  {
    var last := [('0' as int + n % 10) as char];
    if n < 10 then last else Decimal(n / 10) + last
  }

  lemma {:induction false} DigitsOnly(s: string)
    requires forall i :: 0 <= i < |s| ==> IsDigit(s[i])
    ensures DigitCount(s) == |s|
  {
    if s != [] { DigitsOnly(s[1..]); }
  }

  lemma ParseDecimal(n: nat)
    ensures ParseInt(Decimal(n)) == Some(n)
  {
    var s := Decimal(n);
    DigitsOnly(s);
    assert IsDigit(s[0]);
    assert s[..|s|] == s;
  }

  lemma {:induction false} DigitsEnd(s: string, rest: string)
    requires (forall i :: 0 <= i < |s| ==> IsDigit(s[i])) && (rest == [] || !IsDigit(rest[0]))
    ensures DigitCount(s + rest) == |s|
  {
    if s == [] {
      assert s + rest == rest;
    } else {
      assert (s + rest)[1..] == s[1..] + rest;
      DigitsEnd(s[1..], rest);
    }
  }

  /** White space in front and whatever follows the digits are passed over; a sign counts. */
  lemma ParseIntReads(before: string, sign: string, n: nat, rest: string)
    requires Spaces(before) && sign in {"", "+", "-"} && (rest == [] || !IsDigit(rest[0]))
    ensures var v: int := n; ParseInt(before + (sign + (Decimal(n) + rest))) == Some(if sign == "-" then -v else v)
  {
    hide TrimStart, Decimal, DecimalValue, DigitCount;
    var d := Decimal(n);
    var t := sign + (d + rest);
    assert IsDigit(d[0]) && (d + rest)[0] == d[0];
    assert sign == "" ==> t == d + rest;
    assert sign != "" ==> t[0] == sign[0] && t[1..] == d + rest;
    TrimStartDrops(before, t);
    DigitsEnd(d, rest);
    assert (d + rest)[..|d|] == d;
  }

  /** Without a digit there is no number. */
  lemma ParseIntNeedsDigits(before: string, rest: string)
    requires Spaces(before) && (rest != [] ==> !IsSpace(rest[0]) && rest[0] !in {'+', '-'} && !IsDigit(rest[0]))
    ensures ParseInt(before + rest) == None
  {
    hide TrimStart;
    TrimStartDrops(before, rest);
  }

  /** ASCII part of toLowerCase. */
  function LowerCase(s: string): (r: string)
    ensures |r| == |s|
  {
    seq(|s|, i requires 0 <= i < |s| => if 'A' <= s[i] <= 'Z' then (s[i] as int + 32) as char else s[i])
  }
}
