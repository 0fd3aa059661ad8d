/**
 Self-delimiting names: from a text that begins with a name, the name and the rest can be told. They serve to show that
 the laws this project assumes of JSON text are met by some codec.
 */
module Names {
  /** The only characters of a name; none of them is white space, a brace or a bracket. */
  predicate IsName(s: string) {
    forall i :: 0 <= i < |s| ==> 'a' <= s[i] <= 'z' || s[i] == '.'
  }

  function Unary(n: nat): (s: string)
    ensures s != [] && IsName(s)
  {
    if n == 0 then "." else "i" + Unary(n - 1)
  }

  function IntName(n: int): (s: string)
    ensures s != [] && IsName(s)
  {
    if n >= 0 then "p" + Unary(n) else "m" + Unary(-n)
  }

  function StringName(s: string): (name: string)
    ensures name != [] && IsName(name)
  {
    if s == [] then "e" else "c" + Unary(s[0] as int) + StringName(s[1..])
  }

  lemma Tail(c: char, a: string, b: string)
    requires [c] + a == [c] + b
    ensures a == b
  {
    assert a == ([c] + a)[1..] == ([c] + b)[1..] == b;
  }

  lemma {:induction false} UnaryIsDelimited(m: nat, n: nat, x: string, y: string)
    requires Unary(m) + x == Unary(n) + y
    ensures m == n && x == y
  {
    assert (Unary(m) + x)[0] == Unary(m)[0] && (Unary(n) + y)[0] == Unary(n)[0];
    if m == 0 {
      Tail('.', x, y);
    } else {
      assert Unary(m) + x == "i" + (Unary(m - 1) + x) && Unary(n) + y == "i" + (Unary(n - 1) + y);
      Tail('i', Unary(m - 1) + x, Unary(n - 1) + y);
      UnaryIsDelimited(m - 1, n - 1, x, y);
    }
  }

  function Sign(n: int): char { if n >= 0 then 'p' else 'm' }

  function Size(n: int): nat { if n >= 0 then n else -n }

  lemma IntHead(n: int, x: string)
    ensures IntName(n) + x == [Sign(n)] + (Unary(Size(n)) + x)
  {
    hide Unary;
  }

  lemma SameHead(c: char, d: char, a: string, b: string)
    requires [c] + a == [d] + b
    ensures c == d && a == b
  {
    assert ([c] + a)[0] == c && ([d] + b)[0] == d;
    Tail(c, a, b);
  }

  lemma IntIsDelimited(m: int, n: int, x: string, y: string)
    requires IntName(m) + x == IntName(n) + y
    ensures m == n && x == y
  {
    hide Unary, IntName;
    IntHead(m, x);
    IntHead(n, y);
    SameHead(Sign(m), Sign(n), Unary(Size(m)) + x, Unary(Size(n)) + y);
    UnaryIsDelimited(Size(m), Size(n), x, y);
  }

  lemma {:induction false} StringIsDelimited(s: string, t: string, x: string, y: string)
    requires StringName(s) + x == StringName(t) + y
    ensures s == t && x == y
  {
    hide Unary;
    assert (StringName(s) + x)[0] == StringName(s)[0] && (StringName(t) + y)[0] == StringName(t)[0];
    if s == [] {
      Tail('e', x, y);
    } else {
      var u, v := StringName(s[1..]) + x, StringName(t[1..]) + y;
      assert StringName(s) + x == "c" + (Unary(s[0] as int) + u) && StringName(t) + y == "c" + (Unary(t[0] as int) + v);
      Tail('c', Unary(s[0] as int) + u, Unary(t[0] as int) + v);
      UnaryIsDelimited(s[0] as int, t[0] as int, u, v);
      StringIsDelimited(s[1..], t[1..], x, y);
      assert s == [s[0]] + s[1..] && t == [t[0]] + t[1..];
    }
  }
}
