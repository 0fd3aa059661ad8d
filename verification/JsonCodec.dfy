/** Some codec meets the law that src/llm/sseUtils.ts needs of JSON text. */
module JsonCodec {
  import opened Outcomes
  import opened Names
  import opened AnthropicSse

  /** The keys of an object in some order. */
  ghost function Order(keys: set<string>): (order: seq<string>)
    ensures forall k :: k in order <==> k in keys
    decreases |keys|
  {
    if keys == {} then []
    else
      var k :| k in keys;
      [k] + Order(keys - {k})
  }

  ghost function JsonName(j: Json): (name: string)
    ensures name != [] && IsName(name)
    decreases j, 2, 0
  {
    match j
    case Null => "n"
    case Bool(b) => if b then "t" else "f"
    case Num(n) => "d" + IntName(n)
    case Str(s) => "s" + StringName(s)
    case Arr(items) => "a" + ItemsName(items)
    case Obj(fields) => "o" + FieldsName(j, Order(fields.Keys))
  }

  ghost function ItemsName(items: seq<Json>): (name: string)
    ensures name != [] && IsName(name)
    decreases items, 0, 0
  {
    if items == [] then "e" else "c" + JsonName(items[0]) + ItemsName(items[1..])
  }

  ghost function FieldsName(j: Json, order: seq<string>): (name: string)
    requires j.Obj? && forall k :: k in order ==> k in j.fields
    ensures name != [] && IsName(name)
    decreases j, 1, |order|
  {
    if order == [] then "e"
    else "c" + StringName(order[0]) + JsonName(j.fields[order[0]]) + FieldsName(j, order[1..])
  }

  /** The first letter tells the kind of value, and what follows it its contents. */
  ghost function Letter(j: Json): char {
    match j
    case Null => 'n'
    case Bool(b) => if b then 't' else 'f'
    case Num(_) => 'd'
    case Str(_) => 's'
    case Arr(_) => 'a'
    case Obj(_) => 'o'
  }

  ghost function Contents(j: Json): string {
    match j
    case Null => ""
    case Bool(_) => ""
    case Num(n) => IntName(n)
    case Str(s) => StringName(s)
    case Arr(items) => ItemsName(items)
    case Obj(fields) => FieldsName(j, Order(fields.Keys))
  }

  lemma NameSplits(j: Json, x: string)
    ensures JsonName(j) + x == [Letter(j)] + (Contents(j) + x)
  {
    hide Order, FieldsName, ItemsName, StringName, IntName;
    assert JsonName(j) == [Letter(j)] + Contents(j);
  }

  /** A name tells the value, and what comes after it. */
  lemma {:induction false} JsonIsDelimited(j: Json, k: Json, x: string, y: string)
    requires JsonName(j) + x == JsonName(k) + y
    ensures j == k && x == y
    decreases j, 2, 0
  {
    NameSplits(j, x);
    NameSplits(k, y);
    SameHead(Letter(j), Letter(k), Contents(j) + x, Contents(k) + y);
    ContentsAreDelimited(j, k, x, y);
  }

  lemma {:induction false} ContentsAreDelimited(j: Json, k: Json, x: string, y: string)
    requires Letter(j) == Letter(k) && Contents(j) + x == Contents(k) + y
    ensures j == k && x == y
    decreases j, 1, |Order(if j.Obj? then j.fields.Keys else {})| + 1
  {
    hide StringName, IntName, ItemsName, FieldsName;
    match j {
      case Num(n) => IntIsDelimited(n, k.n, x, y);
      case Str(s) => StringIsDelimited(s, k.s, x, y);
      case Arr(items) => ItemsAreDelimited(items, k.items, x, y);
      case Obj(fields) =>
        var o, p := Order(fields.Keys), Order(k.fields.Keys);
        FieldsAreDelimited(j, o, k, p, x, y);
        SameFields(fields, k.fields, o);
      case _ =>
        assert "" + x == x && "" + y == y;
    }
  }

  lemma SameFields(f: map<string, Json>, g: map<string, Json>, order: seq<string>)
    requires (forall key :: key in order <==> key in f) && (forall key :: key in order <==> key in g)
    requires forall key :: key in order ==> f[key] == g[key]
    ensures f == g
  {
    assert f.Keys == g.Keys;
  }

  lemma {:induction false} ItemsAreDelimited(a: seq<Json>, b: seq<Json>, x: string, y: string)
    requires ItemsName(a) + x == ItemsName(b) + y
    ensures a == b && x == y
    decreases a, 0, 0
  {
    hide JsonName;
    ItemsSplit(a, x);
    ItemsSplit(b, y);
    SameHead(if a == [] then 'e' else 'c', if b == [] then 'e' else 'c', ItemsRest(a, x), ItemsRest(b, y));
    if a != [] {
      JsonIsDelimited(a[0], b[0], ItemsName(a[1..]) + x, ItemsName(b[1..]) + y);
      ItemsAreDelimited(a[1..], b[1..], x, y);
      assert a == [a[0]] + a[1..] && b == [b[0]] + b[1..];
    }
  }

  ghost function ItemsRest(a: seq<Json>, x: string): string {
    if a == [] then x else JsonName(a[0]) + (ItemsName(a[1..]) + x)
  }

  lemma ItemsSplit(a: seq<Json>, x: string)
    ensures ItemsName(a) + x == [if a == [] then 'e' else 'c'] + ItemsRest(a, x)
  {
    hide JsonName;
  }

  lemma {:induction false} FieldsAreDelimited(j: Json, o: seq<string>, k: Json, p: seq<string>, x: string, y: string)
    requires j.Obj? && k.Obj? && (forall key :: key in o ==> key in j.fields) && (forall key :: key in p ==> key in k.fields)
    requires FieldsName(j, o) + x == FieldsName(k, p) + y
    ensures o == p && x == y && forall key :: key in o ==> j.fields[key] == k.fields[key]
    decreases j, 1, |o|
  {
    hide JsonName, StringName;
    FieldsSplit(j, o, x);
    FieldsSplit(k, p, y);
    SameHead(if o == [] then 'e' else 'c', if p == [] then 'e' else 'c', FieldsRest(j, o, x), FieldsRest(k, p, y));
    if o != [] {
      var u, v := FieldsName(j, o[1..]) + x, FieldsName(k, p[1..]) + y;
      StringIsDelimited(o[0], p[0], JsonName(j.fields[o[0]]) + u, JsonName(k.fields[p[0]]) + v);
      JsonIsDelimited(j.fields[o[0]], k.fields[p[0]], u, v);
      FieldsAreDelimited(j, o[1..], k, p[1..], x, y);
      assert o == [o[0]] + o[1..] && p == [p[0]] + p[1..];
    }
  }

  ghost function FieldsRest(j: Json, o: seq<string>, x: string): string
    requires j.Obj? && forall key :: key in o ==> key in j.fields
  {
    if o == [] then x else StringName(o[0]) + (JsonName(j.fields[o[0]]) + (FieldsName(j, o[1..]) + x))
  }

  lemma FieldsSplit(j: Json, o: seq<string>, x: string)
    requires j.Obj? && forall key :: key in o ==> key in j.fields
    ensures FieldsName(j, o) + x == [if o == [] then 'e' else 'c'] + FieldsRest(j, o, x)
  {
    if o != [] { Regroup("c", StringName(o[0]), JsonName(j.fields[o[0]]), FieldsName(j, o[1..]), x); }
    hide JsonName, StringName;
  }

  lemma Regroup(a: string, b: string, c: string, d: string, e: string)
    ensures a + b + c + d + e == a + (b + (c + (d + e)))
  {
  }

  ghost function Parse(text: string): Option<Json> {
    if exists j :: JsonName(j) == text then
      var j :| JsonName(j) == text;
      Some(j)
    else None
  }

  /** The law of `Lawful` is met. */
  lemma LawfulCodecExists()
    ensures exists c :: Lawful(c)
  {
    hide JsonName;
    var c := Codec(JsonName, Parse);
    forall j ensures DataText(c.render(j)) && c.parse(c.render(j)) == Some(j) {
      NameIsData(JsonName(j));
      var k := Parse(JsonName(j)).value;
      assert JsonName(k) + "" == JsonName(j) + "";
      JsonIsDelimited(k, j, "", "");
    }
    assert Lawful(c);
  }

  lemma NameIsData(name: string)
    requires name != [] && IsName(name)
    ensures DataText(name)
  {
    assert "[DONE]"[0] == '[';
  }
}
