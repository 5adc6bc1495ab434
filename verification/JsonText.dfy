/** The hypothesis on the `json` library can be met: a printer that writes every value as
    a text of its own, with no raw newline, and the parser that undoes it. */
module JsonText {
  import opened Text
  import opened Sorting
  import opened Frames
  import Channels

  // ------------------------------------------------------------------ printing

  /** Binary digits, lowest first, and a point. */
  function Num(n: nat): string {
    if n == 0 then "." else (if n % 2 == 1 then "1" else "0") + Num(n / 2)
  }

  function Int(n: int): string {
    if n < 0 then "-" + Num(-n) else "+" + Num(n)
  }

  function Escape(c: char): string {
    if c == '\n' then ['\\', 'n'] else if c == '"' || c == '\\' then ['\\', c] else [c]
  }

  function Chars(s: string): string {
    if s == "" then ['"'] else Escape(s[0]) + Chars(s[1..])
  }

  function Print(j: Json): string
    decreases j, 1, 0
  {
    match j
    case JNull => "n"
    case JBool(b) => if b then "t" else "f"
    case JInt(n) => "i" + Int(n)
    case JReal(b) => "r" + Num(b)
    case JStr(s) => ['"'] + Chars(s)
    case JArr(_) => "[" + Items(j, 0)
    case JObj(_) => "{" + Fields(j, SortNames(j.fields.Keys))
  }

  function Items(j: Json, i: nat): string
    requires j.JArr? && i <= |j.items|
    decreases j, 0, |j.items| - i
  {
    if i == |j.items| then "]" else Print(j.items[i]) + Items(j, i + 1)
  }

  function Fields(j: Json, keys: seq<string>): string
    requires j.JObj? && forall k | k in keys :: k in j.fields
    decreases j, 0, |keys|
  {
    if keys == [] then "}" else ['"'] + Chars(keys[0]) + Print(j.fields[keys[0]]) + Fields(j, keys[1..])
  }

  // ------------------------------------------------- every text can be told apart

  lemma Apart(a: string, x: string, b: string, y: string, c: char, d: char)
    requires [c] + a + x == [d] + b + y
    ensures c == d && a + x == b + y
  {
    var l, r := [c] + a + x, [d] + b + y;
    assert l[0] == c && r[0] == d && l[1..] == a + x && r[1..] == b + y;
  }

  lemma {:induction false} NumFree(a: nat, b: nat, x: string, y: string)
    requires Num(a) + x == Num(b) + y
    ensures a == b && x == y
    decreases a
  {
    var l, r := Num(a) + x, Num(b) + y;
    assert l[0] == Num(a)[0] && r[0] == Num(b)[0];
    assert l[1..] == Num(a)[1..] + x && r[1..] == Num(b)[1..] + y;
    if a == 0 || b == 0 {
      assert Num(a)[1..] == "" && Num(b)[1..] == "";
      assert "" + x == x && "" + y == y;
    } else {
      assert Num(a)[1..] == Num(a / 2) && Num(b)[1..] == Num(b / 2);
      NumFree(a / 2, b / 2, x, y);
    }
  }

  lemma IntFree(a: int, b: int, x: string, y: string)
    requires Int(a) + x == Int(b) + y
    ensures a == b && x == y
  {
    var m, n := if a < 0 then -a else a, if b < 0 then -b else b;
    Apart(Num(m), x, Num(n), y, if a < 0 then '-' else '+', if b < 0 then '-' else '+');
    NumFree(m, n, x, y);
  }

  lemma {:induction false} CharsFree(s: string, t: string, x: string, y: string)
    requires Chars(s) + x == Chars(t) + y
    ensures s == t && x == y
    decreases |s|
  {
    var l, r := Chars(s) + x, Chars(t) + y;
    if s == "" || t == "" {
      CharsEnd(s, t, x, y);
    } else {
      EscapeFree(s[0], t[0], Chars(s[1..]) + x, Chars(t[1..]) + y, l, r);
      CharsFree(s[1..], t[1..], x, y);
      assert s == [s[0]] + s[1..] && t == [t[0]] + t[1..];
    }
  }

  lemma CharsEnd(s: string, t: string, x: string, y: string)
    requires Chars(s) + x == Chars(t) + y && (s == "" || t == "")
    ensures s == "" && t == "" && x == y
  {
    var l, r := Chars(s) + x, Chars(t) + y;
    assert l[0] == Chars(s)[0] && r[0] == Chars(t)[0];
    assert s == "" && t == "";
    assert l[1..] == x && r[1..] == y;
  }

  lemma EscapeFree(c: char, d: char, x: string, y: string, l: string, r: string)
    requires l == r && l == Escape(c) + x && r == Escape(d) + y
    ensures c == d && x == y
  {
    assert l[0] == Escape(c)[0] && r[0] == Escape(d)[0];
    if |Escape(c)| == 2 {
      assert l[1] == Escape(c)[1] && r[1] == Escape(d)[1];
      assert l[2..] == x && r[2..] == y;
    } else {
      assert l[1..] == x && r[1..] == y;
    }
  }

  /** The first letter tells which kind of value follows. */
  function Mark(j: Json): char {
    match j
    case JNull => 'n' case JBool(b) => if b then 't' else 'f' case JInt(_) => 'i' case JReal(_) => 'r'
    case JStr(_) => '"' case JArr(_) => '[' case JObj(_) => '{'
  }

  function Rest(j: Json): string {
    match j
    case JNull => "" case JBool(_) => "" case JInt(n) => Int(n) case JReal(b) => Num(b)
    case JStr(s) => Chars(s) case JArr(_) => Items(j, 0) case JObj(_) => Fields(j, SortNames(j.fields.Keys))
  }

  lemma PrintIs(j: Json)
    ensures Print(j) == [Mark(j)] + Rest(j)
  {}

  lemma {:induction false} PrintFree(a: Json, b: Json, x: string, y: string)
    requires Print(a) + x == Print(b) + y
    ensures a == b && x == y
    decreases a, 1, 0
  {
    PrintIs(a);
    PrintIs(b);
    Apart(Rest(a), x, Rest(b), y, Mark(a), Mark(b));
    match a
    case JNull => assert "" + x == x && "" + y == y;
    case JBool(_) => assert "" + x == x && "" + y == y;
    case JInt(n) => IntFree(n, b.whole, x, y);
    case JReal(n) => NumFree(n, b.bits, x, y);
    case JStr(s) => CharsFree(s, b.text, x, y);
    case JArr(_) =>
      ItemsFree(a, b, 0, x, y);
      assert a.items == b.items;
    case JObj(_) => ObjectFree(a, b, x, y);
  }

  lemma {:induction false} ItemsFree(a: Json, b: Json, i: nat, x: string, y: string)
    requires a.JArr? && b.JArr? && i <= |a.items| && i <= |b.items| && Items(a, i) + x == Items(b, i) + y
    ensures |a.items| == |b.items| && x == y && forall k | i <= k < |a.items| :: a.items[k] == b.items[k]
    decreases a, 0, |a.items| - i
  {
    var l, r := Items(a, i) + x, Items(b, i) + y;
    if i == |a.items| || i == |b.items| {
      assert l[0] == Items(a, i)[0] && r[0] == Items(b, i)[0];
      if i < |a.items| { PrintIs(a.items[i]); }
      if i < |b.items| { PrintIs(b.items[i]); }
      assert l[1..] == x && r[1..] == y;
    } else {
      assert l == Print(a.items[i]) + (Items(a, i + 1) + x) && r == Print(b.items[i]) + (Items(b, i + 1) + y);
      PrintFree(a.items[i], b.items[i], Items(a, i + 1) + x, Items(b, i + 1) + y);
      ItemsFree(a, b, i + 1, x, y);
    }
  }

  lemma {:induction false} FieldsFree(a: Json, b: Json, ks: seq<string>, ls: seq<string>, x: string, y: string)
    requires a.JObj? && b.JObj? && (forall k | k in ks :: k in a.fields) && (forall k | k in ls :: k in b.fields)
    requires Fields(a, ks) + x == Fields(b, ls) + y
    ensures ks == ls && x == y && forall k | k in ks :: a.fields[k] == b.fields[k]
    decreases a, 0, |ks|
  {
    if ks == [] || ls == [] {
      FieldsEnd(a, b, ks, ls, x, y);
    } else {
      var k, n := ks[0], ls[0];
      var v, v' := Print(a.fields[k]), Print(b.fields[n]);
      var more, more' := Fields(a, ks[1..]) + x, Fields(b, ls[1..]) + y;
      FieldsHead(a, ks, x);
      FieldsHead(b, ls, y);
      Apart(Chars(k), v + more, Chars(n), v' + more', '"', '"');
      CharsFree(k, n, v + more, v' + more');
      PrintFree(a.fields[k], b.fields[n], more, more');
      FieldsFree(a, b, ks[1..], ls[1..], x, y);
      assert ks == [k] + ks[1..] && ls == [n] + ls[1..];
    }
  }

  lemma FieldsHead(j: Json, keys: seq<string>, x: string)
    requires j.JObj? && keys != [] && forall k | k in keys :: k in j.fields
    ensures Fields(j, keys) + x == ['"'] + Chars(keys[0]) + (Print(j.fields[keys[0]]) + (Fields(j, keys[1..]) + x))
  {
    var v, more := Print(j.fields[keys[0]]), Fields(j, keys[1..]);
    Regroup(['"'] + Chars(keys[0]), v, more, x);
  }

  lemma Regroup(a: string, b: string, c: string, d: string)
    ensures a + b + c + d == a + (b + (c + d))
  {}

  lemma FieldsEnd(a: Json, b: Json, ks: seq<string>, ls: seq<string>, x: string, y: string)
    requires a.JObj? && b.JObj? && (forall k | k in ks :: k in a.fields) && (forall k | k in ls :: k in b.fields)
    requires Fields(a, ks) + x == Fields(b, ls) + y && (ks == [] || ls == [])
    ensures ks == [] && ls == [] && x == y
  {
    var l, r := Fields(a, ks) + x, Fields(b, ls) + y;
    assert l[0] == Fields(a, ks)[0] && r[0] == Fields(b, ls)[0];
    assert ks == [] && ls == [];
    assert l[1..] == x && r[1..] == y;
  }

  lemma {:induction false} ObjectFree(a: Json, b: Json, x: string, y: string)
    requires a.JObj? && b.JObj?
    requires Fields(a, SortNames(a.fields.Keys)) + x == Fields(b, SortNames(b.fields.Keys)) + y
    ensures a == b && x == y
    decreases a, 0, |SortNames(a.fields.Keys)| + 1
  {
    var ks, ls := SortNames(a.fields.Keys), SortNames(b.fields.Keys);
    FieldsFree(a, b, ks, ls, x, y);
    assert a.fields.Keys == Elements(ks) && b.fields.Keys == Elements(ls);
    SameMap(a.fields, b.fields, ks);
  }

  lemma SameMap(m: map<string, Json>, n: map<string, Json>, ks: seq<string>)
    requires m.Keys == Elements(ks) && n.Keys == Elements(ks) && forall k | k in ks :: m[k] == n[k]
    ensures m == n
  {
    assert forall k | k in Elements(ks) :: k in ks;
  }

  // ------------------------------------------------------------- no raw newline

  lemma {:induction false} NumIsPlain(n: nat)
    ensures '\n' !in Num(n) && Num(n) != "" && Num(n)[|Num(n)| - 1] == '.'
  {
    if n != 0 { NumIsPlain(n / 2); }
  }

  lemma {:induction false} CharsArePlain(s: string)
    ensures '\n' !in Chars(s) && Chars(s) != "" && Chars(s)[|Chars(s)| - 1] == '"'
  {
    if s != "" { CharsArePlain(s[1..]); }
  }

  /** Nothing printed holds a newline, and nothing ends in a carriage return. */
  ghost predicate Plain(s: string) {
    '\n' !in s && s != "" && s[|s| - 1] != '\r'
  }

  lemma MarkedIsPlain(c: char, s: string)
    requires c != '\n' && c != '\r' && (s == "" || Plain(s))
    ensures Plain([c] + s)
  {
    assert s != "" ==> ([c] + s)[|s|] == s[|s| - 1];
  }

  lemma IntIsPlain(n: int)
    ensures Plain(Int(n))
  {
    var m := if n < 0 then -n else n;
    NumIsPlain(m);
    MarkedIsPlain(if n < 0 then '-' else '+', Num(m));
  }

  lemma {:induction false} PrintIsPlain(j: Json)
    ensures Plain(Print(j))
    decreases j, 1, 0
  {
    match j
    case JNull =>
    case JBool(_) =>
    case JInt(n) => IntIsPlain(n);
    case JReal(b) => NumIsPlain(b);
    case JStr(s) => CharsArePlain(s);
    case JArr(_) => ItemsArePlain(j, 0);
    case JObj(_) => FieldsArePlain(j, SortNames(j.fields.Keys));
    PrintIs(j);
    MarkedIsPlain(Mark(j), Rest(j));
  }

  lemma {:induction false} ItemsArePlain(j: Json, i: nat)
    requires j.JArr? && i <= |j.items|
    ensures Plain(Items(j, i))
    decreases j, 0, |j.items| - i
  {
    if i < |j.items| {
      PrintIsPlain(j.items[i]);
      ItemsArePlain(j, i + 1);
    }
  }

  lemma {:induction false} FieldsArePlain(j: Json, keys: seq<string>)
    requires j.JObj? && forall k | k in keys :: k in j.fields
    ensures Plain(Fields(j, keys))
    decreases j, 0, |keys|
  {
    if keys != [] {
      CharsArePlain(keys[0]);
      PrintIsPlain(j.fields[keys[0]]);
      FieldsArePlain(j, keys[1..]);
    }
  }

  // ------------------------------------------------------------------- a library

  /** The value a text was printed from, if it was. */
  ghost function Parse(text: string): Option<Json> {
    if exists j :: Print(j) == text then var j :| Print(j) == text; Some(j) else None
  }

  lemma ParsePrinted(j: Json)
    ensures Parse(Print(j)) == Some(j)
  {
    var back := Parse(Print(j)).value;
    assert Print(back) + "" == Print(j) + "";
    PrintFree(back, j, "", "");
  }

  /** There is a library as `Channels.Faithful` asks. */
  lemma SomeLibraryIsFaithful()
    ensures exists lib: Channels.JsonLib :: Channels.Faithful(lib)
  {
    var lib := Channels.JsonLib(j => Print(j), text => Parse(text));
    forall m: map<string, Json>
      ensures var text := lib.dumps(JObj(m)); lib.loads(text) == Some(JObj(m)) && Plain(text)
    {
      ParsePrinted(JObj(m));
      PrintIsPlain(JObj(m));
    }
    assert Channels.Faithful(lib);
  }
}
