/** Strings as the program uses them: code-point order, Python's notion of
    whitespace, and the marker that tells a room from a person. */
module Text {
  import opened Sorting

  datatype Option<+T> = None | Some(value: T)

  /** Room names carry a leading marker, so one `to` field addresses either kind. */
  predicate IsRoom(name: string) {
    |name| > 0 && name[0] == '#'
  }

  /** The characters `str.isspace` accepts; U+001F is one of them. */
  predicate IsSpace(c: char) {
    || '\t' <= c <= '\r' || '\U{1C}' <= c <= ' ' || c == '\U{85}' || c == '\U{A0}'
    || c == '\U{1680}' || '\U{2000}' <= c <= '\U{200A}' || c == '\U{2028}' || c == '\U{2029}'
    || c == '\U{202F}' || c == '\U{205F}' || c == '\U{3000}'
  }

  predicate IsBlank(s: string) {
    forall i | 0 <= i < |s| :: IsSpace(s[i])
  }

  /** `str.strip`: no whitespace at either end. */
  function Strip(s: string): (r: string)
    ensures |r| <= |s| && (r == "" <==> IsBlank(s))
    ensures r != "" ==> !IsSpace(r[0]) && !IsSpace(r[|r| - 1])
    decreases |s|
  {
    if s == "" then s
    else if IsSpace(s[0]) then
      assert IsBlank(s) <==> IsBlank(s[1..]) by { assert forall i | 1 <= i < |s| :: s[i] == s[1..][i - 1]; }
      Strip(s[1..])
    else if IsSpace(s[|s| - 1]) then
      assert s[..|s| - 1][0] == s[0];
      Strip(s[..|s| - 1])
    else s
  }

  /** Python compares strings by code point, first difference first. */
  predicate LexLeq(a: string, b: string) {
    a == "" || (b != "" && (a[0] < b[0] || (a[0] == b[0] && LexLeq(a[1..], b[1..]))))
  }

  lemma {:induction false} LexTotal(a: string, b: string)
    ensures LexLeq(a, a)
    ensures LexLeq(a, b) || LexLeq(b, a)
    ensures LexLeq(a, b) && LexLeq(b, a) ==> a == b
  {
    if a != "" {
      LexTotal(a[1..], a[1..]);
      if b != "" && a[0] == b[0] {
        LexTotal(a[1..], b[1..]);
        if LexLeq(a, b) && LexLeq(b, a) {
          assert a == [a[0]] + a[1..] == [b[0]] + b[1..] == b;
        }
      }
    }
  }

  lemma {:induction false} LexTransitive(a: string, b: string, c: string)
    requires LexLeq(a, b) && LexLeq(b, c)
    ensures LexLeq(a, c)
  {
    if a != "" && a[0] == b[0] == c[0] {
      LexTransitive(a[1..], b[1..], c[1..]);
    }
  }

  lemma LexIsTotalOrder()
    ensures TotalOrder(LexLeq)
  {
    forall a: string, b: string
      ensures LexLeq(a, a) && (LexLeq(a, b) || LexLeq(b, a)) && (LexLeq(a, b) && LexLeq(b, a) ==> a == b)
    {
      LexTotal(a, b);
    }
    forall a: string, b: string, c: string | LexLeq(a, b) && LexLeq(b, c) ensures LexLeq(a, c) {
      LexTransitive(a, b, c);
    }
  }

  /** `sorted(names)`: every name once, in code-point order. */
  function SortNames(names: set<string>): (r: seq<string>)
    ensures Elements(r) == names && Ascending(r, LexLeq)
  {
    LexIsTotalOrder();
    Sort(names, LexLeq)
  }
}
