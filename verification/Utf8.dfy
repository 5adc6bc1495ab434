/** UTF-8, section 3 of RFC 3629: the encoder, the strict decoder, and why splitting
    bytes at newlines is the same as splitting characters at newlines. */
module Utf8 {
  import opened Text

  type Byte = b: int | 0 <= b < 256

  const NEWLINE: Byte := 0x0A

  // ----------------------------------------------------------------- encoding

  function EncodeChar(c: char): (bytes: seq<Byte>)
    ensures 1 <= |bytes| <= 4
  {
    var n := c as int;
    if n < 0x80 then [n]
    else if n < 0x800 then [0xC0 + n / 0x40, 0x80 + n % 0x40]
    else if n < 0x10000 then [0xE0 + n / 0x1000, 0x80 + n / 0x40 % 0x40, 0x80 + n % 0x40]
    else [0xF0 + n / 0x40000, 0x80 + n / 0x1000 % 0x40, 0x80 + n / 0x40 % 0x40, 0x80 + n % 0x40]
  }

  function Encode(s: string): seq<Byte> {
    if s == "" then [] else EncodeChar(s[0]) + Encode(s[1..])
  }

  // ----------------------------------------------------------------- decoding

  predicate IsTail(b: Byte) {
    0x80 <= b < 0xC0
  }

  /** A code point that is a character: not a surrogate, not past the last plane. */
  predicate IsScalar(n: int) {
    0 <= n < 0xD800 || 0xE000 <= n < 0x110000
  }

  function Code2(a: int, b: int): int { (a - 0xC0) * 0x40 + (b - 0x80) }

  function Code3(a: int, b: int, c: int): int { (a - 0xE0) * 0x1000 + (b - 0x80) * 0x40 + (c - 0x80) }

  function Code4(a: int, b: int, c: int, d: int): int {
    (a - 0xF0) * 0x40000 + (b - 0x80) * 0x1000 + (c - 0x80) * 0x40 + (d - 0x80)
  }

  /** The character at the front, if the bytes there are its one encoding. */
  function DecodeChar(bytes: seq<Byte>): (r: Option<(char, nat)>)
    requires bytes != []
    ensures r.Some? ==> 1 <= r.value.1 <= |bytes|
  {
    var b := bytes[0];
    if b < 0x80 then Some((b as char, 1))
    else if 0xC0 <= b < 0xE0 && |bytes| >= 2 && IsTail(bytes[1]) then
      var n := Code2(b, bytes[1]);
      if 0x80 <= n then Some((n as char, 2)) else None
    else if 0xE0 <= b < 0xF0 && |bytes| >= 3 && IsTail(bytes[1]) && IsTail(bytes[2]) then
      var n := Code3(b, bytes[1], bytes[2]);
      if 0x800 <= n && IsScalar(n) then Some((n as char, 3)) else None
    else if 0xF0 <= b < 0xF8 && |bytes| >= 4 && IsTail(bytes[1]) && IsTail(bytes[2]) && IsTail(bytes[3]) then
      var n := Code4(b, bytes[1], bytes[2], bytes[3]);
      if 0x10000 <= n && IsScalar(n) then Some((n as char, 4)) else None
    else None
  }

  /** All or nothing: one bad sequence refuses the whole line. */
  function Decode(bytes: seq<Byte>): Option<string> {
    if bytes == [] then Some("") else
      var first := DecodeChar(bytes);
      if first.None? then None else
        var rest := Decode(bytes[first.value.1..]);
        if rest.None? then None else Some([first.value.0] + rest.value)
  }

  // --------------------------------------------------------------- round trips

  /** Base-64 digits and the number they make. */
  lemma Digits(n: int)
    requires 0 <= n
    ensures n == n / 0x40 * 0x40 + n % 0x40
    ensures n / 0x40 == n / 0x1000 * 0x40 + n / 0x40 % 0x40
    ensures n / 0x1000 == n / 0x40000 * 0x40 + n / 0x1000 % 0x40
  {}

  lemma DigitsOf(a: int, b: int, c: int, d: int)
    requires 0 <= a && 0 <= b < 0x40 && 0 <= c < 0x40 && 0 <= d < 0x40
    ensures var n := a * 0x40000 + b * 0x1000 + c * 0x40 + d;
      n / 0x40000 == a && n / 0x1000 % 0x40 == b && n / 0x40 % 0x40 == c && n % 0x40 == d && n / 0x1000 == a * 0x40 + b
  {
    var n := a * 0x40000 + b * 0x1000 + c * 0x40 + d;
    assert n % 0x40 == d && n / 0x40 == a * 0x1000 + b * 0x40 + c;
    assert n / 0x40 % 0x40 == c && n / 0x1000 == a * 0x40 + b;
  }

  lemma CharRoundTrip(c: char, rest: seq<Byte>)
    ensures DecodeChar(EncodeChar(c) + rest) == Some((c, |EncodeChar(c)|))
  {
    var n := c as int;
    var bytes := EncodeChar(c) + rest;
    assert IsScalar(n);
    Digits(n);
    if n < 0x80 {
    } else if n < 0x800 {
      assert bytes[0] == 0xC0 + n / 0x40 && bytes[1] == 0x80 + n % 0x40;
      assert Code2(bytes[0], bytes[1]) == n;
    } else if n < 0x10000 {
      assert bytes[0] == 0xE0 + n / 0x1000 && bytes[1] == 0x80 + n / 0x40 % 0x40 && bytes[2] == 0x80 + n % 0x40;
      assert Code3(bytes[0], bytes[1], bytes[2]) == n;
    } else {
      assert bytes[0] == 0xF0 + n / 0x40000 && bytes[1] == 0x80 + n / 0x1000 % 0x40;
      assert bytes[2] == 0x80 + n / 0x40 % 0x40 && bytes[3] == 0x80 + n % 0x40;
      assert Code4(bytes[0], bytes[1], bytes[2], bytes[3]) == n;
    }
  }

  function Before(s: string, rest: Option<string>): Option<string> {
    if rest.None? then None else Some(s + rest.value)
  }

  lemma DecodeFirst(c: char, rest: seq<Byte>)
    ensures Decode(EncodeChar(c) + rest) == Before([c], Decode(rest))
  {
    CharRoundTrip(c, rest);
    assert (EncodeChar(c) + rest)[|EncodeChar(c)|..] == rest;
  }

  lemma BeforeOn(a: string, b: string, rest: Option<string>)
    ensures Before(a, Before(b, rest)) == Before(a + b, rest)
  {
    if rest.Some? { assert a + (b + rest.value) == a + b + rest.value; }
  }

  /** What is encoded decodes to itself, whatever follows it. */
  lemma {:induction false} DecodeEncoded(s: string, rest: seq<Byte>)
    ensures Decode(Encode(s) + rest) == Before(s, Decode(rest))
    decreases |s|
  {
    if s == "" {
      assert Encode(s) + rest == rest;
      assert Decode(rest).Some? ==> s + Decode(rest).value == Decode(rest).value;
    } else {
      var more := Encode(s[1..]) + rest;
      assert Encode(s) + rest == EncodeChar(s[0]) + more;
      DecodeFirst(s[0], more);
      DecodeEncoded(s[1..], rest);
      BeforeOn([s[0]], s[1..], Decode(rest));
      assert [s[0]] + s[1..] == s;
    }
  }

  lemma RoundTrip(s: string)
    ensures Decode(Encode(s)) == Some(s)
  {
    DecodeEncoded(s, []);
    assert Encode(s) + [] == Encode(s) && s + "" == s;
  }

  lemma CharStrict(bytes: seq<Byte>)
    requires bytes != [] && DecodeChar(bytes).Some?
    ensures EncodeChar(DecodeChar(bytes).value.0) == bytes[..DecodeChar(bytes).value.1]
  {
    var (c, k) := DecodeChar(bytes).value;
    if k == 2 {
      DigitsOf(0, 0, bytes[0] - 0xC0, bytes[1] - 0x80);
    } else if k == 3 {
      DigitsOf(0, bytes[0] - 0xE0, bytes[1] - 0x80, bytes[2] - 0x80);
    } else if k == 4 {
      DigitsOf(bytes[0] - 0xF0, bytes[1] - 0x80, bytes[2] - 0x80, bytes[3] - 0x80);
    }
  }

  /** The decoder is strict: it accepts nothing but the encoding of what it returns. */
  lemma {:induction false} DecodeIsStrict(bytes: seq<Byte>)
    requires Decode(bytes).Some?
    ensures Encode(Decode(bytes).value) == bytes
    decreases |bytes|
  {
    if bytes != [] {
      var first := DecodeChar(bytes).value;
      CharStrict(bytes);
      DecodeIsStrict(bytes[first.1..]);
      var s := Decode(bytes).value;
      assert s[0] == first.0 && s[1..] == Decode(bytes[first.1..]).value;
      assert bytes == bytes[..first.1] + bytes[first.1..];
    }
  }

  lemma {:induction false} EncodeOn(a: string, b: string)
    ensures Encode(a + b) == Encode(a) + Encode(b)
    decreases |a|
  {
    if a == "" {
      assert a + b == b;
    } else {
      assert (a + b)[1..] == a[1..] + b;
      EncodeOn(a[1..], b);
    }
  }

  // ----------------------------------------------------------------- newlines

  /** No byte of a character is a newline, except of the newline itself. */
  lemma CharHasNoNewline(c: char)
    ensures NEWLINE in EncodeChar(c) <==> c == '\n'
  {
    if c == '\n' { assert EncodeChar(c) == [NEWLINE]; }
  }

  lemma {:induction false} NoNewline(s: string)
    requires '\n' !in s
    ensures NEWLINE !in Encode(s)
  {
    if s != "" {
      CharHasNoNewline(s[0]);
      NoNewline(s[1..]);
    }
  }

  /** Cut at every delimiter; the last piece is what follows the last one. */
  function Split<T(==)>(s: seq<T>, delimiter: T): (pieces: seq<seq<T>>)
    ensures |pieces| >= 1
  {
    if s == [] then [[]]
    else if s[0] == delimiter then [[]] + Split(s[1..], delimiter)
    else
      var rest := Split(s[1..], delimiter);
      [[s[0]] + rest[0]] + rest[1..]
  }

  lemma {:induction false} SplitPrefix<T>(a: seq<T>, s: seq<T>, delimiter: T)
    requires delimiter !in a
    ensures Split(a + s, delimiter) == [a + Split(s, delimiter)[0]] + Split(s, delimiter)[1..]
    decreases |a|
  {
    if a == [] {
      assert a + s == s && a + Split(s, delimiter)[0] == Split(s, delimiter)[0];
    } else {
      assert (a + s)[1..] == a[1..] + s;
      SplitPrefix(a[1..], s, delimiter);
      assert [a[0]] + (a[1..] + Split(s, delimiter)[0]) == a + Split(s, delimiter)[0];
    }
  }

  function DecodeEach(lines: seq<seq<Byte>>): (r: seq<Option<string>>)
    ensures |r| == |lines|
  {
    seq(|lines|, i requires 0 <= i < |lines| => Decode(lines[i]))
  }

  function AllGood(lines: seq<string>): (r: seq<Option<string>>)
    ensures |r| == |lines|
  {
    seq(|lines|, i requires 0 <= i < |lines| => Some(lines[i]))
  }

  /** Byte framing is sound: for text that is valid UTF-8, cutting the bytes at 0x0A and
      decoding each line gives the lines of the decoded text. */
  lemma {:induction false} SplitThenDecode(s: string)
    ensures DecodeEach(Split(Encode(s), NEWLINE)) == AllGood(Split(s, '\n'))
    decreases |s|
  {
    if s == "" {
      assert Split(Encode(s), NEWLINE) == [[]] && Split(s, '\n') == [[]];
    } else {
      var c, bytes := s[0], Encode(s[1..]);
      var lines, texts := Split(bytes, NEWLINE), Split(s[1..], '\n');
      SplitThenDecode(s[1..]);
      LinesDecode(lines, texts);
      CharHasNoNewline(c);
      if c == '\n' {
        assert Encode(s) == [NEWLINE] + bytes && Encode(s)[1..] == bytes;
        LinesMatch([[]] + lines, [[]] + texts);
      } else {
        SplitPrefix(EncodeChar(c), bytes, NEWLINE);
        FirstLineDecodes(c, lines[0], texts[0]);
        LinesMatch([EncodeChar(c) + lines[0]] + lines[1..], [[c] + texts[0]] + texts[1..]);
      }
    }
  }

  lemma {:induction false} LinesDecode(lines: seq<seq<Byte>>, texts: seq<string>)
    requires DecodeEach(lines) == AllGood(texts)
    ensures |lines| == |texts| && forall i | 0 <= i < |lines| :: Decode(lines[i]) == Some(texts[i])
  {
    assert |DecodeEach(lines)| == |AllGood(texts)|;
    forall i | 0 <= i < |lines| ensures Decode(lines[i]) == Some(texts[i]) {
      assert DecodeEach(lines)[i] == AllGood(texts)[i];
    }
  }

  lemma {:induction false} LinesMatch(lines: seq<seq<Byte>>, texts: seq<string>)
    requires |lines| == |texts| && forall i | 0 <= i < |lines| :: Decode(lines[i]) == Some(texts[i])
    ensures DecodeEach(lines) == AllGood(texts)
  {}

  lemma FirstLineDecodes(c: char, line: seq<Byte>, text: string)
    requires Decode(line) == Some(text)
    ensures Decode(EncodeChar(c) + line) == Some([c] + text)
  {
    assert Encode([c]) == EncodeChar(c) by { assert [c][1..] == ""; }
    DecodeEncoded([c], line);
  }

  /** For every valid stream, stated on its bytes. */
  lemma FramingIsSound(bytes: seq<Byte>)
    requires Decode(bytes).Some?
    ensures DecodeEach(Split(bytes, NEWLINE)) == AllGood(Split(Decode(bytes).value, '\n'))
  {
    DecodeIsStrict(bytes);
    SplitThenDecode(Decode(bytes).value);
  }

  /** `bytearray.find`: the first newline, or the length when there is none. */
  function FirstNewline(bytes: seq<Byte>): (k: nat)
    ensures k <= |bytes| && NEWLINE !in bytes[..k]
    ensures k < |bytes| ==> bytes[k] == NEWLINE
    ensures k == |bytes| <==> NEWLINE !in bytes
  {
    if bytes == [] || bytes[0] == NEWLINE then 0 else
      var k := FirstNewline(bytes[1..]) + 1;
      assert bytes[..k] == [bytes[0]] + bytes[1..][..k - 1];
      assert bytes == [bytes[0]] + bytes[1..];
      k
  }

  lemma SplitAtFirst(bytes: seq<Byte>, k: nat)
    requires k < |bytes| && bytes[k] == NEWLINE && NEWLINE !in bytes[..k]
    ensures Split(bytes, NEWLINE) == [bytes[..k]] + Split(bytes[k + 1..], NEWLINE)
  {
    var tail := bytes[k..];
    assert bytes == bytes[..k] + tail && tail[1..] == bytes[k + 1..];
    SplitPrefix(bytes[..k], tail, NEWLINE);
    assert bytes[..k] + [] == bytes[..k];
  }

  /** A valid line, its newline, and a valid rest make a valid stream. */
  lemma LineThenRest(line: seq<Byte>, rest: seq<Byte>)
    requires Decode(line).Some? && Decode(rest).Some?
    ensures Decode(line + [NEWLINE] + rest).Some?
  {
    var text := Decode(line).value;
    DecodeIsStrict(line);
    EncodeOn(text, "\n");
    assert Encode("\n") == [NEWLINE] by { assert "\n"[1..] == ""; }
    DecodeEncoded(text + "\n", rest);
  }

  /** The converse: if every line is valid, so is the stream. */
  lemma {:induction false} LinesMakeTheStream(bytes: seq<Byte>)
    requires forall i | 0 <= i < |Split(bytes, NEWLINE)| :: Decode(Split(bytes, NEWLINE)[i]).Some?
    ensures Decode(bytes).Some?
    decreases |bytes|
  {
    var k := FirstNewline(bytes);
    if k < |bytes| {
      var line, rest := bytes[..k], bytes[k + 1..];
      SplitAtFirst(bytes, k);
      assert Split(bytes, NEWLINE)[0] == line;
      forall i | 0 <= i < |Split(rest, NEWLINE)| ensures Decode(Split(rest, NEWLINE)[i]).Some? {
        assert Split(rest, NEWLINE)[i] == Split(bytes, NEWLINE)[i + 1];
      }
      LinesMakeTheStream(rest);
      LineThenRest(line, rest);
      assert bytes == line + [NEWLINE] + rest;
    } else {
      SplitPrefix(bytes, [], NEWLINE);
      assert bytes + [] == bytes;
      assert Split(bytes, NEWLINE)[0] == bytes;
    }
  }
}
