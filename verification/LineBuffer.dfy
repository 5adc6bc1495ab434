/** im/common/codec.py, LineBuffer: a byte stream cut anywhere, turned into lines. */
module LineBuffers {
  import opened Text
  import opened Utf8

  const MAX_LINE_BYTES := 1024 * 1024

  /** What one `feed` gives back: lines, or the refusal it raises. */
  datatype Fed = Lines(lines: seq<string>) | NotUtf8 | TooLong

  /** Trailing carriage returns are dropped, however many. */
  function StripCr(s: string): (r: string)
    ensures r <= s && (r != "" ==> r[|r| - 1] != '\r')
    ensures s != "" && s[|s| - 1] != '\r' ==> r == s
  {
    if s != "" && s[|s| - 1] == '\r' then StripCr(s[..|s| - 1]) else s
  }

  /** The text of one raw line; None if it is not UTF-8. */
  function LineText(raw: seq<Byte>): Option<string> {
    var text := Decode(raw);
    if text.None? then None else Some(StripCr(text.value))
  }

  /** The complete lines at the front of some bytes, up to the first bad one. An empty
      line is no line. */
  datatype Drained = Drained(lines: Option<seq<string>>, rest: seq<Byte>)

  function Joined(lines: seq<string>, d: Drained): Drained {
    if d.lines.None? then d else Drained(Some(lines + d.lines.value), d.rest)
  }

  function Shown(line: string): seq<string> {
    if line == "" then [] else [line]
  }

  function AfterLine(line: Option<string>, rest: seq<Byte>, d: Drained): Drained {
    if line.None? then Drained(None, rest) else Joined(Shown(line.value), d)
  }

  function Drain(bytes: seq<Byte>): Drained
    decreases |bytes|
  {
    var k := FirstNewline(bytes);
    if k == |bytes| then Drained(Some([]), bytes)
    else AfterLine(LineText(bytes[..k]), bytes[k + 1..], Drain(bytes[k + 1..]))
  }

  /** One `feed`: what it gives back and what it keeps. */
  function Feeding(bytes: seq<Byte>, cap: nat): (Fed, seq<Byte>) {
    var d := Drain(bytes);
    if d.lines.None? then (NotUtf8, d.rest)
    else if |d.rest| > cap then (TooLong, [])
    else (Lines(d.lines.value), d.rest)
  }

  // ------------------------------------------------------------- what it means

  lemma {:induction false} DrainLeavesNoNewline(bytes: seq<Byte>)
    requires Drain(bytes).lines.Some?
    ensures NEWLINE !in Drain(bytes).rest
    decreases |bytes|
  {
    var k := FirstNewline(bytes);
    if k < |bytes| { DrainLeavesNoNewline(bytes[k + 1..]); }
  }

  /** The texts of raw lines, empty ones left out; None if one is not UTF-8. */
  function Texts(raw: seq<seq<Byte>>): Option<seq<string>> {
    if raw == [] then Some([]) else
      var line, rest := LineText(raw[0]), Texts(raw[1..]);
      if line.None? || rest.None? then None else Some(Shown(line.value) + rest.value)
  }

  /** Draining is cutting at the newlines: all pieces but the last are lines, and the
      last is what is kept. */
  ghost predicate Pieced(pieces: seq<seq<Byte>>, d: Drained)
    requires pieces != []
  {
    d.lines == Texts(pieces[..|pieces| - 1]) && (d.lines.Some? ==> d.rest == pieces[|pieces| - 1])
  }

  lemma {:induction false} DrainIsSplit(bytes: seq<Byte>)
    ensures Pieced(Split(bytes, NEWLINE), Drain(bytes))
    decreases |bytes|
  {
    var k := FirstNewline(bytes);
    if k == |bytes| {
      SplitPrefix(bytes, [], NEWLINE);
      assert bytes + [] == bytes;
      assert Split(bytes, NEWLINE) == [bytes];
    } else {
      var rest := bytes[k + 1..];
      SplitAtFirst(bytes, k);
      DrainIsSplit(rest);
      DrainLine(bytes, k, rest);
      PiecedMore(bytes[..k], rest, Split(rest, NEWLINE), Drain(rest));
    }
  }

  lemma {:induction false} PiecedMore(raw: seq<Byte>, rest: seq<Byte>, pieces: seq<seq<Byte>>, d: Drained)
    requires pieces != [] && Pieced(pieces, d)
    ensures Pieced([raw] + pieces, AfterLine(LineText(raw), rest, d))
  {
    var all := [raw] + pieces;
    var front := all[..|all| - 1];
    assert front[0] == raw && front[1..] == pieces[..|pieces| - 1] && all[|all| - 1] == pieces[|pieces| - 1];
    assert Texts(front) == var line, more := LineText(front[0]), Texts(front[1..]);
      if line.None? || more.None? then None else Some(Shown(line.value) + more.value);
  }

  lemma JoinedOn(a: seq<string>, b: seq<string>, d: Drained)
    ensures Joined(a, Joined(b, d)) == Joined(a + b, d) && Joined([], d) == d
  {
    if d.lines.Some? {
      assert a + (b + d.lines.value) == a + b + d.lines.value && [] + d.lines.value == d.lines.value;
    }
  }

  lemma NewlineStays(a: seq<Byte>, b: seq<Byte>)
    requires FirstNewline(a) < |a|
    ensures FirstNewline(a + b) == FirstNewline(a)
  {
    var k, n := FirstNewline(a), FirstNewline(a + b);
    assert (a + b)[..k] == a[..k] && (a + b)[k] == NEWLINE;
    assert forall i | 0 <= i < k :: (a + b)[i] == a[..k][i];
    assert forall i | 0 <= i < n :: (a + b)[i] == (a + b)[..n][i];
  }

  /** Draining some bytes and then the rest with more is draining it all: where the
      stream is cut does not matter. */
  ghost predicate Continues(a: seq<Byte>, b: seq<Byte>) {
    Drain(a).lines.Some? ==> Drain(a + b) == Joined(Drain(a).lines.value, Drain(Drain(a).rest + b))
  }

  lemma {:induction false} DrainOn(a: seq<Byte>, b: seq<Byte>)
    ensures Continues(a, b)
    decreases |a|
  {
    var k := FirstNewline(a);
    if k == |a| {
      JoinedOn([], [], Drain(a + b));
    } else {
      DrainOn(a[k + 1..], b);
      NewlineStays(a, b);
      CutOn(a, b, k);
      DrainOnLine(a, a + b, k, a[k + 1..], a[k + 1..] + b, Drain(Drain(a[k + 1..]).rest + b));
    }
  }

  lemma CutOn(a: seq<Byte>, b: seq<Byte>, k: nat)
    requires k < |a|
    ensures (a + b)[..k] == a[..k] && (a + b)[k + 1..] == a[k + 1..] + b
  {}

  lemma DrainOnLine(a: seq<Byte>, ab: seq<Byte>, k: nat, rest: seq<Byte>, rest': seq<Byte>, e: Drained)
    requires k == FirstNewline(a) == FirstNewline(ab) && k < |a| && k < |ab|
    requires ab[..k] == a[..k] && rest == a[k + 1..] && rest' == ab[k + 1..]
    requires Drain(rest).lines.Some? ==> Drain(rest') == Joined(Drain(rest).lines.value, e)
    ensures Drain(a).lines.Some? ==>
      Drain(ab) == Joined(Drain(a).lines.value, e) && Drain(rest).lines.Some? && Drain(a).rest == Drain(rest).rest
  {
    DrainLine(a, k, rest);
    DrainLine(ab, k, rest');
    AfterLineOn(LineText(a[..k]), rest, Drain(rest), rest', Drain(rest'), e);
  }

  lemma DrainLine(a: seq<Byte>, k: nat, rest: seq<Byte>)
    requires k == FirstNewline(a) < |a| && rest == a[k + 1..]
    ensures Drain(a) == AfterLine(LineText(a[..k]), rest, Drain(rest))
  {}

  lemma AfterLineOn(line: Option<string>, rest: seq<Byte>, d: Drained, rest': seq<Byte>, d': Drained, e: Drained)
    requires d.lines.Some? ==> d' == Joined(d.lines.value, e)
    ensures var all := AfterLine(line, rest, d);
      all.lines.Some? ==> AfterLine(line, rest', d') == Joined(all.lines.value, e) && d.lines.Some? && all.rest == d.rest
  {
    if line.Some? && d.lines.Some? { JoinedOn(Shown(line.value), d.lines.value, e); }
  }

  /** Every raw line a feed completes is at most the cap plus the chunk, less one. */
  lemma RawLinesAreBounded(held: seq<Byte>, chunk: seq<Byte>, cap: nat, i: nat)
    requires NEWLINE !in held && |held| <= cap
    requires i < |Split(held + chunk, NEWLINE)| - 1
    ensures |Split(held + chunk, NEWLINE)[i]| <= cap + |chunk| - 1
  {
    SplitPrefix(held, chunk, NEWLINE);
    PiecesFit(chunk, i);
  }

  lemma {:induction false} PiecesFit(s: seq<Byte>, i: nat)
    requires i < |Split(s, NEWLINE)|
    ensures |Split(s, NEWLINE)[i]| <= |s|
    ensures i < |Split(s, NEWLINE)| - 1 ==> |Split(s, NEWLINE)[i]| < |s|
  {
    if s != [] {
      if s[0] == NEWLINE {
        if i > 0 { PiecesFit(s[1..], i - 1); }
      } else {
        PiecesFit(s[1..], i);
      }
    }
  }

  // --------------------------------------------------------------- the object

  class LineBuffer {
    var buffer: seq<Byte>
    const cap: nat

    /** Between feeds: no newline, and no more than the cap. */
    ghost predicate Valid() reads this {
      NEWLINE !in buffer && |buffer| <= cap
    }

    constructor (cap: nat)
      ensures Valid() && buffer == [] && this.cap == cap
    {
      buffer, this.cap := [], cap;
    }

    method Feed(chunk: seq<Byte>) returns (fed: Fed)
      requires Valid()
      modifies this`buffer
      ensures (fed, buffer) == Feeding(old(buffer) + chunk, cap)
      ensures !fed.NotUtf8? ==> Valid()
    {
      buffer := buffer + chunk;
      ghost var all := Drain(buffer);
      var lines: seq<string> := [];
      JoinedOn([], [], all);
      while true
        invariant all == Joined(lines, Drain(buffer))
        decreases |buffer|
      {
        var k := FirstNewline(buffer);
        if k == |buffer| {
          break;
        }
        var raw := buffer[..k];
        buffer := buffer[k + 1..];
        var text := LineText(raw);
        if text.None? {
          return NotUtf8;
        }
        JoinedOn(lines, Shown(text.value), Drain(buffer));
        if text.value != "" {
          lines := lines + [text.value];
        } else {
          assert lines + [] == lines;
        }
      }
      assert lines + [] == lines;
      DrainLeavesNoNewline(old(buffer) + chunk);
      if |buffer| > cap {
        buffer := [];
        return TooLong;
      }
      return Lines(lines);
    }
  }

  // ----------------------------------------------------------- any chunking

  function Glued(chunks: seq<seq<Byte>>): seq<Byte> {
    if chunks == [] then [] else Glued(chunks[..|chunks| - 1]) + chunks[|chunks| - 1]
  }

  /** Feeding chunk after chunk from an empty buffer, until one is refused. */
  function FeedAll(chunks: seq<seq<Byte>>, cap: nat): (Fed, seq<Byte>) {
    if chunks == [] then (Lines([]), []) else
      var (before, held) := FeedAll(chunks[..|chunks| - 1], cap);
      if !before.Lines? then (before, held) else
        var (fed, kept) := Feeding(held + chunks[|chunks| - 1], cap);
        if fed.Lines? then (Lines(before.lines + fed.lines), kept) else (fed, kept)
  }

  /** The stream up to any point leaves an unfinished line that fits. */
  ghost predicate Fits(stream: seq<Byte>, cap: nat) {
    forall n | 0 <= n <= |stream| :: Drain(stream[..n]).lines.Some? && |Drain(stream[..n]).rest| <= cap
  }

  lemma FitsBefore(a: seq<Byte>, b: seq<Byte>, cap: nat)
    requires Fits(a + b, cap)
    ensures Fits(a, cap)
  {
    forall n | 0 <= n <= |a| ensures Drain(a[..n]).lines.Some? && |Drain(a[..n]).rest| <= cap {
      assert (a + b)[..n] == a[..n];
    }
  }

  /** However a stream is cut into chunks, feeding them gives the lines of the stream. */
  lemma {:induction false} ChunkingDoesNotMatter(chunks: seq<seq<Byte>>, cap: nat)
    requires Fits(Glued(chunks), cap)
    ensures var d := Drain(Glued(chunks)); d.lines.Some? && FeedAll(chunks, cap) == (Lines(d.lines.value), d.rest)
  {
    if chunks == [] {
      assert Drain([]) == Drained(Some([]), []);
    } else {
      var front, last := chunks[..|chunks| - 1], chunks[|chunks| - 1];
      FitsBefore(Glued(front), last, cap);
      ChunkingDoesNotMatter(front, cap);
      DrainOn(Glued(front), last);
      assert Glued(chunks)[..|Glued(chunks)|] == Glued(chunks);
    }
  }
}
