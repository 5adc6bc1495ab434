/** im/common/codec.py `encode`/`decode` and im/server/handler.py's outbox: what `send`
    accepts reaches the other end in order, however the bytes are cut. */
module Channels {
  import opened Text
  import opened Utf8
  import opened Frames
  import opened LineBuffers

  // -------------------------------------------------------------------- codec

  /** The `json` library, which is foreign code. */
  datatype JsonLib = JsonLib(dumps: Json -> string, loads: string -> Option<Json>)

  /** What is relied on (section 7 of RFC 8259): objects come back exactly, control
      characters are escaped, and the text ends in the closing brace. */
  ghost predicate Faithful(lib: JsonLib) {
    forall m: map<string, Json> ::
      var text := lib.dumps(JObj(m));
      lib.loads(text) == Some(JObj(m)) && '\n' !in text && text != "" && text[|text| - 1] != '\r'
  }

  /** One frame as one line of bytes, newline included; None if it cannot be written. */
  function EncodeFrame(lib: JsonLib, f: Frame): Option<seq<Byte>> {
    var dict := ToDict(f);
    if dict.None? then None else Some(Utf8.Encode(lib.dumps(JObj(dict.value))) + [NEWLINE])
  }

  datatype Decoded = Decoded(frame: Frame) | NotJson | BadFrame(fault: Fault)

  function DecodeLine(lib: JsonLib, line: string, newId: string, now: int): Decoded {
    var raw := lib.loads(line);
    if raw.None? then NotJson else
      var parsed := FromDict(raw.value, newId, now);
      if parsed.Bad? then BadFrame(parsed.fault) else Decoded(parsed.frame)
  }

  // ------------------------------------------------------------------- outbox

  const OUTBOX_LIMIT := 1000

  datatype Item = Item(frame: Frame) | Stop

  /** One connection's sending side. `accepted` and `taken` record what `send` put on the
      queue and what the writer took off it. */
  datatype Channel = Channel(
    outbox: seq<Item>, closed: bool, done: bool, wire: seq<Byte>, accepted: seq<Frame>, taken: seq<Frame>)

  const FRESH := Channel([], false, false, [], [], [])

  /** `close` past its check: mark, and tell the writer to stop if there is room. */
  function Shut(c: Channel): Channel {
    c.(closed := true, outbox := if |c.outbox| < OUTBOX_LIMIT then c.outbox + [Stop] else c.outbox)
  }

  function Closing(c: Channel): Channel {
    if c.closed then c else Shut(c)
  }

  /** `send` past its check: put the frame on the queue, or give up on the client. */
  function Put(c: Channel, f: Frame): Channel {
    if |c.outbox| < OUTBOX_LIMIT then c.(outbox := c.outbox + [Item(f)], accepted := c.accepted + [f])
    else Closing(c)
  }

  function Sending(c: Channel, f: Frame): Channel {
    if c.closed then c else Put(c, f)
  }

  /** One turn of the writer. `cut` is None when the socket takes every byte, and else how
      many it took before it failed. */
  function Writing(lib: JsonLib, c: Channel, cut: Option<nat>): Channel {
    if c.done || c.outbox == [] then c
    else if c.outbox[0].Stop? then c.(outbox := c.outbox[1..], done := true)
    else
      var f := c.outbox[0].frame;
      var c1 := c.(outbox := c.outbox[1..], taken := c.taken + [f]);
      var bytes := EncodeFrame(lib, f);
      if bytes.None? then c1
      else if cut.None? then c1.(wire := c.wire + bytes.value)
      else c1.(wire := c.wire + bytes.value[..if cut.value < |bytes.value| then cut.value else |bytes.value|],
               closed := true, done := true)
  }

  /** Anything any thread may do next. A sender or closer that passed its check before
      the flag was set carries on: `Late` and `LateClose`. */
  datatype Step = Send(frame: Frame) | Late(frame: Frame) | Close | LateClose | Write(cut: Option<nat>)

  function Next(lib: JsonLib, c: Channel, s: Step): Channel {
    match s
    case Send(f) => Sending(c, f)
    case Late(f) => Put(c, f)
    case Close => Closing(c)
    case LateClose => Shut(c)
    case Write(cut) => Writing(lib, c, cut)
  }

  function Run(lib: JsonLib, steps: seq<Step>): Channel {
    if steps == [] then FRESH else Next(lib, Run(lib, steps[..|steps| - 1]), steps[|steps| - 1])
  }

  /** The bytes of some frames, those that cannot be written left out. */
  function Stream(lib: JsonLib, frames: seq<Frame>): seq<Byte> {
    if frames == [] then [] else Stream(lib, frames[..|frames| - 1]) + BytesOf(lib, frames[|frames| - 1])
  }

  function BytesOf(lib: JsonLib, f: Frame): seq<Byte> {
    var bytes := EncodeFrame(lib, f);
    if bytes.None? then [] else bytes.value
  }

  function Queued(outbox: seq<Item>): seq<Frame> {
    if outbox == [] then [] else
      var front, x := Queued(outbox[..|outbox| - 1]), outbox[|outbox| - 1];
      if x.Stop? then front else front + [x.frame]
  }

  /** What every interleaving keeps: the queue is bounded, nothing accepted is lost or
      reordered, and the wire carries the frames taken, in order, cut short only by a
      failing socket. */
  ghost predicate InStep(lib: JsonLib, c: Channel) {
    && |c.outbox| <= OUTBOX_LIMIT
    && c.taken + Queued(c.outbox) == c.accepted
    && c.wire <= Stream(lib, c.taken)
    && (!c.done ==> c.wire == Stream(lib, c.taken))
  }

  lemma QueuedMore(outbox: seq<Item>, x: Item)
    ensures Queued(outbox + [x]) == if x.Stop? then Queued(outbox) else Queued(outbox) + [x.frame]
  {
    assert (outbox + [x])[..|outbox|] == outbox;
  }

  lemma {:induction false} QueuedRest(outbox: seq<Item>)
    requires outbox != []
    ensures Queued(outbox) == if outbox[0].Stop? then Queued(outbox[1..]) else [outbox[0].frame] + Queued(outbox[1..])
  {
    var last := |outbox| - 1;
    if last == 0 {
      assert outbox[..0] == [] && outbox[1..] == [];
    } else {
      QueuedRest(outbox[..last]);
      assert outbox[..last][1..] == outbox[1..][..last - 1];
    }
  }

  lemma StreamMore(lib: JsonLib, frames: seq<Frame>, f: Frame)
    ensures Stream(lib, frames + [f]) == Stream(lib, frames) + BytesOf(lib, f)
  {
    assert (frames + [f])[..|frames|] == frames;
  }

  lemma PutKeeps(lib: JsonLib, c: Channel, f: Frame)
    requires InStep(lib, c)
    ensures InStep(lib, Put(c, f))
  {
    QueuedMore(c.outbox, Item(f));
    QueuedMore(c.outbox, Stop);
    assert c.taken + (Queued(c.outbox) + [f]) == c.taken + Queued(c.outbox) + [f];
  }

  /** What one turn of the writer may put on the wire of a frame. */
  ghost predicate Writes(c: Channel, c': Channel, bytes: seq<Byte>) {
    c.wire <= c'.wire <= c.wire + bytes && (!c'.done ==> c'.wire == c.wire + bytes)
  }

  lemma WriteWrites(lib: JsonLib, c: Channel, cut: Option<nat>)
    requires !c.done && c.outbox != [] && c.outbox[0].Item?
    ensures Writes(c, Writing(lib, c, cut), BytesOf(lib, c.outbox[0].frame))
  {
    var bytes := BytesOf(lib, c.outbox[0].frame);
    assert c.wire + [] == c.wire;
    if cut.Some? {
      var n := if cut.value < |bytes| then cut.value else |bytes|;
      assert c.wire + bytes[..n] <= c.wire + bytes;
    }
  }

  lemma TakenKeeps(lib: JsonLib, c: Channel, c': Channel, f: Frame)
    requires InStep(lib, c) && !c.done && c.outbox != [] && c.outbox[0] == Item(f)
    requires c'.outbox == c.outbox[1..] && c'.taken == c.taken + [f] && c'.accepted == c.accepted
    requires Writes(c, c', BytesOf(lib, f))
    ensures InStep(lib, c')
  {
    QueueMoves(c.outbox, c.taken, f);
    StreamMore(lib, c.taken, f);
    PrefixOf(c.wire, c'.wire, Stream(lib, c.taken), BytesOf(lib, f));
  }

  lemma {:induction false} QueueMoves(outbox: seq<Item>, taken: seq<Frame>, f: Frame)
    requires outbox != [] && outbox[0] == Item(f)
    ensures taken + [f] + Queued(outbox[1..]) == taken + Queued(outbox)
  {
    QueuedRest(outbox);
    assert taken + ([f] + Queued(outbox[1..])) == taken + [f] + Queued(outbox[1..]);
  }

  lemma PrefixOf(wire: seq<Byte>, wire': seq<Byte>, stream: seq<Byte>, bytes: seq<Byte>)
    requires wire == stream && wire <= wire' <= wire + bytes
    ensures wire' <= stream + bytes
  {}

  lemma WriteKeeps(lib: JsonLib, c: Channel, cut: Option<nat>)
    requires InStep(lib, c)
    ensures InStep(lib, Writing(lib, c, cut))
  {
    if !c.done && c.outbox != [] {
      if c.outbox[0].Item? {
        WriteWrites(lib, c, cut);
        TakenKeeps(lib, c, Writing(lib, c, cut), c.outbox[0].frame);
      } else {
        QueuedRest(c.outbox);
      }
    }
  }

  lemma StepKeeps(lib: JsonLib, c: Channel, s: Step)
    requires InStep(lib, c)
    ensures InStep(lib, Next(lib, c, s))
  {
    QueuedMore(c.outbox, Stop);
    match s
    case Send(f) => PutKeeps(lib, c, f);
    case Late(f) => PutKeeps(lib, c, f);
    case Close =>
    case LateClose =>
    case Write(cut) => WriteKeeps(lib, c, cut);
  }

  /** Over every interleaving of senders, closers and the writer. */
  lemma {:induction false} EveryRunIsInStep(lib: JsonLib, steps: seq<Step>)
    ensures InStep(lib, Run(lib, steps))
  {
    if steps == [] {
      assert Queued([]) == [] && Stream(lib, []) == [];
    } else {
      EveryRunIsInStep(lib, steps[..|steps| - 1]);
      StepKeeps(lib, Run(lib, steps[..|steps| - 1]), steps[|steps| - 1]);
    }
  }

  // ----------------------------------------------------------- the other end

  lemma {:induction false} StreamOn(lib: JsonLib, a: seq<Frame>, b: seq<Frame>)
    ensures Stream(lib, a + b) == Stream(lib, a) + Stream(lib, b)
  {
    if b == [] {
      assert a + b == a && Stream(lib, a) + [] == Stream(lib, a);
    } else {
      var front, f := b[..|b| - 1], b[|b| - 1];
      assert (a + b)[..|a + b| - 1] == a + front;
      StreamOn(lib, a, front);
      Associate(Stream(lib, a), Stream(lib, front), BytesOf(lib, f));
    }
  }

  lemma Associate(a: seq<Byte>, b: seq<Byte>, c: seq<Byte>)
    ensures a + (b + c) == a + b + c
  {}

  /** The frames that can be written. */
  function Writable(frames: seq<Frame>): seq<Frame> {
    if frames == [] then [] else
      var front, f := Writable(frames[..|frames| - 1]), frames[|frames| - 1];
      if ToDict(f).None? then front else front + [f]
  }

  /** Frames as a server builds them, each of them fitting a line. */
  ghost predicate Fitting(lib: JsonLib, frames: seq<Frame>, cap: nat) {
    forall f | f in frames && ToDict(f).Some? :: Sendable(f) && |BytesOf(lib, f)| <= cap + 1
  }

  /** The line a frame travels as. */
  function LineOf(lib: JsonLib, f: Frame): string
    requires ToDict(f).Some?
  {
    lib.dumps(JObj(ToDict(f).value))
  }

  lemma LineComesBack(lib: JsonLib, f: Frame, newId: string, now: int)
    requires Faithful(lib) && Sendable(f)
    ensures ToDict(f).Some? && DecodeLine(lib, LineOf(lib, f), newId, now) == Decoded(f)
  {
    FrameRoundTrip(f, newId, now);
  }

  /** The bytes of one frame drain to its one line. */
  lemma FrameDrains(lib: JsonLib, f: Frame)
    requires Faithful(lib) && ToDict(f).Some?
    ensures Drain(BytesOf(lib, f)) == Drained(Some([LineOf(lib, f)]), [])
  {
    var text := LineOf(lib, f);
    var raw, bytes := Utf8.Encode(text), BytesOf(lib, f);
    NoNewline(text);
    RoundTrip(text);
    LineDrains(raw, text);
  }

  lemma {:induction false} LineDrains(raw: seq<Byte>, text: string)
    requires NEWLINE !in raw && Utf8.Decode(raw) == Some(text) && text != "" && text[|text| - 1] != '\r'
    ensures Drain(raw + [NEWLINE]) == Drained(Some([text]), [])
  {
    var bytes := raw + [NEWLINE];
    NewlineAt(raw);
    DrainLine(bytes, |raw|, []);
    assert bytes[..|raw|] == raw && LineText(raw) == Some(text);
    NothingDrains();
    assert [text] + [] == [text];
  }

  lemma {:induction false} NothingDrains()
    ensures Drain([]) == Drained(Some([]), [])
  {
    assert FirstNewline([]) == 0;
  }

  lemma {:induction false} NewlineAt(raw: seq<Byte>)
    requires NEWLINE !in raw
    ensures FirstNewline(raw + [NEWLINE]) == |raw|
  {
    var bytes, k := raw + [NEWLINE], FirstNewline(raw + [NEWLINE]);
    assert bytes[|raw|] == NEWLINE;
    assert forall i | 0 <= i < |raw| :: bytes[i] == raw[i];
    assert forall i | 0 <= i < k :: bytes[i] == bytes[..k][i];
  }

  /** Part of a frame, short of its newline, is an unfinished line. */
  lemma PartDrains(lib: JsonLib, f: Frame, part: seq<Byte>)
    requires Faithful(lib) && ToDict(f).Some? && part <= BytesOf(lib, f) && |part| < |BytesOf(lib, f)|
    ensures Drain(part) == Drained(Some([]), part)
  {
    var raw := Utf8.Encode(LineOf(lib, f));
    NoNewline(LineOf(lib, f));
    assert forall i | 0 <= i < |part| :: part[i] == raw[i];
  }

  /** The lines of the frames that can be written. */
  function LinesOf(lib: JsonLib, frames: seq<Frame>): seq<string> {
    if frames == [] then [] else
      var front, f := LinesOf(lib, frames[..|frames| - 1]), frames[|frames| - 1];
      if ToDict(f).None? then front else front + [LineOf(lib, f)]
  }

  lemma {:induction false} LinesAreWritable(lib: JsonLib, frames: seq<Frame>)
    ensures |LinesOf(lib, frames)| == |Writable(frames)|
    ensures forall i | 0 <= i < |Writable(frames)| ::
      Writable(frames)[i] in frames && ToDict(Writable(frames)[i]).Some? && LinesOf(lib, frames)[i] == LineOf(lib, Writable(frames)[i])
  {
    if frames != [] { LinesAreWritable(lib, frames[..|frames| - 1]); }
  }

  lemma {:induction false} StreamDrains(lib: JsonLib, frames: seq<Frame>)
    requires Faithful(lib)
    ensures Drain(Stream(lib, frames)) == Drained(Some(LinesOf(lib, frames)), [])
  {
    if frames == [] {
      NothingDrains();
    } else {
      var front, f := frames[..|frames| - 1], frames[|frames| - 1];
      StreamDrains(lib, front);
      if ToDict(f).None? {
        assert Stream(lib, front) + [] == Stream(lib, front);
      } else {
        DrainOn(Stream(lib, front), BytesOf(lib, f));
        FrameDrains(lib, f);
        assert [] + BytesOf(lib, f) == BytesOf(lib, f);
      }
    }
  }

  /** How a prefix of the stream drains: the first lines, and a part of the next that
      fits the cap. */
  ghost predicate DrainsTo(bytes: seq<Byte>, lines: seq<string>, j: nat, cap: nat) {
    j <= |lines| && Drain(bytes).lines == Some(lines[..j]) && |Drain(bytes).rest| <= cap
  }

  lemma {:induction false} PrefixDrains(lib: JsonLib, frames: seq<Frame>, bytes: seq<Byte>, cap: nat) returns (j: nat)
    requires Faithful(lib) && Fitting(lib, frames, cap) && bytes <= Stream(lib, frames)
    ensures DrainsTo(bytes, LinesOf(lib, frames), j, cap)
  {
    if |bytes| == |Stream(lib, frames)| {
      StreamDrains(lib, frames);
      assert bytes == Stream(lib, frames);
      j := |LinesOf(lib, frames)|;
      assert LinesOf(lib, frames)[..j] == LinesOf(lib, frames);
    } else {
      var front, f := frames[..|frames| - 1], frames[|frames| - 1];
      var whole := Stream(lib, front);
      assert forall g | g in front :: g in frames;
      if |bytes| <= |whole| {
        assert bytes <= whole;
        j := PrefixDrains(lib, front, bytes, cap);
        assert LinesOf(lib, front) <= LinesOf(lib, frames);
        assert LinesOf(lib, frames)[..j] == LinesOf(lib, front)[..j];
      } else {
        j := |LinesOf(lib, front)|;
        assert ToDict(f).Some? && f in frames;
        LastPartDrains(lib, front, f, bytes, cap);
        assert LinesOf(lib, frames)[..j] == LinesOf(lib, front);
      }
    }
  }

  lemma {:induction false} LastPartDrains(lib: JsonLib, front: seq<Frame>, f: Frame, bytes: seq<Byte>, cap: nat)
    requires Faithful(lib) && ToDict(f).Some? && |BytesOf(lib, f)| <= cap + 1
    requires bytes <= Stream(lib, front) + BytesOf(lib, f)
    requires |Stream(lib, front)| <= |bytes| < |Stream(lib, front)| + |BytesOf(lib, f)|
    ensures Drain(bytes).lines == Some(LinesOf(lib, front)) && |Drain(bytes).rest| <= cap
  {
    var whole := Stream(lib, front);
    var part := bytes[|whole|..];
    CutAfter(whole, BytesOf(lib, f), bytes);
    StreamDrains(lib, front);
    DrainOn(whole, part);
    PartDrains(lib, f, part);
    assert [] + part == part && LinesOf(lib, front) + [] == LinesOf(lib, front);
  }

  lemma CutAfter(a: seq<Byte>, b: seq<Byte>, bytes: seq<Byte>)
    requires bytes <= a + b && |a| <= |bytes|
    ensures bytes == a + bytes[|a|..] && bytes[|a|..] <= b
  {
    assert forall i | 0 <= i < |bytes| :: bytes[i] == (a + b)[i];
  }

  lemma {:induction false} PrefixFits(lib: JsonLib, frames: seq<Frame>, bytes: seq<Byte>, cap: nat)
    requires Faithful(lib) && Fitting(lib, frames, cap) && bytes <= Stream(lib, frames)
    ensures Fits(bytes, cap)
  {
    forall n | 0 <= n <= |bytes| ensures Drain(bytes[..n]).lines.Some? && |Drain(bytes[..n]).rest| <= cap {
      var j := PrefixDrains(lib, frames, bytes[..n], cap);
    }
  }

  /** The first j frames, read off their lines. */
  ghost predicate ReadsAs(lib: JsonLib, lines: seq<string>, frames: seq<Frame>) {
    |lines| <= |frames| && forall i, newId, now | 0 <= i < |lines| :: DecodeLine(lib, lines[i], newId, now) == Decoded(frames[i])
  }

  /** The channel preserves order and does not care about chunks. After any interleaving
      of senders, closers and the writer, for any bytes the other end got off the wire so
      far and any way they were cut, its line buffer refuses nothing, and decoding its
      lines gives a first part of the frames `send` accepted, less those that cannot be
      written, equal field by field. */
  lemma {:induction false} ChannelKeepsOrder(lib: JsonLib, steps: seq<Step>, chunks: seq<seq<Byte>>, cap: nat)
    requires Faithful(lib) && Fitting(lib, Run(lib, steps).accepted, cap)
    requires Glued(chunks) <= Run(lib, steps).wire
    ensures var (fed, held) := FeedAll(chunks, cap);
      fed.Lines? && ReadsAs(lib, fed.lines, Writable(Run(lib, steps).accepted))
  {
    var c, bytes := Run(lib, steps), Glued(chunks);
    var frames := c.accepted;
    EveryRunIsInStep(lib, steps);
    WireIsPrefix(lib, c);
    PrefixFits(lib, frames, bytes, cap);
    ChunkingDoesNotMatter(chunks, cap);
    var j := PrefixDrains(lib, frames, bytes, cap);
    LinesReadAs(lib, frames, j, cap);
  }

  lemma {:induction false} WireIsPrefix(lib: JsonLib, c: Channel)
    requires InStep(lib, c)
    ensures c.wire <= Stream(lib, c.accepted)
  {
    StreamOn(lib, c.taken, Queued(c.outbox));
  }

  lemma {:induction false} LinesReadAs(lib: JsonLib, frames: seq<Frame>, j: nat, cap: nat)
    requires Faithful(lib) && Fitting(lib, frames, cap) && j <= |LinesOf(lib, frames)|
    ensures ReadsAs(lib, LinesOf(lib, frames)[..j], Writable(frames))
  {
    LinesAreWritable(lib, frames);
    forall i, newId, now | 0 <= i < j
      ensures DecodeLine(lib, LinesOf(lib, frames)[..j][i], newId, now) == Decoded(Writable(frames)[i])
    {
      LineComesBack(lib, Writable(frames)[i], newId, now);
    }
  }

  // --------------------------------------------------------------- the object

  /** The writer's turns until it blocks on an empty queue or ends. */
  function WriteOn(lib: JsonLib, c: Channel, cuts: nat -> Option<nat>): Channel
    decreases |c.outbox|
  {
    if c.done || c.outbox == [] then c else WriteOn(lib, Writing(lib, c, cuts(|c.outbox|)), cuts)
  }

  class ClientHandler {
    var outbox: seq<Item>
    var closed: bool
    var done: bool
    var wire: seq<Byte>
    ghost var accepted: seq<Frame>
    ghost var taken: seq<Frame>

    ghost function Contents(): Channel reads this {
      Channel(outbox, closed, done, wire, accepted, taken)
    }

    ghost predicate Valid(lib: JsonLib) reads this {
      InStep(lib, Contents())
    }

    constructor (lib: JsonLib)
      ensures Valid(lib) && Contents() == FRESH
    {
      outbox, closed, done, wire := [], false, false, [];
      accepted, taken := [], [];
      new;
      EveryRunIsInStep(lib, []);
    }

    method SendFrame(lib: JsonLib, f: Frame)
      requires Valid(lib)
      modifies this
      ensures Valid(lib) && Contents() == Sending(old(Contents()), f)
    {
      PutKeeps(lib, Contents(), f);
      if closed {
        return;
      }
      if |outbox| < OUTBOX_LIMIT {
        outbox := outbox + [Item(f)];
        accepted := accepted + [f];
      } else {
        HangUp(lib);
      }
    }

    method HangUp(lib: JsonLib)
      requires Valid(lib)
      modifies this
      ensures Valid(lib) && Contents() == Closing(old(Contents()))
    {
      StepKeeps(lib, Contents(), Step.Close);
      if closed {
        return;
      }
      closed := true;
      if |outbox| < OUTBOX_LIMIT {
        outbox := outbox + [Stop];
      }
    }

    /** One turn: take an item, encode it, hand it to the socket. */
    method WriteOne(lib: JsonLib, cut: Option<nat>)
      requires Valid(lib) && !done && outbox != []
      modifies this
      ensures Valid(lib) && Contents() == Writing(lib, old(Contents()), cut)
    {
      WriteKeeps(lib, Contents(), cut);
      var item := outbox[0];
      outbox := outbox[1..];
      if item.Stop? {
        done := true;
        return;
      }
      taken := taken + [item.frame];
      var bytes := EncodeFrame(lib, item.frame);
      if bytes.Some? {
        if cut.None? {
          wire := wire + bytes.value;
        } else {
          wire := wire + bytes.value[..if cut.value < |bytes.value| then cut.value else |bytes.value|];
          closed, done := true, true;
        }
      }
    }

    /** The only place the socket is written to. `cuts` says how it takes each frame. */
    method WriteLoop(lib: JsonLib, cuts: nat -> Option<nat>)
      requires Valid(lib)
      modifies this
      ensures Valid(lib) && Contents() == WriteOn(lib, old(Contents()), cuts)
      ensures !done ==> outbox == [] && wire == Stream(lib, accepted)
    {
      while !done && outbox != []
        invariant Valid(lib) && WriteOn(lib, Contents(), cuts) == WriteOn(lib, old(Contents()), cuts)
        decreases |outbox|
      {
        WriteOne(lib, cuts(|outbox|));
      }
      assert !done ==> Queued(outbox) == [] && taken + [] == taken;
    }
  }
}
