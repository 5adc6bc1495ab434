/** Text survives end to end: from the keys typed on one client, through the server's
    three ways of handing a message on, to what another client shows. */
module EndToEnd {
  import opened Text
  import opened Crypto
  import opened Messages
  import opened Keyrings
  import opened Controller
  import opened Hub
  import Absences
  import Receipts
  import M = Mail
  import Replica
  import C = ChatModel

  /** Nonces are 12 random bytes in base64: never empty, never the marker. */
  ghost predicate RealNonces(w: World) {
    forall n: nat, name: string :: w.nonces(n)(name) != "" && w.nonces(n)(name) != ENVELOPES
  }

  /** The row a message is stored as; receipts may have stamped it since. */
  ghost predicate Keeps(row: Row, m: Mail, shares: Option<map<string, Share>>) {
    Receipts.SameButStamps(RowOf(m, shares), row)
  }

  ghost predicate Reads(w: World, c: Client, f: Option<Frame>, text: string) {
    f.Some? && f.value.Msg? && Plaintext(w, c, f.value) == text
  }

  /** Reads a row of the conversation `key`, as `me`. */
  ghost predicate ReadsBack(w: World, c: Client, e: Option<Entry>, key: string, me: string, text: string) {
    e.Some? && StoredPlaintext(w, c, e.value, key, me) == text
  }

  // ----------------------------------------------------------------- any copy

  /** A reader's copy of a message, sealed under a key. */
  ghost predicate SealedCopy(m: Mail, shares: Option<map<string, Share>>, reader: string, key: Key, text: string) {
    && m.sender != "" && Absences.Markless(m.nonce, shares) && (shares.Some? ==> IsRoom(m.to))
    && var copy := AddressedTo(m, shares, reader);
       && copy.Some? && Encrypted(copy.value)
       && copy.value.body == Text(Seal(key, text, m.sender, copy.value.nonce.value))
  }

  /** On each path the reader reads exactly the text if and only if the ring resolves the
      key that path asks for: the sender's for a live or flushed frame, and the one
      `_stored_plaintext` picks for a history row. (The text may itself be the words shown
      for what cannot be read.) */
  lemma EveryPathReads(w: World, c: Client, m: Mail, shares: Option<map<string, Share>>, row: Row,
                       reader: string, conversation: string, me: string, key: Key, text: string)
    requires c.sealing && SealedCopy(m, shares, reader, key, text) && Keeps(row, m, shares)
    ensures Reads(w, c, AddressedTo(m, shares, reader), text) <==> KeyOf(c.ring, m.sender) == Some(key) || text == UNREADABLE
    ensures Reads(w, c, FlushFrame(row, reader), text) <==> KeyOf(c.ring, m.sender) == Some(key) || text == UNREADABLE
    ensures ReadsBack(w, c, HistoryEntry(row, reader), conversation, me, text)
       <==> KeyOf(c.ring, StoredPeer(m.sender, conversation, me)) == Some(key) || text == UNREADABLE
  {
    Absences.LiveIsFlushed(m, shares, reader);
    Absences.StampsChangeNoFrame(RowOf(m, shares), row, reader);
    Absences.FlushedIsRemembered(row, reader);
  }

  // ------------------------------------------------------------ direct messages

  /** What a client with the target's key puts on the wire. */
  function DirectRequest(w: World, c: Client, to: string, text: string): (r: Request)
    requires KeyOf(c.ring, to).Some?
    ensures r.Send?
  {
    var nonce := w.nonces(|c.wire|)(to);
    Request.Send(to, Text(Seal(KeyOf(c.ring, to).value, text, MyName(c), nonce)), Some(nonce), None, w.id(|c.wire|), w.now(|c.wire|))
  }

  lemma DirectGoesOut(w: World, c: Client, to: string, text: string)
    requires c.sealing && c.model.active == Some(to) && !IsRoom(to) && !IsBlank(text) && KeyOf(c.ring, to).Some?
    ensures Controller.Send(w, c, text).wire == c.wire + [DirectRequest(w, c, to, text)]
  {}

  /** Whatever is typed to a person, they read exactly that text, live, after an absence
      or from history; and so does the sender, from history, for as long as their ring
      resolves the other party to the key it was sealed under. */
  lemma DirectTextSurvives(w: World, w': World, sender: Client, later: Client, reader: Client, to: string, text: string, row: Row)
    requires RealNonces(w) && sender.sealing && later.sealing && reader.sealing
    requires sender.model.active == Some(to) && !IsRoom(to) && !IsBlank(text)
    requires Acquainted(sender.ring, reader.ring, MyName(sender), to) && KeyOf(later.ring, to) == KeyOf(sender.ring, to)
    requires Keeps(row, M.Accepted(MyName(sender), DirectRequest(w, sender, to, text)), None)
    ensures var r := DirectRequest(w, sender, to, text);
      var m := M.Accepted(MyName(sender), r);
      && Controller.Send(w, sender, text).wire == sender.wire + [r]
      && Reads(w', reader, AddressedTo(m, None, to), text)
      && Reads(w', reader, FlushFrame(row, to), text)
      && ReadsBack(w', reader, HistoryEntry(row, to), MyName(sender), to, text)
      && ReadsBack(w', later, HistoryEntry(row, MyName(sender)), to, MyName(sender), text)
  {
    var r := DirectRequest(w, sender, to, text);
    var m := M.Accepted(MyName(sender), r);
    var key := KeyOf(sender.ring, to).value;
    DirectGoesOut(w, sender, to, text);
    assert key == KeyOf(reader.ring, MyName(sender)).value by {
      SealedIsOpened(sender.ring, reader.ring, MyName(sender), to, text, "");
    }
    EveryPathReads(w', reader, m, None, row, to, MyName(sender), to, key, text);
    EveryPathReads(w', later, m, None, row, MyName(sender), to, MyName(sender), key, text);
  }

  // -------------------------------------------------------------- room messages

  function RoomShares(w: World, c: Client, room: string, text: string): Option<map<string, Share>> {
    SealForMembers(c.ring, C.RoomMembers(c.model, room), text, MyName(c), w.nonces(|c.wire|))
  }

  function RoomRequest(w: World, c: Client, room: string, text: string): (r: Request)
    ensures r.Send?
  {
    Request.Send(room, Text(Clear("")), None, RoomShares(w, c, room, text), w.id(|c.wire|), w.now(|c.wire|))
  }

  lemma RoomGoesOut(w: World, c: Client, room: string, text: string)
    requires c.sealing && c.model.active == Some(room) && IsRoom(room) && !IsBlank(text)
    requires Missing(c.ring, C.RoomMembers(c.model, room) - {MyName(c)}) == {}
    ensures RoomShares(w, c, room, text).Some?
    ensures Controller.Send(w, c, text).wire == c.wire + [RoomRequest(w, c, room, text)]
  {
    SealsIffNobodyIsMissing(c.ring, C.RoomMembers(c.model, room), text, MyName(c), w.nonces(|c.wire|));
  }

  /** Every member's copy, and the sender's own, is sealed under the key held for them. */
  lemma RoomCopies(w: World, c: Client, room: string, text: string, member: string)
    requires RealNonces(w) && IsRoom(room) && RoomShares(w, c, room, text).Some?
    requires member in C.RoomMembers(c.model, room) + {MyName(c)}
    ensures KeyOf(As(c.ring, MyName(c)), member).Some?
    ensures SealedCopy(M.Accepted(MyName(c), RoomRequest(w, c, room, text)), RoomShares(w, c, room, text), member,
                       KeyOf(As(c.ring, MyName(c)), member).value, text)
  {}

  /** Whatever is typed to a room, every member who can resolve the sender's key reads
      exactly that text on every path. */
  lemma RoomTextSurvives(w: World, w': World, sender: Client, reader: Client, room: string, member: string, text: string, row: Row)
    requires RealNonces(w) && sender.sealing && reader.sealing
    requires sender.model.active == Some(room) && IsRoom(room) && !IsBlank(text)
    requires Missing(sender.ring, C.RoomMembers(sender.model, room) - {MyName(sender)}) == {}
    requires member in C.RoomMembers(sender.model, room) && member != MyName(sender)
    requires Acquainted(As(sender.ring, MyName(sender)), reader.ring, MyName(sender), member)
    requires Keeps(row, M.Accepted(MyName(sender), RoomRequest(w, sender, room, text)), RoomShares(w, sender, room, text))
    ensures var r, shares := RoomRequest(w, sender, room, text), RoomShares(w, sender, room, text);
      && Controller.Send(w, sender, text).wire == sender.wire + [r]
      && Reads(w', reader, AddressedTo(M.Accepted(MyName(sender), r), shares, member), text)
      && Reads(w', reader, FlushFrame(row, member), text)
      && ReadsBack(w', reader, HistoryEntry(row, member), room, member, text)
  {
    var r, shares, me := RoomRequest(w, sender, room, text), RoomShares(w, sender, room, text), MyName(sender);
    RoomGoesOut(w, sender, room, text);
    RoomCopies(w, sender, room, text, member);
    var key := KeyOf(As(sender.ring, me), member).value;
    assert key == KeyOf(reader.ring, me).value by {
      SealedIsOpened(As(sender.ring, me), reader.ring, me, member, text, "");
    }
    EveryPathReads(w', reader, M.Accepted(me, r), shares, row, member, room, member, key, text);
  }

  /** A sender recovers their own room text from history if and only if their ring then
      resolves their own name to the key the copy was sealed under. */
  lemma OwnRoomTextIsRecovered(w: World, w': World, sender: Client, later: Client, room: string, text: string, row: Row)
    requires RealNonces(w) && later.sealing && IsRoom(room)
    requires RoomShares(w, sender, room, text).Some?
    requires Keeps(row, M.Accepted(MyName(sender), RoomRequest(w, sender, room, text)), RoomShares(w, sender, room, text))
    ensures ReadsBack(w', later, HistoryEntry(row, MyName(sender)), room, MyName(sender), text)
       <==> KeyOf(later.ring, MyName(sender)) == KeyOf(As(sender.ring, MyName(sender)), MyName(sender)) || text == UNREADABLE
  {
    var me := MyName(sender);
    RoomCopies(w, sender, room, text, me);
    EveryPathReads(w', later, M.Accepted(me, RoomRequest(w, sender, room, text)), RoomShares(w, sender, room, text),
                   row, me, room, me, KeyOf(As(sender.ring, me), me).value, text);
  }

  /** A ring that has been told its own name resolves it; one built at a restart, which
      has not, does not. So after a restart one's own room history reads as unreadable
      until something is sent to a room. */
  lemma OwnNameMustBeKnown(identity: Identity, me: string)
    requires me != ""
    ensures KeyOf(Ring(identity, me, map[]), me) == Some(KeyFor(identity, identity.PublicHalf()))
    ensures KeyOf(NewClient(true, identity).ring, me) == None
    ensures KeyOf(As(NewClient(true, identity).ring, me), me) == Some(KeyFor(identity, identity.PublicHalf()))
  {}

  // --------------------------------------------------- through the server, live

  lemma ServerHands(h: Hub, sid: Sid, me: string, r: Request, s: Sid)
    requires Replica.Registry(h) && r.Send? && sid in h.who && h.who[sid] == me && Refusal(h, me, r.to).None?
    requires s in h.who && h.who[s] in M.OwedTo(h, me, r)
    ensures AddressedTo(M.Accepted(me, r), M.SharesOf(r), h.who[s]).Some?
    ensures M.Inbox(Handle(h, sid, r), s) == M.Inbox(h, s) + [AddressedTo(M.Accepted(me, r), M.SharesOf(r), h.who[s]).value]
  {
    M.SendHands(h, sid, me, r, s);
  }

  /** The new message of an inbox reads as this text. */
  ghost predicate NewestReads(w: World, c: Client, before: seq<Frame>, after: seq<Frame>, text: string) {
    |after| == |before| + 1 && before <= after && Reads(w, c, Some(after[|before|]), text)
  }

  /** One typed text, one server, another client: the recipient is handed one new message,
      and it reads as what was typed. */
  lemma TypedTextIsRead(w: World, w': World, h: Hub, sid: Sid, s: Sid, sender: Client, reader: Client, to: string, text: string)
    requires RealNonces(w) && sender.sealing && reader.sealing
    requires sender.model.active == Some(to) && to != "" && !IsRoom(to) && !IsBlank(text)
    requires Acquainted(sender.ring, reader.ring, MyName(sender), to)
    requires Replica.Registry(h) && sid in h.who && h.who[sid] == MyName(sender) && s in h.who && h.who[s] == to
    ensures NewestReads(w', reader, M.Inbox(h, s), M.Inbox(Handle(h, sid, DirectRequest(w, sender, to, text)), s), text)
  {
    var r, me := DirectRequest(w, sender, to, text), MyName(sender);
    DirectTextSurvives(w, w', sender, sender, reader, to, text, RowOf(M.Accepted(me, r), None));
    ServerHands(h, sid, me, r, s);
  }

  /** The same for a room: every online member the sender knew of is handed one new
      message, and it reads as what was typed. */
  lemma TypedRoomTextIsRead(w: World, w': World, h: Hub, sid: Sid, s: Sid, sender: Client, reader: Client, room: string, text: string)
    requires RealNonces(w) && sender.sealing && reader.sealing
    requires sender.model.active == Some(room) && IsRoom(room) && !IsBlank(text)
    requires Missing(sender.ring, C.RoomMembers(sender.model, room) - {MyName(sender)}) == {}
    requires Replica.Registry(h) && sid in h.who && h.who[sid] == MyName(sender) && MyName(sender) in Members(h, room)
    requires s in h.who && s != sid && h.who[s] in Members(h, room) && h.who[s] in C.RoomMembers(sender.model, room)
    requires Acquainted(As(sender.ring, MyName(sender)), reader.ring, MyName(sender), h.who[s])
    ensures NewestReads(w', reader, M.Inbox(h, s), M.Inbox(Handle(h, sid, RoomRequest(w, sender, room, text)), s), text)
  {
    var r, me, member := RoomRequest(w, sender, room, text), MyName(sender), h.who[s];
    assert h.online[member] == s && h.online[me] == sid;
    RoomTextSurvives(w, w', sender, reader, room, member, text, RowOf(M.Accepted(me, r), RoomShares(w, sender, room, text)));
    assert member in M.OwedTo(h, me, r);
    ServerHands(h, sid, me, r, s);
  }
}
