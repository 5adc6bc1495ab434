/** What each step of the hub hands to whom: the MSG frames of every outbox. */
module Mail {
  import opened Text
  import opened Messages
  import opened Hub
  import opened Replica

  /** The MSG frames among what was sent. */
  function OnlyMail(frames: seq<Frame>): seq<Frame> {
    if frames == [] then [] else
      var before, f := OnlyMail(frames[..|frames| - 1]), frames[|frames| - 1];
      if f.Msg? then before + [f] else before
  }

  function Inbox(h: Hub, sid: Sid): seq<Frame> {
    OnlyMail(Box(h, sid))
  }

  lemma OneMore(frames: seq<Frame>, f: Frame)
    ensures OnlyMail(frames + [f]) == if f.Msg? then OnlyMail(frames) + [f] else OnlyMail(frames)
  {
    assert (frames + [f])[..|frames|] == frames;
  }

  lemma {:induction false} ManyMore(frames: seq<Frame>, more: seq<Frame>)
    requires forall f | f in more :: f.Msg?
    ensures OnlyMail(frames + more) == OnlyMail(frames) + more
  {
    if more == [] {
      assert frames + more == frames;
    } else {
      var front, f := more[..|more| - 1], more[|more| - 1];
      assert frames + more == (frames + front) + [f];
      ManyMore(frames, front);
      OneMore(frames + front, f);
    }
  }

  lemma SentOne(h: Hub, sid: Sid, f: Frame, s: Sid)
    ensures Inbox(SendTo(h, sid, f), s) == Inbox(h, s) + if s == sid && f.Msg? then [f] else []
  {
    OneMore(Box(h, sid), f);
  }

  /** No session is handed a message. */
  ghost predicate NoMail(h: Hub, h': Hub) {
    forall s :: Inbox(h', s) == Inbox(h, s)
  }

  lemma NoMailSend(h: Hub, sid: Sid, f: Frame)
    requires !f.Msg?
    ensures NoMail(h, SendTo(h, sid, f))
  {
    forall s ensures Inbox(SendTo(h, sid, f), s) == Inbox(h, s) { SentOne(h, sid, f, s); }
  }

  lemma NoMailAll(h: Hub, targets: set<Sid>, f: Frame)
    requires !f.Msg?
    ensures NoMail(h, SendAll(h, targets, f))
  {
    forall s ensures Inbox(SendAll(h, targets, f), s) == Inbox(h, s) {
      BoxOfAll(h, targets, f, s);
      OneMore(Box(h, s), f);
    }
  }

  lemma NoMailNote(h: Hub, owner: string, other: string)
    ensures NoMail(h, NoteContact(h, owner, other))
    ensures var h' := NoteContact(h, owner, other); h'.online == h.online && h'.who == h.who && h'.store == h.store
  {
    var h1 := h.(contacts := h.contacts + {(owner, other)});
    if owner in h1.online {
      NoMailSend(h1, h1.online[owner], ContactList(ContactsOf(h1, owner)));
    }
  }

  /** A direct message reaches its target and nobody else. */
  lemma MailToUser(h: Hub, m: Frame, s: Sid)
    requires m.Msg? && Registry(h)
    ensures var h' := ToUser(h, m);
      && h'.online == h.online && h'.who == h.who
      && Inbox(h', s) == Inbox(h, s) + (if m.to in h.online && h.online[m.to] == s then [m] else [])
      && h'.store.table == Record(h.store, RowOf(m, None)).table
      && h'.store.pending == h.store.pending + if m.to in h.online then {} else {(m.id, m.to)}
  {
    var h1 := h.(store := Record(h.store, RowOf(m, None)));
    NoMailNote(h1, m.sender, m.to);
    var h2 := NoteContact(h1, m.sender, m.to);
    NoMailNote(h2, m.to, m.sender);
    var h3 := NoteContact(h2, m.to, m.sender);
    assert Inbox(h1, s) == Inbox(h, s);
    if m.to in h3.online { SentOne(h3, h3.online[m.to], m, s); }
  }

  /** A room message reaches each member it was sealed for, with their own copy. */
  lemma MailToRoom(h: Hub, m: Frame, shares: Option<map<string, Share>>, s: Sid)
    requires m.Msg? && Registry(h)
    ensures var h', owed := ToRoom(h, m, shares), Served(Members(h, m.to) - {m.sender}, m, shares);
      && h'.online == h.online && h'.who == h.who
      && Inbox(h', s) == Inbox(h, s) + (if s in h.who && h.who[s] in owed then [AddressedTo(m, shares, h.who[s]).value] else [])
      && h'.store.table == Record(h.store, RowOf(m, shares)).table
      && h'.store.pending == h.store.pending + set u | u in owed && u !in h.online :: (m.id, u)
  {
    var h1 := h.(store := Record(h.store, RowOf(m, shares)));
    var names := Members(h1, m.to) - {m.sender};
    var h' := FanOut(h1, names, m, shares);
    if s in h.who && h.who[s] in Served(names, m, shares) {
      assert h.who[s] in h1.online && h1.online[h.who[s]] == s;
      assert s in Sessions(h1, Served(names, m, shares));
      var f := AddressedTo(m, shares, h.who[s]).value;
      assert Box(h', s) == Box(h, s) + [f];
      OneMore(Box(h, s), f);
    } else {
      assert Box(h', s) == Box(h, s);
    }
  }

  lemma MailOfFlush(h: Hub, sid: Sid, user: string, s: Sid)
    ensures Inbox(FlushPending(h, sid, user), s)
         == Inbox(h, s) + if s == sid then FlushFrames(Flushed(h.store, user), user) else []
  {
    var frames := FlushFrames(Flushed(h.store, user), user);
    FlushIsQuiet(Flushed(h.store, user), user);
    ManyMore(Box(h, sid), frames);
    assert Inbox(h, s) + [] == Inbox(h, s);
  }

  // ------------------------------------------------------------ an accepted send

  /** The message the server builds: the sender is the session's, never the frame's. */
  function Accepted(me: string, r: Request): (m: Frame)
    requires r.Send?
    ensures m.Msg?
  {
    Msg(me, r.to, r.body, r.nonce, r.id, r.ts)
  }

  function SharesOf(r: Request): Option<map<string, Share>>
    requires r.Send?
  {
    if IsRoom(r.to) then r.shares else None
  }

  /** Who is owed an accepted message. */
  function OwedTo(h: Hub, me: string, r: Request): set<string>
    requires r.Send?
  {
    if IsRoom(r.to) then Served(Members(h, r.to) - {me}, Accepted(me, r), r.shares) else {r.to}
  }

  /** Each owed recipient who is online is handed their own copy, once, and nobody else
      is handed anything. */
  lemma SendHands(h: Hub, sid: Sid, me: string, r: Request, s: Sid)
    requires Registry(h) && r.Send? && Refusal(h, me, r.to).None?
    ensures Inbox(DoSend(h, sid, me, r), s) == Inbox(h, s)
      + if s in h.who && h.who[s] in OwedTo(h, me, r) then [AddressedTo(Accepted(me, r), SharesOf(r), h.who[s]).value] else []
  {
    var m := Accepted(me, r);
    if IsRoom(r.to) {
      MailToRoom(h, m, r.shares, s);
      SentOne(ToRoom(h, m, r.shares), sid, Ack(r.id), s);
    } else {
      MailToUser(h, m, s);
      SentOne(ToUser(h, m), sid, Ack(r.id), s);
    }
  }

  /** The message is stored unless its id already is, and each owed recipient who is away
      is queued. */
  lemma SendStores(h: Hub, sid: Sid, me: string, r: Request)
    requires Registry(h) && r.Send? && Refusal(h, me, r.to).None?
    ensures var h' := DoSend(h, sid, me, r);
      && h'.online == h.online
      && h'.store.table == Record(h.store, RowOf(Accepted(me, r), SharesOf(r))).table
      && h'.store.pending == h.store.pending + set u | u in OwedTo(h, me, r) && u !in h.online :: (r.id, u)
  {
    if IsRoom(r.to) { RoomStores(h, me, r); } else { UserStores(h, me, r); }
  }

  lemma UserStores(h: Hub, me: string, r: Request)
    requires Registry(h) && r.Send? && !IsRoom(r.to)
    ensures var h' := ToUser(h, Accepted(me, r));
      && h'.online == h.online
      && h'.store.table == Record(h.store, RowOf(Accepted(me, r), None)).table
      && h'.store.pending == h.store.pending + set u | u in {r.to} && u !in h.online :: (r.id, u)
  {
    MailToUser(h, Accepted(me, r), 0);
    assert (set u | u in {r.to} && u !in h.online :: (r.id, u)) == if r.to in h.online then {} else {(r.id, r.to)};
  }

  lemma RoomStores(h: Hub, me: string, r: Request)
    requires Registry(h) && r.Send? && IsRoom(r.to)
    ensures var h' := ToRoom(h, Accepted(me, r), r.shares);
      && h'.online == h.online
      && h'.store.table == Record(h.store, RowOf(Accepted(me, r), r.shares)).table
      && h'.store.pending == h.store.pending + set u | u in OwedTo(h, me, r) && u !in h.online :: (r.id, u)
  {
    MailToRoom(h, Accepted(me, r), r.shares, 0);
  }

  /** An accepted direct message makes each party the other's contact, and changes no
      other pair. */
  lemma SendMakesContacts(h: Hub, sid: Sid, me: string, r: Request)
    requires r.Send? && Refusal(h, me, r.to).None? && !IsRoom(r.to) && me != "" && !IsRoom(me) && me != r.to
    ensures DoSend(h, sid, me, r).contacts == h.contacts + {(me, r.to), (r.to, me)}
  {
    var h1 := h.(store := Record(h.store, RowOf(Accepted(me, r), None)));
    NotedIs(h1, me, r.to);
    NotedIs(NoteContact(h1, me, r.to), r.to, me);
  }

  lemma NotedIs(h: Hub, owner: string, other: string)
    requires owner != "" && other != "" && owner != other && !IsRoom(other)
    ensures NoteContact(h, owner, other).contacts == h.contacts + {(owner, other)}
  {}

  /** A refused message leaves no trace but the refusal, and is refused exactly when it
      has no recipient, the room is not there or not the sender's, or nobody has the
      name. */
  lemma RefusedLeavesNoTrace(h: Hub, sid: Sid, me: string, r: Request)
    requires r.Send?
    ensures Refusal(h, me, r.to).Some? ==> DoSend(h, sid, me, r) == SendTo(h, sid, Error(Refusal(h, me, r.to).value))
    ensures Refusal(h, me, r.to).Some? <==>
      (r.to == "" || (IsRoom(r.to) && me !in Members(h, r.to)) || (!IsRoom(r.to) && r.to !in h.online && r.to !in h.users))
    ensures Refusal(h, me, r.to).None? ==>
      |Box(DoSend(h, sid, me, r), sid)| > 0 && Box(DoSend(h, sid, me, r), sid)[|Box(DoSend(h, sid, me, r), sid)| - 1] == Ack(r.id)
  {}

  // ---------------------------------------------------------- hints and receipts

  /** A typing hint reaches exactly the person, or exactly the other members of a room the
      sender is in, who are online; and nothing else happens. */
  lemma TypingReaches(h: Hub, me: string, to: string, on: bool, s: Sid)
    requires Registry(h)
    ensures var h' := DoTyping(h, me, to, on);
      && h' == h.(outbox := h'.outbox)
      && Box(h', s) == Box(h, s) + (if s in h.who && Hears(h, me, to, h.who[s]) then [TypingFrom(me, to, on)] else [])
  {
    var names := if IsRoom(to) then Members(h, to) - {me} else {to};
    assert Box(h, s) + [] == Box(h, s);
    if s in h.who && h.who[s] in names { assert h.online[h.who[s]] == s && s in Sessions(h, names); }
    if s in Sessions(h, names) {
      var name :| name in names && name in h.online && h.online[name] == s;
      assert h.who[s] == name;
    }
    BoxOfAll(h, Sessions(h, names), TypingFrom(me, to, on), s);
  }

  ghost predicate Hears(h: Hub, me: string, to: string, name: string) {
    to != "" && if IsRoom(to) then me in Members(h, to) && name in Members(h, to) && name != me else name == to
  }

  /** A receipt marks the message and changes no other table; one that names no stored
      message changes nothing. */
  lemma ReceiptMarks(h: Hub, sid: Sid, me: string, ref: string, state: Label, when: int)
    requires ref != "" && state != SENT
    ensures var h', stored := DoReceipt(h, sid, me, ref, state, when), Stored(h.store.table, ref);
      && h' == h.(store := if stored then Mark(h.store, ref, state, when) else h.store, outbox := h'.outbox)
      && (!stored ==> h' == h)
  {}

  /** It tells exactly the sender of the message, if that is somebody else who is online. */
  lemma ReceiptTells(h: Hub, sid: Sid, me: string, ref: string, state: Label, when: int, s: Sid)
    requires Registry(h) && ref != "" && state != SENT
    ensures var sender := SenderOf(h.store.table, ref);
      Box(DoReceipt(h, sid, me, ref, state, when), s) == Box(h, s)
        + (if s in h.who && sender == Some(h.who[s]) && h.who[s] != me then [ReceiptFrom(me, h.who[s], ref, state)] else [])
  {
    assert Box(h, s) + [] == Box(h, s);
    if s in h.who { assert h.online[h.who[s]] == s; }
    var sender := SenderOf(h.store.table, ref);
    if sender.Some? && sender.value in h.online { assert h.who[h.online[sender.value]] == sender.value; }
  }
}
