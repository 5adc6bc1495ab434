/** im/server/router.py with its registries, one handler call at a time. A session is
    a number; what it was sent is an append-only outbox. A sorted list of distinct
    names is the set it lists. */
module Hub {
  import opened Text
  import opened Crypto
  import opened Messages
  import Rooms

  type Sid = nat

  /** An account: its credential (scrypt taken as injective) and its public key. */
  datatype Account = Account(pass: string, pubkey: Option<PublicKey>)

  /** One stored row, as one reader may see it. */
  datatype Entry = Entry(id: string, sender: string, to: string, body: Body, nonce: Option<string>, ts: int, state: Label)

  /** The codes of an ERROR frame. */
  datatype Code =
    | BAD_REGISTER | BAD_USERNAME | USER_EXISTS | ALREADY_LOGGED_IN | BAD_LOGIN | BAD_CREDENTIALS | ALREADY_ONLINE
    | NO_RECIPIENT | BAD_CONTACT | NO_SUCH_USER | BAD_ROOM | ROOM_EXISTS | NO_SUCH_ROOM | NOT_A_MEMBER | BAD_RECEIPT | NO_KEY | NOT_LOGGED_IN | UNSUPPORTED | USER_OFFLINE

  datatype Frame =
    | Pong
    | Okay(user: string)
    | Error(code: Code)
    | LoginOk(user: string, roster: set<string>, contacts: map<string, bool>, rooms: set<string>)
    | ContactList(contacts: map<string, bool>)
    | KeyIs(user: string, pubkey: PublicKey)
    | RoomState(room: string, members: set<string>)
    | Msg(sender: string, to: string, body: Body, nonce: Option<string>, id: string, ts: int)
    | Ack(ref: string)
    | HistoryResult(room: string, entries: seq<Entry>)
    | ReceiptFrom(sender: string, to: string, ref: string, state: Label)
    | TypingFrom(sender: string, to: string, on: bool)
    | Presence(user: string, online: bool)

  /** What a client asks, its payload fields already read. A missing or falsy text
      field is "", a missing number 0. */
  datatype Request =
    | Ping
    | Register(user: string, pass: string, pubkey: Option<PublicKey>)
    | Login(user: string, pass: string)
    | Send(to: string, body: Body, nonce: Option<string>, shares: Option<map<string, Share>>, id: string, ts: int)
    | CreateRoom(room: string, members: seq<string>)
    | Join(room: string)
    | Leave(room: string)
    | Invite(room: string, members: seq<string>)
    | AddContact(user: string)
    | RemoveContact(user: string)
    | Typing(to: string, on: bool)
    | Receipt(ref: string, state: Label, when: int)
    | History(target: string, before: int, limit: int)
    | GetKey(user: string)
    | Unsupported

  datatype Hub = Hub(
    users: map<string, Account>,
    online: map<string, Sid>,
    who: map<Sid, string>,
    rooms: map<string, set<string>>,
    contacts: set<(string, string)>,
    store: Store,
    outbox: map<Sid, seq<Frame>>)

  // ------------------------------------------------------------------ sending

  function Box(h: Hub, sid: Sid): seq<Frame> {
    if sid in h.outbox then h.outbox[sid] else []
  }

  function SendTo(h: Hub, sid: Sid, f: Frame): Hub {
    h.(outbox := h.outbox[sid := Box(h, sid) + [f]])
  }

  /** One frame to each of several sessions. */
  function SendAll(h: Hub, targets: set<Sid>, f: Frame): Hub {
    h.(outbox := map sid | sid in h.outbox.Keys + targets :: if sid in targets then Box(h, sid) + [f] else Box(h, sid))
  }

  function Sessions(h: Hub, names: set<string>): set<Sid> {
    set name | name in names && name in h.online :: h.online[name]
  }

  /** Tell everyone else that a user arrived or left. */
  function Announce(h: Hub, user: string, online: bool): Hub {
    SendAll(h, Sessions(h, h.online.Keys - {user}), Presence(user, online))
  }

  // ----------------------------------------------------------------- accounts

  function DoRegister(h: Hub, sid: Sid, user: string, pass: string, pubkey: Option<PublicKey>): Hub {
    if user == "" || pass == "" then SendTo(h, sid, Error(BAD_REGISTER))
    else if IsRoom(user) then SendTo(h, sid, Error(BAD_USERNAME))
    else if user in h.users then SendTo(h, sid, Error(USER_EXISTS))
    else SendTo(h.(users := h.users[user := Account(pass, pubkey)]), sid, Okay(user))
  }

  function ContactsOf(h: Hub, owner: string): map<string, bool> {
    map p | p in h.contacts && p.0 == owner :: p.1 := p.1 in h.online
  }

  function RoomsOf(h: Hub, user: string): set<string> {
    set r | r in h.rooms && user in h.rooms[r]
  }

  function Verify(h: Hub, user: string, pass: string): bool {
    user in h.users && h.users[user].pass == pass
  }

  function DoLogin(h: Hub, sid: Sid, user: string, pass: string): Hub {
    if sid in h.who then SendTo(h, sid, Error(ALREADY_LOGGED_IN))
    else if user == "" || pass == "" then SendTo(h, sid, Error(BAD_LOGIN))
    else if !Verify(h, user, pass) then SendTo(h, sid, Error(BAD_CREDENTIALS))
    else if user in h.online then SendTo(h, sid, Error(ALREADY_ONLINE))
    else FlushPending(Announce(Greet(Claim(h, sid, user), sid, user), user, true), sid, user)
  }

  function Claim(h: Hub, sid: Sid, user: string): Hub {
    h.(online := h.online[user := sid], who := h.who[sid := user])
  }

  /** LOGIN_OK: who else is here now, whom this person knows, which rooms they are in. */
  function Greeting(h: Hub, user: string): Frame {
    LoginOk(user, h.online.Keys - {user}, ContactsOf(h, user), RoomsOf(h, user))
  }

  function Greet(h: Hub, sid: Sid, user: string): Hub {
    SendTo(h, sid, Greeting(h, user))
  }

  function Forgo(h: Hub, sid: Sid, user: string): Hub {
    h.(online := h.online - {user}, who := h.who - {sid})
  }

  /** The connection closed. Membership is not dropped. */
  function Disconnect(h: Hub, sid: Sid): Hub {
    if sid !in h.who then h else
      var user := h.who[sid];
      Announce(Forgo(h, sid, user), user, false)
  }

  // ----------------------------------------------------------------- contacts

  function SendContacts(h: Hub, sid: Sid, user: string): Hub {
    SendTo(h, sid, ContactList(ContactsOf(h, user)))
  }

  function DoAddContact(h: Hub, sid: Sid, me: string, name: string): Hub {
    if name == "" then SendTo(h, sid, Error(NO_RECIPIENT))
    else if name == me then SendTo(h, sid, Error(BAD_CONTACT))
    else if IsRoom(name) then SendTo(h, sid, Error(BAD_CONTACT))
    else if name !in h.users then SendTo(h, sid, Error(NO_SUCH_USER))
    else SendContacts(h.(contacts := h.contacts + {(me, name)}), sid, me)
  }

  function DoRemoveContact(h: Hub, sid: Sid, me: string, name: string): Hub {
    SendContacts(h.(contacts := h.contacts - {(me, name)}), sid, me)
  }

  /** Remember somebody you talked to, and say so if the list changed. */
  function NoteContact(h: Hub, owner: string, other: string): Hub {
    if other == "" || IsRoom(other) || owner == "" || owner == other || (owner, other) in h.contacts then h else
      var h1 := h.(contacts := h.contacts + {(owner, other)});
      if owner in h1.online then SendContacts(h1, h1.online[owner], owner) else h1
  }

  // -------------------------------------------------------------------- rooms

  predicate GoodRoomName(room: string) {
    IsRoom(room) && 2 <= |room| <= 32 && forall i | 0 <= i < |room| :: !IsSpace(room[i])
  }

  function Members(h: Hub, room: string): set<string> {
    Rooms.MembersOf(h.rooms, room)
  }

  function SetMembers(h: Hub, room: string, members: set<string>): Hub {
    h.(rooms := h.rooms[room := members])
  }

  /** The names of one request that get in: accounts, among the first 64. */
  function Admitted(h: Hub, names: seq<string>): set<string> {
    set name | name in (if |names| > 64 then names[..64] else names)
               && name != "" && !IsRoom(name) && name in h.users
  }

  /** Tell every member who is in the room now. */
  function Broadcast(h: Hub, room: string): Hub {
    SendAll(h, Sessions(h, Members(h, room)), RoomState(room, Members(h, room)))
  }

  function DoCreateRoom(h: Hub, sid: Sid, me: string, room: string, names: seq<string>): Hub {
    if !GoodRoomName(room) then SendTo(h, sid, Error(BAD_ROOM))
    else if room in h.rooms then SendTo(h, sid, Error(ROOM_EXISTS))
    else Broadcast(SetMembers(h, room, {me} + Admitted(h, names)), room)
  }

  function DoInvite(h: Hub, sid: Sid, me: string, room: string, names: seq<string>): Hub {
    if !GoodRoomName(room) then SendTo(h, sid, Error(BAD_ROOM))
    else if room !in h.rooms then SendTo(h, sid, Error(NO_SUCH_ROOM))
    else if me !in h.rooms[room] then SendTo(h, sid, Error(NOT_A_MEMBER))
    else
      var members := h.rooms[room] + Admitted(h, names);
      var h1 := if exists name | name in names :: name !in members then SendTo(h, sid, Error(NO_SUCH_USER)) else h;
      if Admitted(h, names) == {} then h1 else Broadcast(SetMembers(h1, room, members), room)
  }

  function DoJoin(h: Hub, sid: Sid, me: string, room: string): Hub {
    if !GoodRoomName(room) then SendTo(h, sid, Error(BAD_ROOM))
    else if room !in h.rooms then SendTo(h, sid, Error(NO_SUCH_ROOM))
    else Broadcast(SetMembers(h, room, h.rooms[room] + {me}), room)
  }

  function DoLeave(h: Hub, sid: Sid, me: string, room: string): Hub {
    if !GoodRoomName(room) then SendTo(h, sid, Error(BAD_ROOM))
    else if me !in Members(h, room) then SendTo(h, sid, Error(NOT_A_MEMBER))
    else
      var members := h.rooms[room] - {me};
      SendTo(Broadcast(SetMembers(h, room, members), room), sid, RoomState(room, members))
  }

  // ----------------------------------------------------------------- delivery

  /** The copy of a message that one member can open; None when no well-formed share
      was sealed for them. */
  function AddressedTo(m: Frame, shares: Option<map<string, Share>>, member: string): Option<Frame>
    requires m.Msg?
  {
    if shares.None? then Some(m)
    else if member !in shares.value || shares.value[member].Malformed? then None
    else
      var share := shares.value[member];
      Some(m.(body := Text(share.body), nonce := Some(share.nonce)))
  }

  /** The row a message is stored as: sealed room messages keep the whole map. */
  function RowOf(m: Frame, shares: Option<map<string, Share>>): Row
    requires m.Msg?
  {
    var conversation := if IsRoom(m.to) then m.to else DirectConversation(m.sender, m.to);
    if shares.Some? && IsRoom(m.to) then
      Row(m.id, conversation, m.sender, m.to, Envelopes(shares.value), Some(ENVELOPES), m.ts, None, None)
    else
      Row(m.id, conversation, m.sender, m.to, m.body, m.nonce, m.ts, None, None)
  }

  /** One stored row as the reader may see it: their own share of a sealed map, or
      nothing when there is none. */
  function HistoryEntry(row: Row, reader: string): Option<Entry> {
    if row.nonce == Some(ENVELOPES) then
      if row.body.Text? then None
      else
        var shares := if row.body.Envelopes? then row.body.shares else map[];
        if reader !in shares || shares[reader].Malformed? then None
        else Some(Entry(row.id, row.sender, row.recipient, Text(shares[reader].body),
                        Some(shares[reader].nonce), row.ts, HistoryLabel(row)))
    else Some(Entry(row.id, row.sender, row.recipient, row.body, row.nonce, row.ts, HistoryLabel(row)))
  }

  /** The frame a login flush rebuilds from a row. */
  function FlushFrame(row: Row, reader: string): Option<Frame> {
    var entry := HistoryEntry(row, reader);
    if entry.None? then None
    else Some(Msg(row.sender, row.recipient, entry.value.body, entry.value.nonce, row.id, row.ts))
  }

  function FlushFrames(rows: seq<Row>, reader: string): seq<Frame> {
    if rows == [] then [] else
      var f := FlushFrame(rows[0], reader);
      (if f.None? then [] else [f.value]) + FlushFrames(rows[1..], reader)
  }

  function FlushPending(h: Hub, sid: Sid, user: string): Hub {
    var h1 := h.(store := Unqueued(h.store, user));
    h1.(outbox := h1.outbox[sid := Box(h1, sid) + FlushFrames(Flushed(h.store, user), user)])
  }

  /** Hand a message to a live session, or note who is still owed it. */
  function Deliver(h: Hub, name: string, m: Frame): Hub
    requires m.Msg?
  {
    if name in h.online then SendTo(h, h.online[name], m)
    else h.(store := QueueFor(h.store, name, m.id))
  }

  function ToUser(h: Hub, m: Frame): Hub
    requires m.Msg?
  {
    var h1 := h.(store := Record(h.store, RowOf(m, None)));
    var h2 := NoteContact(NoteContact(h1, m.sender, m.to), m.to, m.sender);
    Deliver(h2, m.to, m)
  }

  function FanOut(h: Hub, names: set<string>, m: Frame, shares: Option<map<string, Share>>): Hub
    requires m.Msg?
  {
    h.(outbox := map sid | sid in h.outbox.Keys + Sessions(h, Served(names, m, shares)) ::
         if sid in h.who && h.who[sid] in names && AddressedTo(m, shares, h.who[sid]).Some?
         then Box(h, sid) + [AddressedTo(m, shares, h.who[sid]).value] else Box(h, sid),
       store := h.store.(pending := h.store.pending
         + set name | name in Served(names, m, shares) && name !in h.online :: (m.id, name)))
  }

  /** Those of some names who are owed the message. */
  function Served(names: set<string>, m: Frame, shares: Option<map<string, Share>>): set<string>
    requires m.Msg?
  {
    set name | name in names && AddressedTo(m, shares, name).Some?
  }

  function ToRoom(h: Hub, m: Frame, shares: Option<map<string, Share>>): Hub
    requires m.Msg?
  {
    var h1 := h.(store := Record(h.store, RowOf(m, shares)));
    FanOut(h1, Members(h1, m.to) - {m.sender}, m, shares)
  }

  /** Why a message is refused, if it is. */
  function Refusal(h: Hub, me: string, to: string): Option<Code> {
    if to == "" then Some(NO_RECIPIENT)
    else if IsRoom(to) then
      if to !in h.rooms then Some(NO_SUCH_ROOM)
      else if me !in h.rooms[to] then Some(NOT_A_MEMBER)
      else None
    else if to !in h.online && to !in h.users then Some(USER_OFFLINE)
    else None
  }

  function DoSend(h: Hub, sid: Sid, me: string, r: Request): Hub
    requires r.Send?
  {
    var refused := Refusal(h, me, r.to);
    if refused.Some? then SendTo(h, sid, Error(refused.value)) else
      // `from` is set from the session, never taken from the frame.
      var m := Msg(me, r.to, r.body, r.nonce, r.id, r.ts);
      SendTo(if IsRoom(r.to) then ToRoom(h, m, r.shares) else ToUser(h, m), sid, Ack(r.id))
  }

  // ------------------------------------------------------- history, receipts

  function Entries(rows: seq<Row>, reader: string): seq<Entry> {
    if rows == [] then [] else
      var e := HistoryEntry(rows[0], reader);
      (if e.None? then [] else [e.value]) + Entries(rows[1..], reader)
  }

  function ConversationFor(me: string, target: string): string {
    if IsRoom(target) then target else DirectConversation(me, target)
  }

  /** The answer to a request for scrollback. */
  function HistoryReply(h: Hub, me: string, target: string, before: int, limit: int): (f: Frame)
    ensures f.Error? || f.HistoryResult?
  {
    if target == "" then Error(NO_RECIPIENT)
    else if IsRoom(target) && me !in Members(h, target) then Error(NOT_A_MEMBER)
    else
      HistoryResult(target, Entries(
        Messages.History(h.store.table, ConversationFor(me, target),
          if before == 0 then None else Some(before), if limit == 0 then DEFAULT_LIMIT else limit), me))
  }

  function DoReceipt(h: Hub, sid: Sid, me: string, ref: string, state: Label, when: int): Hub {
    if ref == "" || state == SENT then SendTo(h, sid, Error(BAD_RECEIPT)) else
      var sender := SenderOf(h.store.table, ref);
      if sender.None? then h else
        var h1 := h.(store := Mark(h.store, ref, state, when));
        if sender.value == me || sender.value !in h.online then h1
        else SendTo(h1, h.online[sender.value], ReceiptFrom(me, sender.value, ref, state))
  }

  /** A typing hint: every failure is silent. */
  function DoTyping(h: Hub, me: string, to: string, on: bool): Hub {
    if to == "" || (IsRoom(to) && me !in Members(h, to)) then h
    else SendAll(h, Sessions(h, if IsRoom(to) then Members(h, to) - {me} else {to}), TypingFrom(me, to, on))
  }

  function KeyReply(h: Hub, user: string): (f: Frame)
    ensures f.Error? || f.KeyIs?
  {
    if user == "" then Error(NO_RECIPIENT)
    else if user !in h.users || h.users[user].pubkey.None? then Error(NO_KEY)
    else KeyIs(user, h.users[user].pubkey.value)
  }

  function Handle(h: Hub, sid: Sid, r: Request): Hub {
    match r
    case Ping => SendTo(h, sid, Pong)
    case Register(u, p, k) => DoRegister(h, sid, u, p, k)
    case Login(u, p) => DoLogin(h, sid, u, p)
    case _ => if sid !in h.who then SendTo(h, sid, Error(NOT_LOGGED_IN)) else Serve(h, sid, h.who[sid], r)
  }

  /** Everything that needs to know who is asking. */
  function Serve(h: Hub, sid: Sid, me: string, r: Request): Hub {
    match r
    case Send(_, _, _, _, _, _) => DoSend(h, sid, me, r)
    case CreateRoom(room, ns) => DoCreateRoom(h, sid, me, room, ns)
    case Join(room) => DoJoin(h, sid, me, room)
    case Leave(room) => DoLeave(h, sid, me, room)
    case Invite(room, ns) => DoInvite(h, sid, me, room, ns)
    case AddContact(u) => DoAddContact(h, sid, me, u)
    case RemoveContact(u) => DoRemoveContact(h, sid, me, u)
    case Typing(to, on) => DoTyping(h, me, to, on)
    case Receipt(ref, state, when) => DoReceipt(h, sid, me, ref, state, when)
    case History(t, b, l) => SendTo(h, sid, HistoryReply(h, me, t, b, l))
    case GetKey(u) => SendTo(h, sid, KeyReply(h, u))
    case _ => SendTo(h, sid, Error(UNSUPPORTED))
  }

  // --------------------------------------------------------------------- runs

  datatype Step = Act(sid: Sid, request: Request) | Drop(sid: Sid)

  function Next(h: Hub, s: Step): Hub {
    match s
    case Act(sid, r) => Handle(h, sid, r)
    case Drop(sid) => Disconnect(h, sid)
  }

  function Run(h: Hub, steps: seq<Step>): Hub {
    if steps == [] then h else Next(Run(h, steps[..|steps| - 1]), steps[|steps| - 1])
  }

  const EMPTY := Hub(map[], map[], map[], map[], {}, Store([], {}), map[])

  // ------------------------------------------------------ what a session is sent

  lemma BoxOfAll(h: Hub, targets: set<Sid>, f: Frame, sid: Sid)
    ensures Box(SendAll(h, targets, f), sid) == if sid in targets then Box(h, sid) + [f] else Box(h, sid)
  {}

  lemma BoxOfFanOut(h: Hub, names: set<string>, m: Frame, shares: Option<map<string, Share>>, sid: Sid)
    requires m.Msg?
    ensures Box(FanOut(h, names, m, shares), sid) == Box(h, sid)
         || (sid in h.who && h.who[sid] in Served(names, m, shares)
             && Box(FanOut(h, names, m, shares), sid) == Box(h, sid) + [AddressedTo(m, shares, h.who[sid]).value])
  {}
}
