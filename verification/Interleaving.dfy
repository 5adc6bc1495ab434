/** The server with its threads interleaved: one reader thread per connection, each
    lock block or transaction of im/server/router.py one atomic step. Steps that only
    read, or that send frames other than MSG, do not appear. */
module Interleaving {
  import opened Text
  import opened Messages
  import opened Hub
  import opened Mail
  import opened Absences
  import Rooms

  /** A MSG frame. */
  type Message = f: Frame | f.Msg? witness Msg("", "", Absent, None, "", 0)

  /** Where a connection's reader thread stands. */
  datatype Pc =
    | Idle
    | Closed
    | LoginClaim(user: string)                         // credentials good; the name not yet claimed
    | LoginName(user: string)                          // name claimed; session.username not yet set
    | LoginFlush(user: string)
    | LoginHand(user: string, rows: seq<Row>)          // taken by a flush, still to be sent
    | DropLogout(user: string)
    | DropName(user: string)                           // name released; session.username not yet cleared
    | UserLookup(m: Message)
    | UserExists(m: Message)
    | UserRecord(m: Message, found: Option<Sid>)
    | UserNote(m: Message, found: Option<Sid>)
    | UserNoteBack(m: Message, found: Option<Sid>)
    | UserDeliver(m: Message, found: Option<Sid>)
    | RoomExists(m: Message, shares: Option<map<string, Share>>)
    | RoomMembers(m: Message, shares: Option<map<string, Share>>)
    | RoomRecord(m: Message, shares: Option<map<string, Share>>, left: set<string>)
    | RoomNext(m: Message, shares: Option<map<string, Share>>, left: set<string>)
    | RoomGot(m: Message, shares: Option<map<string, Share>>, name: string, found: Option<Sid>, left: set<string>)
    | CreateJoin(room: string, names: seq<string>)
    | InviteCheck(room: string, names: seq<string>)
    | AddCheck(room: string, names: seq<string>)
    | AddJoin(room: string, name: string, names: seq<string>)
    | JoinJoin(room: string)
    | LeaveLeave(room: string)
    | ContactAdd(name: string)

  /** One MSG put on a session's queue, and the name it was looked up or flushed by. */
  datatype Sent = Sent(sid: Sid, name: string, frame: Message)

  /** The shared state, the threads, and what has happened: every MSG sent, every id
      used, and who is owed each accepted message. */
  datatype Net = Net(
    users: map<string, Account>,
    online: map<string, Sid>,
    who: map<Sid, string>,
    rooms: map<string, set<string>>,
    contacts: set<(string, string)>,
    store: Store,
    pcs: map<Sid, Pc>,
    sent: seq<Sent>,
    used: set<string>,
    owed: set<(string, string)>)

  const QUIET_NET := Net(map[], map[], map[], map[], {}, Store([], {}), map[], [], {}, {})

  datatype Event =
    | Connect(sid: Sid)
    | Hear(sid: Sid, request: Request)     // a frame read from the socket
    | Hang(sid: Sid)                       // the socket closed
    | Go(sid: Sid, pick: string)           // the thread's next step; pick orders a fan-out

  function At(s: Net, sid: Sid, pc: Pc): Net {
    s.(pcs := s.pcs[sid := pc])
  }

  function Lookup(s: Net, name: string): Option<Sid> {
    if name in s.online then Some(s.online[name]) else None
  }

  function AddContactTo(contacts: set<(string, string)>, owner: string, other: string): set<(string, string)> {
    if owner == "" || other == "" || IsRoom(other) || owner == other then contacts else contacts + {(owner, other)}
  }

  function JoinTo(rooms: map<string, set<string>>, room: string, user: string): map<string, set<string>> {
    rooms[room := Rooms.MembersOf(rooms, room) + {user}]
  }

  /** Frame ids are fresh and no unsealed message's nonce is the marker. */
  predicate Enabled(s: Net, e: Event) {
    match e
    case Connect(sid) => sid !in s.pcs && sid !in s.who
    case Hear(sid, r) =>
      sid in s.pcs && s.pcs[sid].Idle? && (r.Send? ==> r.id !in s.used && Markless(r.nonce, SharesOf(r)))
    case Hang(sid) => sid in s.pcs && s.pcs[sid].Idle?
    case Go(sid, _) => sid in s.pcs && !s.pcs[sid].Idle? && !s.pcs[sid].Closed?
  }

  function Hearing(s: Net, sid: Sid, r: Request): Net {
    match r
    case Register(user, pass, pubkey) =>
      if user == "" || pass == "" || IsRoom(user) || user in s.users then s
      else s.(users := s.users[user := Account(pass, pubkey)])
    case Login(user, pass) =>
      if sid in s.who || user == "" || pass == "" || !(user in s.users && s.users[user].pass == pass) then s
      else At(s, sid, LoginClaim(user))
    case _ => if sid !in s.who then s else Asking(s, sid, s.who[sid], r)
  }

  function Asking(s: Net, sid: Sid, me: string, r: Request): Net {
    match r
    case Send(to, _, _, shares, id, _) =>
      var s1 := s.(used := s.used + {id});
      if to == "" then s1
      else if IsRoom(to) then At(s1, sid, RoomExists(Accepted(me, r), shares))
      else At(s1, sid, UserLookup(Accepted(me, r)))
    case CreateRoom(room, names) =>
      if !GoodRoomName(room) || room in s.rooms then s
      else At(s.(rooms := s.rooms[room := {}]), sid, CreateJoin(room, if |names| > 64 then names[..64] else names))
    case Invite(room, names) =>
      if !GoodRoomName(room) || room !in s.rooms then s
      else At(s, sid, InviteCheck(room, if |names| > 64 then names[..64] else names))
    case Join(room) => if !GoodRoomName(room) || room !in s.rooms then s else At(s, sid, JoinJoin(room))
    case Leave(room) => if !GoodRoomName(room) || me !in Rooms.MembersOf(s.rooms, room) then s else At(s, sid, LeaveLeave(room))
    case AddContact(name) =>
      if name == "" || name == me || IsRoom(name) || name !in s.users then s else At(s, sid, ContactAdd(name))
    case RemoveContact(name) => s.(contacts := s.contacts - {(me, name)})
    case _ => s
  }

  predicate AtLogin(pc: Pc) {
    pc.LoginClaim? || pc.LoginName? || pc.LoginFlush? || pc.LoginHand? || pc.DropLogout? || pc.DropName?
  }

  predicate AtUser(pc: Pc) {
    pc.UserLookup? || pc.UserExists? || pc.UserRecord? || pc.UserNote? || pc.UserNoteBack? || pc.UserDeliver?
  }

  predicate AtRoom(pc: Pc) {
    pc.RoomExists? || pc.RoomMembers? || pc.RoomRecord? || pc.RoomNext? || pc.RoomGot?
  }

  /** One atomic step of a thread in the middle of a handler. */
  function Going(s: Net, sid: Sid, pick: string): Net
    requires sid in s.pcs
  {
    var pc := s.pcs[sid];
    if AtLogin(pc) then GoLogin(s, sid, pc)
    else if AtUser(pc) then GoUser(s, sid, pc)
    else if AtRoom(pc) then GoRoom(s, sid, pc, pick)
    else GoKeeping(s, sid, pc)
  }

  /** Logging in and dropping off. */
  function GoLogin(s: Net, sid: Sid, pc: Pc): Net
    requires AtLogin(pc)
  {
    match pc
    case LoginClaim(u) =>
      if u in s.online then At(s, sid, Idle) else At(s.(online := s.online[u := sid]), sid, LoginName(u))
    case LoginName(u) => At(s.(who := s.who[sid := u]), sid, LoginFlush(u))
    case LoginFlush(u) => At(s.(store := Unqueued(s.store, u)), sid, LoginHand(u, Flushed(s.store, u)))
    case LoginHand(u, rows) => Handing(s, sid, u, rows)
    case DropLogout(u) => At(s.(online := s.online - {u}), sid, DropName(u))
    case DropName(u) => At(s.(who := s.who - {sid}), sid, Closed)
  }

  /** A message to one person. */
  function GoUser(s: Net, sid: Sid, pc: Pc): Net
    requires AtUser(pc)
  {
    match pc
    case UserLookup(m) =>
      if m.to in s.online then At(s, sid, UserRecord(m, Lookup(s, m.to))) else At(s, sid, UserExists(m))
    case UserExists(m) => if m.to in s.users then At(s, sid, UserRecord(m, None)) else At(s, sid, Idle)
    case UserRecord(m, found) => RecordDirect(s, sid, m, found)
    case UserNote(m, found) =>
      At(s.(contacts := AddContactTo(s.contacts, m.sender, m.to)), sid, UserNoteBack(m, found))
    case UserNoteBack(m, found) =>
      At(s.(contacts := AddContactTo(s.contacts, m.to, m.sender)), sid, UserDeliver(m, found))
    case UserDeliver(m, found) => At(DeliverOne(s, m.to, found, m), sid, Idle)
  }

  /** A message to a room: the membership is read once, the row stored once, and each
      member looked up when their turn comes. */
  function GoRoom(s: Net, sid: Sid, pc: Pc, pick: string): Net
    requires AtRoom(pc)
  {
    match pc
    case RoomExists(m, shares) => if m.to in s.rooms then At(s, sid, RoomMembers(m, shares)) else At(s, sid, Idle)
    case RoomMembers(m, shares) =>
      if m.sender in Rooms.MembersOf(s.rooms, m.to)
      then At(s, sid, RoomRecord(m, shares, Rooms.MembersOf(s.rooms, m.to) - {m.sender})) else At(s, sid, Idle)
    case RoomRecord(m, shares, left) => RecordRoom(s, sid, m, shares, left)
    case RoomNext(m, shares, left) =>
      if left == {} then At(s, sid, Idle)
      else if pick in left then At(s, sid, RoomGot(m, shares, pick, Lookup(s, pick), left - {pick}))
      else At(s, sid, RoomNext(m, shares, left))
    case RoomGot(m, shares, name, found, left) =>
      if AddressedTo(m, shares, name).None? then At(s, sid, RoomNext(m, shares, left))
      else At(DeliverOne(s, name, found, AddressedTo(m, shares, name).value), sid, RoomNext(m, shares, left))
  }

  /** Rooms and contacts. */
  function GoKeeping(s: Net, sid: Sid, pc: Pc): Net {
    match pc
    case CreateJoin(room, names) =>
      if sid in s.who then At(s.(rooms := JoinTo(s.rooms, room, s.who[sid])), sid, AddCheck(room, names)) else At(s, sid, Idle)
    case InviteCheck(room, names) =>
      if sid in s.who && s.who[sid] in Rooms.MembersOf(s.rooms, room) then At(s, sid, AddCheck(room, names)) else At(s, sid, Idle)
    case AddCheck(room, names) =>
      if names == [] then At(s, sid, Idle)
      else if names[0] != "" && !IsRoom(names[0]) && names[0] in s.users then At(s, sid, AddJoin(room, names[0], names[1..]))
      else At(s, sid, AddCheck(room, names[1..]))
    case AddJoin(room, name, names) => At(s.(rooms := JoinTo(s.rooms, room, name)), sid, AddCheck(room, names))
    case JoinJoin(room) =>
      if sid in s.who then At(s.(rooms := JoinTo(s.rooms, room, s.who[sid])), sid, Idle) else At(s, sid, Idle)
    case LeaveLeave(room) =>
      if sid in s.who && room in s.rooms
      then At(s.(rooms := s.rooms[room := s.rooms[room] - {s.who[sid]}]), sid, Idle) else At(s, sid, Idle)
    case ContactAdd(name) =>
      if sid in s.who then At(s.(contacts := AddContactTo(s.contacts, s.who[sid], name)), sid, Idle) else At(s, sid, Idle)
    case _ => At(s, sid, pc)
  }

  /** Where a thread stands that has looked at the next name of a list. */
  function AfterCheck(s: Net, pc: Pc): Pc
    requires pc.AddCheck?
  {
    if pc.names == [] then Idle
    else if pc.names[0] != "" && !IsRoom(pc.names[0]) && pc.names[0] in s.users then AddJoin(pc.room, pc.names[0], pc.names[1..])
    else AddCheck(pc.room, pc.names[1..])
  }

  lemma CheckIs(s: Net, sid: Sid)
    requires sid in s.pcs && s.pcs[sid].AddCheck?
    ensures GoKeeping(s, sid, s.pcs[sid]) == At(s, sid, AfterCheck(s, s.pcs[sid]))
  {}

  function Handing(s: Net, sid: Sid, u: string, rows: seq<Row>): Net {
    if rows == [] then At(s, sid, Idle)
    else if FlushFrame(rows[0], u).None? then At(s, sid, LoginHand(u, rows[1..]))
    else At(s.(sent := s.sent + [Sent(sid, u, FlushFrame(rows[0], u).value)]), sid, LoginHand(u, rows[1..]))
  }

  /** The session found a moment ago is sent the frame; if none was, it is queued. */
  function DeliverOne(s: Net, name: string, found: Option<Sid>, f: Message): Net
  {
    if found.Some? then s.(sent := s.sent + [Sent(found.value, name, f)])
    else s.(store := QueueFor(s.store, name, f.id))
  }

  function RecordDirect(s: Net, sid: Sid, m: Message, found: Option<Sid>): Net
  {
    At(s.(store := Record(s.store, RowOf(m, None)), owed := s.owed + {(m.id, m.to)}), sid, UserNote(m, found))
  }

  function RecordRoom(s: Net, sid: Sid, m: Message, shares: Option<map<string, Share>>, left: set<string>): Net
  {
    At(s.(store := Record(s.store, RowOf(m, shares)), owed := s.owed + Duties(m, shares, left)), sid, RoomNext(m, shares, left))
  }

  /** The deliveries a room message still owes to some names. */
  function Duties(m: Message, shares: Option<map<string, Share>>, names: set<string>): set<(string, string)>
  {
    set u | u in names && AddressedTo(m, shares, u).Some? :: (m.id, u)
  }

  function Next(s: Net, e: Event): Net {
    if !Enabled(s, e) then s else
    match e
    case Connect(sid) => At(s, sid, Idle)
    case Hear(sid, r) => Hearing(s, sid, r)
    case Hang(sid) => At(s, sid, if sid in s.who then DropLogout(s.who[sid]) else Closed)
    case Go(sid, pick) => Going(s, sid, pick)
  }

  /** The state after any interleaving of events; an event not enabled does nothing. */
  function Run(s: Net, events: seq<Event>): Net {
    if events == [] then s else Next(Run(s, events[..|events| - 1]), events[|events| - 1])
  }
}
