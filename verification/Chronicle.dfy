/** What a run leaves behind, told from its steps alone: who has an account, who is logged
    in, who is in which room and who is whose contact. Nothing here asks a handler. */
module Chronicle {
  import opened Text
  import opened Crypto
  import opened Messages
  import opened Hub
  import Rooms
  import Replica

  // ------------------------------------------------------------------ accounts

  /** The account of a name: the one it started with, or the one of the first request
      that could register it. */
  function AccountOf(h0: Hub, steps: seq<Step>, u: string): Option<Account> {
    if steps == [] then (if u in h0.users then Some(h0.users[u]) else None) else
      var before, s := AccountOf(h0, steps[..|steps| - 1], u), steps[|steps| - 1];
      if before.None? && s.Act? && Registers(s.request, u) then Some(Account(s.request.pass, s.request.pubkey)) else before
  }

  /** A request to register a name, with what an account needs. */
  predicate Registers(r: Request, u: string) {
    r.Register? && r.user == u && u != "" && !IsRoom(u) && r.pass != ""
  }

  // ------------------------------------------------------------------ sessions

  /** The name a session goes by: the one it last logged in under, unless its connection
      closed since. */
  ghost function NameOf(h0: Hub, steps: seq<Step>, sid: Sid): Option<string>
    decreases |steps|, 0
  {
    if steps == [] then None else
      var front, s := steps[..|steps| - 1], steps[|steps| - 1];
      if s == Drop(sid) then None
      else if s.sid == sid && LogsIn(h0, front, s) then Some(s.request.user)
      else NameOf(h0, front, sid)
  }

  ghost predicate Here(h0: Hub, steps: seq<Step>, u: string)
    decreases |steps|, 1
  {
    exists sid :: NameOf(h0, steps, sid) == Some(u)
  }

  /** A step that lets its session in: the right password of an account nobody is logged
      in to, from a session that has no name. */
  ghost predicate LogsIn(h0: Hub, front: seq<Step>, s: Step)
    decreases |front|, 2
  {
    && s.Act? && s.request.Login? && s.request.user != "" && s.request.pass != ""
    && NameOf(h0, front, s.sid).None? && !Here(h0, front, s.request.user)
    && HasPassword(h0, front, s.request.user, s.request.pass)
  }

  ghost predicate HasPassword(h0: Hub, steps: seq<Step>, u: string, pass: string) {
    AccountOf(h0, steps, u).Some? && AccountOf(h0, steps, u).value.pass == pass
  }

  // --------------------------------------------------------------------- rooms

  /** A name a room may have: a hash, 2 to 32 characters in all, no white space. */
  predicate ProperRoom(room: string) {
    2 <= |room| <= 32 && room[0] == '#' && forall i | 0 <= i < |room| :: !IsSpace(room[i])
  }

  /** The room was there at the start, or somebody logged in created it. */
  ghost predicate RoomMade(h0: Hub, steps: seq<Step>, room: string) {
    if steps == [] then room in h0.rooms else
      var front, s := steps[..|steps| - 1], steps[|steps| - 1];
      || RoomMade(h0, front, room)
      || (s.Act? && s.request.CreateRoom? && s.request.room == room && ProperRoom(room) && NameOf(h0, front, s.sid).Some?)
  }

  /** Somebody registered, and among the first 64 names of a request. */
  ghost predicate Invited(h0: Hub, front: seq<Step>, names: seq<string>, u: string) {
    && u != "" && !IsRoom(u) && AccountOf(h0, front, u).Some?
    && exists i | 0 <= i < |names| && i < 64 :: names[i] == u
  }

  /** A step that puts a person into a room: they create it, join it, or are named by
      whoever creates it or, being a member, invites them. */
  ghost predicate PutIn(h0: Hub, front: seq<Step>, s: Step, u: string, room: string)
    decreases |front|, 1
  {
    && s.Act? && NameOf(h0, front, s.sid).Some? && ProperRoom(room)
    && var me, r := NameOf(h0, front, s.sid).value, s.request;
       || (r.CreateRoom? && r.room == room && !RoomMade(h0, front, room) && (u == me || Invited(h0, front, r.members, u)))
       || (r.Join? && r.room == room && RoomMade(h0, front, room) && u == me)
       || (r.Invite? && r.room == room && In(h0, front, me, room) && Invited(h0, front, r.members, u))
  }

  ghost predicate TakenOut(h0: Hub, front: seq<Step>, s: Step, u: string, room: string) {
    s.Act? && s.request == Leave(room) && ProperRoom(room) && NameOf(h0, front, s.sid) == Some(u)
  }

  /** Membership: of the steps that put this person in or took them out, the last one put
      them in. */
  ghost predicate In(h0: Hub, steps: seq<Step>, u: string, room: string)
    decreases |steps|, 0
  {
    if steps == [] then room in h0.rooms && u in h0.rooms[room] else
      var front, s := steps[..|steps| - 1], steps[|steps| - 1];
      PutIn(h0, front, s, u, room) || (In(h0, front, u, room) && !TakenOut(h0, front, s, u, room))
  }

  // ------------------------------------------------------------------ contacts

  /** A step that makes one person another's contact: they add them, or one of the two
      writes to the other. */
  ghost predicate Befriends(h0: Hub, front: seq<Step>, s: Step, owner: string, other: string) {
    && s.Act? && owner != "" && other != "" && !IsRoom(other) && owner != other
    && var me, r := NameOf(h0, front, s.sid), s.request;
       || (r == AddContact(other) && me == Some(owner) && AccountOf(h0, front, other).Some?)
       || (r.Send? && !IsRoom(r.to) && r.to != "" && Reachable(h0, front, r.to)
           && ((me == Some(owner) && r.to == other) || (me == Some(other) && r.to == owner)))
  }

  ghost predicate Reachable(h0: Hub, front: seq<Step>, u: string) {
    AccountOf(h0, front, u).Some? || Here(h0, front, u)
  }

  ghost predicate Drops(h0: Hub, front: seq<Step>, s: Step, owner: string, other: string) {
    s.Act? && s.request == RemoveContact(other) && NameOf(h0, front, s.sid) == Some(owner)
  }

  /** The contact was there at the start or made since, and not removed after that. */
  ghost predicate IsContact(h0: Hub, steps: seq<Step>, owner: string, other: string) {
    if steps == [] then (owner, other) in h0.contacts else
      var front, s := steps[..|steps| - 1], steps[|steps| - 1];
      Befriends(h0, front, s, owner, other) || (IsContact(h0, front, owner, other) && !Drops(h0, front, s, owner, other))
  }

  // ---------------------------------------------------- the tables of the server

  /** The tables, without messages and outboxes. */
  datatype Book = Book(
    users: map<string, Account>, online: map<string, Sid>, who: map<Sid, string>,
    rooms: map<string, set<string>>, contacts: set<(string, string)>)

  function BookOf(h: Hub): Book {
    Book(h.users, h.online, h.who, h.rooms, h.contacts)
  }

  lemma SendingBook(h: Hub, sid: Sid, f: Frame, targets: set<Sid>)
    ensures BookOf(SendTo(h, sid, f)) == BookOf(h) && BookOf(SendAll(h, targets, f)) == BookOf(h)
  {}

  /** A request refused, or answered, and nothing else. */
  lemma RegisterBook(h: Hub, sid: Sid, user: string, pass: string, pubkey: Option<PublicKey>)
    ensures BookOf(DoRegister(h, sid, user, pass, pubkey))
         == if user != "" && pass != "" && !IsRoom(user) && user !in h.users
            then BookOf(h).(users := h.users[user := Account(pass, pubkey)]) else BookOf(h)
  {}

  predicate MayEnter(b: Book, sid: Sid, user: string, pass: string) {
    && sid !in b.who && user != "" && pass != "" && user !in b.online
    && user in b.users && b.users[user].pass == pass
  }

  lemma LoginBook(h: Hub, sid: Sid, user: string, pass: string)
    ensures BookOf(DoLogin(h, sid, user, pass))
         == if MayEnter(BookOf(h), sid, user, pass)
            then BookOf(h).(online := h.online[user := sid], who := h.who[sid := user]) else BookOf(h)
  {}

  lemma DropBook(h: Hub, sid: Sid)
    ensures BookOf(Disconnect(h, sid))
         == if sid in h.who then BookOf(h).(online := h.online - {h.who[sid]}, who := h.who - {sid}) else BookOf(h)
  {}

  /** The room after a request about it, if the request is accepted. */
  function RoomAfter(b: Book, me: string, r: Request): Option<set<string>>
    requires Replica.AboutRoom(r)
  {
    if !GoodRoomName(r.room) then None
    else if r.CreateRoom? then (if r.room in b.rooms then None else Some({me} + Guests(b, r.members)))
    else if r.room !in b.rooms then None
    else if r.Join? then Some(b.rooms[r.room] + {me})
    else if me !in b.rooms[r.room] then None
    else if r.Leave? then Some(b.rooms[r.room] - {me})
    else Some(b.rooms[r.room] + Guests(b, r.members))
  }

  function Guests(b: Book, names: seq<string>): set<string> {
    set i | 0 <= i < |names| && i < 64 && names[i] != "" && !IsRoom(names[i]) && names[i] in b.users :: names[i]
  }

  lemma GuestsAre(h: Hub, names: seq<string>)
    ensures Admitted(h, names) == Guests(BookOf(h), names)
  {
    var first := if |names| > 64 then names[..64] else names;
    forall u ensures u in Admitted(h, names) <==> u in Guests(BookOf(h), names) {
      if u in Guests(BookOf(h), names) {
        var i :| 0 <= i < |names| && i < 64 && names[i] == u;
        assert first[i] == u;
      }
    }
  }

  function WithRoom(b: Book, room: string, members: Option<set<string>>): Book {
    if members.None? then b else b.(rooms := b.rooms[room := members.value])
  }

  lemma BroadcastBook(h: Hub, room: string, members: set<string>)
    ensures BookOf(Broadcast(SetMembers(h, room, members), room)) == WithRoom(BookOf(h), room, Some(members))
  {}

  lemma CreateBook(h: Hub, sid: Sid, me: string, room: string, names: seq<string>)
    ensures BookOf(DoCreateRoom(h, sid, me, room, names)) == WithRoom(BookOf(h), room, RoomAfter(BookOf(h), me, CreateRoom(room, names)))
  {
    GuestsAre(h, names);
    if !GoodRoomName(room) { SendingBook(h, sid, Error(BAD_ROOM), {}); }
    else if room in h.rooms { SendingBook(h, sid, Error(ROOM_EXISTS), {}); }
    else { BroadcastBook(h, room, {me} + Admitted(h, names)); }
  }

  lemma JoinBook(h: Hub, sid: Sid, me: string, room: string)
    ensures BookOf(DoJoin(h, sid, me, room)) == WithRoom(BookOf(h), room, RoomAfter(BookOf(h), me, Join(room)))
  {
    if !GoodRoomName(room) { SendingBook(h, sid, Error(BAD_ROOM), {}); }
    else if room !in h.rooms { SendingBook(h, sid, Error(NO_SUCH_ROOM), {}); }
    else { BroadcastBook(h, room, h.rooms[room] + {me}); }
  }

  lemma LeaveBook(h: Hub, sid: Sid, me: string, room: string)
    ensures BookOf(DoLeave(h, sid, me, room)) == WithRoom(BookOf(h), room, RoomAfter(BookOf(h), me, Leave(room)))
  {
    if !GoodRoomName(room) {
      SendingBook(h, sid, Error(BAD_ROOM), {});
    } else if me !in Members(h, room) {
      SendingBook(h, sid, Error(NOT_A_MEMBER), {});
    } else {
      var left := h.rooms[room] - {me};
      BroadcastBook(h, room, left);
      SendingBook(Broadcast(SetMembers(h, room, left), room), sid, RoomState(room, left), {});
    }
  }

  lemma InviteBook(h: Hub, sid: Sid, me: string, room: string, names: seq<string>)
    ensures BookOf(DoInvite(h, sid, me, room, names)) == WithRoom(BookOf(h), room, RoomAfter(BookOf(h), me, Invite(room, names)))
  {
    GuestsAre(h, names);
    if room in h.rooms && Guests(BookOf(h), names) == {} {
      assert h.rooms[room] + {} == h.rooms[room];
      assert h.rooms[room := h.rooms[room]] == h.rooms;
    }
  }

  /** The pair that is added, if it may be. */
  function WithPair(contacts: set<(string, string)>, owner: string, other: string): set<(string, string)> {
    if owner == "" || other == "" || IsRoom(other) || owner == other then contacts else contacts + {(owner, other)}
  }

  lemma AddBook(h: Hub, sid: Sid, me: string, name: string)
    ensures BookOf(DoAddContact(h, sid, me, name))
         == if name == "" || name == me || IsRoom(name) || name !in h.users then BookOf(h)
            else BookOf(h).(contacts := h.contacts + {(me, name)})
  {}

  lemma RemoveBook(h: Hub, sid: Sid, me: string, name: string)
    ensures BookOf(DoRemoveContact(h, sid, me, name)) == BookOf(h).(contacts := h.contacts - {(me, name)})
  {}

  lemma NoteBook(h: Hub, owner: string, other: string)
    ensures BookOf(NoteContact(h, owner, other)) == BookOf(h).(contacts := WithPair(h.contacts, owner, other))
  {
    if (owner, other) in h.contacts { assert h.contacts + {(owner, other)} == h.contacts; }
  }

  lemma SendBook(h: Hub, sid: Sid, me: string, r: Request)
    requires r.Send?
    ensures BookOf(DoSend(h, sid, me, r))
         == if r.to == "" || IsRoom(r.to) || (r.to !in h.online && r.to !in h.users) then BookOf(h)
            else BookOf(h).(contacts := WithPair(WithPair(h.contacts, me, r.to), r.to, me))
  {
    var m := Msg(me, r.to, r.body, r.nonce, r.id, r.ts);
    var h1 := h.(store := Record(h.store, RowOf(m, None)));
    NoteBook(h1, me, r.to);
    NoteBook(NoteContact(h1, me, r.to), r.to, me);
    assert BookOf(ToRoom(h, m, r.shares)) == BookOf(h);
  }

  lemma ReceiptBook(h: Hub, sid: Sid, me: string, ref: string, state: Label, when: int)
    ensures BookOf(DoReceipt(h, sid, me, ref, state, when)) == BookOf(h)
  {}

  /** The tables after a request of a session that has a name. */
  function Served(b: Book, me: string, r: Request): Book {
    if Replica.AboutRoom(r) then WithRoom(b, r.room, RoomAfter(b, me, r))
    else if r.AddContact? then
      (if r.user == "" || r.user == me || IsRoom(r.user) || r.user !in b.users then b
       else b.(contacts := b.contacts + {(me, r.user)}))
    else if r.RemoveContact? then b.(contacts := b.contacts - {(me, r.user)})
    else if r.Send? then
      (if r.to == "" || IsRoom(r.to) || (r.to !in b.online && r.to !in b.users) then b
       else b.(contacts := WithPair(WithPair(b.contacts, me, r.to), r.to, me)))
    else b
  }

  lemma RoomServeBook(h: Hub, sid: Sid, me: string, r: Request)
    requires Replica.AboutRoom(r)
    ensures BookOf(Replica.RoomServe(h, sid, me, r)) == WithRoom(BookOf(h), r.room, RoomAfter(BookOf(h), me, r))
  {
    match r
    case CreateRoom(room, names) => CreateBook(h, sid, me, room, names);
    case Join(room) => JoinBook(h, sid, me, room);
    case Leave(room) => LeaveBook(h, sid, me, room);
    case Invite(room, names) => InviteBook(h, sid, me, room, names);
  }

  lemma ServeBook(h: Hub, sid: Sid, me: string, r: Request)
    requires !r.Ping? && !r.Register? && !r.Login?
    ensures BookOf(Serve(h, sid, me, r)) == Served(BookOf(h), me, r)
  {
    Replica.ServeIs(h, sid, me, r);
    if Replica.AboutRoom(r) { RoomServeBook(h, sid, me, r); }
    else if r.AddContact? { AddBook(h, sid, me, r.user); }
    else if r.RemoveContact? { RemoveBook(h, sid, me, r.user); }
    else if r.Send? { SendBook(h, sid, me, r); }
    else if r.Receipt? { ReceiptBook(h, sid, me, r.ref, r.state, r.when); }
    else if r.Typing? { TypingBook(h, me, r.to, r.on); }
    else { SendingBook(h, sid, Replica.Answer(h, me, r), {}); }
  }

  lemma TypingBook(h: Hub, me: string, to: string, on: bool)
    ensures BookOf(DoTyping(h, me, to, on)) == BookOf(h)
  {}

  function NextBook(b: Book, s: Step): Book {
    if s.Drop? then
      (if s.sid in b.who then b.(online := b.online - {b.who[s.sid]}, who := b.who - {s.sid}) else b)
    else if s.request.Register? then
      (if Registers(s.request, s.request.user) && s.request.user !in b.users
       then b.(users := b.users[s.request.user := Account(s.request.pass, s.request.pubkey)]) else b)
    else if s.request.Login? then
      (if MayEnter(b, s.sid, s.request.user, s.request.pass)
       then b.(online := b.online[s.request.user := s.sid], who := b.who[s.sid := s.request.user]) else b)
    else if s.sid in b.who then Served(b, b.who[s.sid], s.request)
    else b
  }

  lemma StepBook(h: Hub, s: Step)
    ensures BookOf(Next(h, s)) == NextBook(BookOf(h), s)
  {
    if s.Drop? {
      DropBook(h, s.sid);
    } else if s.request.Ping? {
      SendingBook(h, s.sid, Pong, {});
    } else if s.request.Register? {
      RegisterBook(h, s.sid, s.request.user, s.request.pass, s.request.pubkey);
    } else if s.request.Login? {
      LoginBook(h, s.sid, s.request.user, s.request.pass);
    } else if s.sid in h.who {
      ServeBook(h, s.sid, h.who[s.sid], s.request);
    } else {
      SendingBook(h, s.sid, Error(NOT_LOGGED_IN), {});
    }
  }

  // --------------------------------------------------------- the two are the same

  function At<K, V>(m: map<K, V>, k: K): Option<V> {
    if k in m then Some(m[k]) else None
  }

  /** The tables hold the accounts and the sessions that the steps tell of. */
  ghost predicate PeopleAreTold(h0: Hub, steps: seq<Step>, b: Book) {
    && (forall u :: At(b.users, u) == AccountOf(h0, steps, u))
    && (forall sid :: At(b.who, sid) == NameOf(h0, steps, sid))
    && (forall u | u in b.online :: b.online[u] in b.who && b.who[b.online[u]] == u)
    && (forall sid | sid in b.who :: b.who[sid] in b.online && b.online[b.who[sid]] == sid)
  }

  ghost predicate RoomsAreTold(h0: Hub, steps: seq<Step>, b: Book) {
    && (forall room :: room in b.rooms <==> RoomMade(h0, steps, room))
    && (forall u, room :: u in Rooms.MembersOf(b.rooms, room) <==> In(h0, steps, u, room))
  }

  ghost predicate ContactsAreTold(h0: Hub, steps: seq<Step>, b: Book) {
    forall owner, other :: (owner, other) in b.contacts <==> IsContact(h0, steps, owner, other)
  }

  lemma HereIsOnline(h0: Hub, steps: seq<Step>, b: Book, u: string)
    requires PeopleAreTold(h0, steps, b)
    ensures Here(h0, steps, u) <==> u in b.online
  {
    if u in b.online {
      assert At(b.who, b.online[u]) == NameOf(h0, steps, b.online[u]);
    }
    if sid :| NameOf(h0, steps, sid) == Some(u) {
      assert At(b.who, sid) == Some(u);
    }
  }

  lemma EntryIsTold(h0: Hub, front: seq<Step>, b: Book, s: Step)
    requires PeopleAreTold(h0, front, b) && s.Act? && s.request.Login?
    ensures LogsIn(h0, front, s) <==> MayEnter(b, s.sid, s.request.user, s.request.pass)
  {
    HereIsOnline(h0, front, b, s.request.user);
    assert At(b.users, s.request.user) == AccountOf(h0, front, s.request.user);
    assert At(b.who, s.sid) == NameOf(h0, front, s.sid);
  }

  lemma AccountsStep(h0: Hub, front: seq<Step>, b: Book, s: Step, u: string)
    requires PeopleAreTold(h0, front, b)
    ensures At(NextBook(b, s).users, u) == AccountOf(h0, front + [s], u)
  {
    assert (front + [s])[..|front|] == front;
    assert At(b.users, u) == AccountOf(h0, front, u);
  }

  lemma NamesStep(h0: Hub, front: seq<Step>, b: Book, s: Step, sid: Sid)
    requires PeopleAreTold(h0, front, b)
    ensures At(NextBook(b, s).who, sid) == NameOf(h0, front + [s], sid)
  {
    assert (front + [s])[..|front|] == front;
    assert At(b.who, sid) == NameOf(h0, front, sid);
    if s.Act? && s.request.Login? { EntryIsTold(h0, front, b, s); }
  }

  /** Registry and sessions go on naming each other. */
  lemma RegistryStep(b: Book, s: Step)
    requires (forall u | u in b.online :: b.online[u] in b.who && b.who[b.online[u]] == u)
    requires (forall sid | sid in b.who :: b.who[sid] in b.online && b.online[b.who[sid]] == sid)
    ensures var b' := NextBook(b, s);
      && (forall u | u in b'.online :: b'.online[u] in b'.who && b'.who[b'.online[u]] == u)
      && (forall sid | sid in b'.who :: b'.who[sid] in b'.online && b'.online[b'.who[sid]] == sid)
  {}

  lemma PeopleStep(h0: Hub, front: seq<Step>, b: Book, s: Step)
    requires PeopleAreTold(h0, front, b)
    ensures PeopleAreTold(h0, front + [s], NextBook(b, s))
  {
    forall u ensures At(NextBook(b, s).users, u) == AccountOf(h0, front + [s], u) { AccountsStep(h0, front, b, s, u); }
    forall sid ensures At(NextBook(b, s).who, sid) == NameOf(h0, front + [s], sid) { NamesStep(h0, front, b, s, sid); }
    RegistryStep(b, s);
  }

  lemma ProperIsGood(room: string)
    ensures ProperRoom(room) <==> GoodRoomName(room)
  {}

  lemma GuestsAreInvited(h0: Hub, front: seq<Step>, b: Book, names: seq<string>, u: string)
    requires PeopleAreTold(h0, front, b)
    ensures u in Guests(b, names) <==> Invited(h0, front, names, u)
  {
    assert At(b.users, u) == AccountOf(h0, front, u);
  }

  lemma MadeStep(h0: Hub, front: seq<Step>, b: Book, s: Step, room: string)
    requires PeopleAreTold(h0, front, b) && RoomsAreTold(h0, front, b)
    ensures room in NextBook(b, s).rooms <==> RoomMade(h0, front + [s], room)
  {
    assert (front + [s])[..|front|] == front;
    assert At(b.who, s.sid) == NameOf(h0, front, s.sid);
    ProperIsGood(room);
  }

  lemma MembersStep(h0: Hub, front: seq<Step>, b: Book, s: Step, u: string, room: string)
    requires PeopleAreTold(h0, front, b) && RoomsAreTold(h0, front, b)
    ensures u in Rooms.MembersOf(NextBook(b, s).rooms, room) <==> In(h0, front + [s], u, room)
  {
    assert (front + [s])[..|front|] == front;
    assert At(b.who, s.sid) == NameOf(h0, front, s.sid);
    assert u in Rooms.MembersOf(b.rooms, room) <==> In(h0, front, u, room);
    if s.Act? && s.sid in b.who && Replica.AboutRoom(s.request) && s.request.room == room {
      RoomRequestStep(h0, front, b, s, u, room);
    }
  }

  lemma RoomRequestStep(h0: Hub, front: seq<Step>, b: Book, s: Step, u: string, room: string)
    requires PeopleAreTold(h0, front, b) && RoomsAreTold(h0, front, b)
    requires s.Act? && s.sid in b.who && Replica.AboutRoom(s.request) && s.request.room == room
    ensures var members := RoomAfter(b, b.who[s.sid], s.request);
      u in (if members.Some? then members.value else Rooms.MembersOf(b.rooms, room))
      <==> PutIn(h0, front, s, u, room) || (In(h0, front, u, room) && !TakenOut(h0, front, s, u, room))
  {
    var me, r := b.who[s.sid], s.request;
    assert At(b.who, s.sid) == NameOf(h0, front, s.sid);
    ProperIsGood(room);
    assert u in Rooms.MembersOf(b.rooms, room) <==> In(h0, front, u, room);
    assert me in Rooms.MembersOf(b.rooms, room) <==> In(h0, front, me, room);
    assert room in b.rooms <==> RoomMade(h0, front, room);
    if r.CreateRoom? || r.Invite? { GuestsAreInvited(h0, front, b, r.members, u); }
  }

  lemma RoomsStep(h0: Hub, front: seq<Step>, b: Book, s: Step)
    requires PeopleAreTold(h0, front, b) && RoomsAreTold(h0, front, b)
    ensures RoomsAreTold(h0, front + [s], NextBook(b, s))
  {
    forall room ensures room in NextBook(b, s).rooms <==> RoomMade(h0, front + [s], room) { MadeStep(h0, front, b, s, room); }
    forall u, room ensures u in Rooms.MembersOf(NextBook(b, s).rooms, room) <==> In(h0, front + [s], u, room) {
      MembersStep(h0, front, b, s, u, room);
    }
  }

  lemma PairStep(h0: Hub, front: seq<Step>, b: Book, s: Step, owner: string, other: string)
    requires PeopleAreTold(h0, front, b) && ContactsAreTold(h0, front, b)
    requires forall sid | sid in b.who :: b.who[sid] != ""
    ensures (owner, other) in NextBook(b, s).contacts <==> IsContact(h0, front + [s], owner, other)
  {
    assert (front + [s])[..|front|] == front;
    assert At(b.who, s.sid) == NameOf(h0, front, s.sid);
    assert (owner, other) in b.contacts <==> IsContact(h0, front, owner, other);
    assert At(b.users, other) == AccountOf(h0, front, other);
    if s.Act? && s.request.Send? {
      HereIsOnline(h0, front, b, s.request.to);
      assert At(b.users, s.request.to) == AccountOf(h0, front, s.request.to);
    }
  }

  lemma ContactsStep(h0: Hub, front: seq<Step>, b: Book, s: Step)
    requires PeopleAreTold(h0, front, b) && ContactsAreTold(h0, front, b)
    requires forall sid | sid in b.who :: b.who[sid] != ""
    ensures ContactsAreTold(h0, front + [s], NextBook(b, s))
  {
    forall owner, other ensures (owner, other) in NextBook(b, s).contacts <==> IsContact(h0, front + [s], owner, other) {
      PairStep(h0, front, b, s, owner, other);
    }
  }

  lemma {:induction false} NobodyIsNameless(h0: Hub, steps: seq<Step>, sid: Sid)
    ensures NameOf(h0, steps, sid) != Some("")
    decreases |steps|
  {
    if steps != [] { NobodyIsNameless(h0, steps[..|steps| - 1], sid); }
  }

  /** After every run from a server nobody is connected to, the tables are what the steps
      tell: an account is the one its name first registered with; a session has a name
      exactly if it gave the right password of an account nobody was logged in to, and
      did not go since; a person is in a room exactly if the last step that concerned
      them and it put them in; and a contact is one that was made and not removed since. */
  lemma {:induction false} TablesAreAsTold(h0: Hub, steps: seq<Step>)
    requires Replica.NobodyConnected(h0)
    ensures var b := BookOf(Run(h0, steps));
      PeopleAreTold(h0, steps, b) && RoomsAreTold(h0, steps, b) && ContactsAreTold(h0, steps, b)
  {
    if steps != [] {
      var front, s := steps[..|steps| - 1], steps[|steps| - 1];
      var h := Run(h0, front);
      assert steps == front + [s];
      TablesAreAsTold(h0, front);
      forall sid | sid in h.who ensures h.who[sid] != "" {
        NobodyIsNameless(h0, front, sid);
        assert At(BookOf(h).who, sid) == NameOf(h0, front, sid);
      }
      StepBook(h, s);
      PeopleStep(h0, front, BookOf(h), s);
      RoomsStep(h0, front, BookOf(h), s);
      ContactsStep(h0, front, BookOf(h), s);
    }
  }
}
