/** im/server/registries.py SessionRegistry, im/server/store/users.py and
    im/server/router.py as objects: every handler, loops and all, leaves exactly the
    state and sends exactly the frames that `Hub` says. */
module Router {
  import opened Text
  import opened Crypto
  import opened Messages
  import opened Hub
  import opened Rooms
  import Replica

  // --------------------------------------------------------------- registries

  /** The logged-in connections, by name. */
  class SessionRegistry {
    var byName: map<string, Sid>

    constructor ()
      ensures byName == map[]
    {
      byName := map[];
    }

    /** Claim a name; false, and no change, if somebody holds it. */
    method Login(user: string, sid: Sid) returns (claimed: bool)
      modifies this
      ensures claimed == (user !in old(byName))
      ensures byName == if claimed then old(byName)[user := sid] else old(byName)
    {
      if user in byName { return false; }
      byName := byName[user := sid];
      return true;
    }

    method Logout(user: string)
      modifies this
      ensures byName == old(byName) - {user}
    {
      byName := byName - {user};
    }
  }

  class SqliteUsers {
    var accounts: map<string, Account>

    constructor ()
      ensures accounts == map[]
    {
      accounts := map[];
    }

    method Register(user: string, pass: string, pubkey: Option<PublicKey>) returns (registered: bool)
      modifies this
      ensures registered == (user !in old(accounts))
      ensures accounts == if registered then old(accounts)[user := Account(pass, pubkey)] else old(accounts)
    {
      if user in accounts { return false; }
      accounts := accounts[user := Account(pass, pubkey)];
      return true;
    }
  }

  /** One row per direction: adding somebody does not add you to theirs. */
  class SqliteContacts {
    var rows: set<(string, string)>

    constructor ()
      ensures rows == {}
    {
      rows := {};
    }

    method Add(owner: string, contact: string) returns (added: bool)
      modifies this
      ensures added == (owner != "" && contact != "" && owner != contact && (owner, contact) !in old(rows))
      ensures rows == if added then old(rows) + {(owner, contact)} else old(rows)
    {
      if owner == "" || contact == "" || owner == contact || (owner, contact) in rows { return false; }
      rows := rows + {(owner, contact)};
      return true;
    }

    method Remove(owner: string, contact: string) returns (removed: bool)
      modifies this
      ensures rows == old(rows) - {(owner, contact)}
      ensures removed <==> rows != old(rows)
    {
      removed := (owner, contact) in rows;
      rows := rows - {(owner, contact)};
    }
  }

  // ------------------------------------------------- one more turn of each loop

  lemma SendAllMore(h: Hub, done: set<Sid>, sid: Sid, f: Frame)
    requires sid !in done
    ensures SendTo(SendAll(h, done, f), sid, f) == SendAll(h, done + {sid}, f)
  {
    var a, b := SendTo(SendAll(h, done, f), sid, f), SendAll(h, done + {sid}, f);
    assert a.outbox.Keys == b.outbox.Keys;
    assert a.outbox == b.outbox;
  }

  lemma SendAllNone(h: Hub, f: Frame)
    ensures SendAll(h, {}, f) == h
  {
    assert SendAll(h, {}, f).outbox == h.outbox;
  }

  /** The sessions of some names, one name at a time. */
  lemma SessionsMore(h: Hub, names: set<string>, name: string)
    requires Replica.Registry(h) && name !in names
    ensures name in h.online ==>
      Sessions(h, names + {name}) == Sessions(h, names) + {h.online[name]} && h.online[name] !in Sessions(h, names)
    ensures name !in h.online ==> Sessions(h, names + {name}) == Sessions(h, names)
  {
    if name in h.online {
      forall other | other in names && other in h.online ensures h.online[other] != h.online[name] {
        assert h.who[h.online[other]] == other && h.who[h.online[name]] == name;
      }
    }
  }

  lemma FanOutNone(h: Hub, m: Frame, shares: Option<map<string, Share>>)
    requires m.Msg?
    ensures FanOut(h, {}, m, shares) == h
  {
    var h' := FanOut(h, {}, m, shares);
    assert h'.outbox == h.outbox && h'.store.pending == h.store.pending;
  }

  /** What the fan-out loop does for one member. */
  function Handed(h: Hub, name: string, m: Frame, shares: Option<map<string, Share>>): Hub
    requires m.Msg?
  {
    var copy := AddressedTo(m, shares, name);
    if copy.None? then h
    else if name in h.online then SendTo(h, h.online[name], copy.value)
    else h.(store := QueueFor(h.store, name, m.id))
  }

  lemma FanOutMore(h: Hub, done: set<string>, name: string, m: Frame, shares: Option<map<string, Share>>)
    requires m.Msg? && Replica.Registry(h) && name !in done
    ensures Handed(FanOut(h, done, m, shares), name, m, shares) == FanOut(h, done + {name}, m, shares)
  {
    var a, b := Handed(FanOut(h, done, m, shares), name, m, shares), FanOut(h, done + {name}, m, shares);
    FanOutBoxes(h, done, name, m, shares);
    FanOutQueue(h, done, name, m, shares);
    assert a.outbox == b.outbox && a.store == b.store;
  }

  lemma ServedMore(names: set<string>, name: string, m: Frame, shares: Option<map<string, Share>>)
    requires m.Msg?
    ensures Served(names + {name}, m, shares)
         == if AddressedTo(m, shares, name).Some? then Served(names, m, shares) + {name} else Served(names, m, shares)
  {}

  /** The queue after a fan-out. */
  function Owed(h: Hub, served: set<string>, id: string): set<(string, string)> {
    h.store.pending + set name | name in served && name !in h.online :: (id, name)
  }

  lemma FanOutQueue(h: Hub, done: set<string>, name: string, m: Frame, shares: Option<map<string, Share>>)
    requires m.Msg?
    ensures Handed(FanOut(h, done, m, shares), name, m, shares).store == FanOut(h, done + {name}, m, shares).store
  {
    ServedMore(done, name, m, shares);
    assert FanOut(h, done, m, shares).store.pending == Owed(h, Served(done, m, shares), m.id);
    assert FanOut(h, done + {name}, m, shares).store.pending == Owed(h, Served(done + {name}, m, shares), m.id);
    OwedMore(h, Served(done, m, shares), name, m.id);
  }

  lemma OwedMore(h: Hub, served: set<string>, name: string, id: string)
    ensures Owed(h, served + {name}, id) == Owed(h, served, id) + if name in h.online then {} else {(id, name)}
  {}

  /** One session's box after a fan-out. */
  lemma FanOutBox(h: Hub, names: set<string>, m: Frame, shares: Option<map<string, Share>>, sid: Sid)
    requires m.Msg? && Replica.Registry(h)
    ensures Box(FanOut(h, names, m, shares), sid) == Box(h, sid)
      + (if sid in h.who && h.who[sid] in Served(names, m, shares) then [AddressedTo(m, shares, h.who[sid]).value] else [])
    ensures FanOut(h, names, m, shares).outbox.Keys == h.outbox.Keys + Sessions(h, Served(names, m, shares))
  {
    assert Box(h, sid) + [] == Box(h, sid);
    if sid in h.who && h.who[sid] in Served(names, m, shares) {
      assert h.online[h.who[sid]] == sid && sid in Sessions(h, Served(names, m, shares));
    }
  }

  lemma FanOutBoxes(h: Hub, done: set<string>, name: string, m: Frame, shares: Option<map<string, Share>>)
    requires m.Msg? && Replica.Registry(h) && name !in done
    ensures Handed(FanOut(h, done, m, shares), name, m, shares).outbox == FanOut(h, done + {name}, m, shares).outbox
  {
    var h1, h2 := FanOut(h, done, m, shares), FanOut(h, done + {name}, m, shares);
    ServedMore(done, name, m, shares);
    SessionsMore(h, Served(done, m, shares), name);
    forall sid ensures Box(Handed(h1, name, m, shares), sid) == Box(h2, sid) { FanOutBoxMore(h, done, name, m, shares, sid); }
    FanOutBox(h, done, m, shares, 0);
    FanOutBox(h, done + {name}, m, shares, 0);
    SameBoxes(Handed(h1, name, m, shares), h2);
  }

  lemma FanOutBoxMore(h: Hub, done: set<string>, name: string, m: Frame, shares: Option<map<string, Share>>, sid: Sid)
    requires m.Msg? && Replica.Registry(h) && name !in done
    ensures Box(Handed(FanOut(h, done, m, shares), name, m, shares), sid) == Box(FanOut(h, done + {name}, m, shares), sid)
  {
    ServedMore(done, name, m, shares);
    FanOutBox(h, done, m, shares, sid);
    FanOutBox(h, done + {name}, m, shares, sid);
    HandedBox(h, FanOut(h, done, m, shares), name, m, shares, sid);
  }

  lemma HandedBox(h: Hub, h1: Hub, name: string, m: Frame, shares: Option<map<string, Share>>, sid: Sid)
    requires m.Msg? && Replica.Registry(h) && h1.online == h.online
    ensures Box(Handed(h1, name, m, shares), sid) == Box(h1, sid)
      + (if sid in h.who && h.who[sid] == name && AddressedTo(m, shares, name).Some? then [AddressedTo(m, shares, name).value] else [])
  {
    assert Box(h1, sid) + [] == Box(h1, sid);
    if sid in h.who { assert h.online[h.who[sid]] == sid; }
    if name in h.online { assert h.who[h.online[name]] == name; }
  }

  lemma SameBoxes(a: Hub, b: Hub)
    requires a.outbox.Keys == b.outbox.Keys && forall sid :: Box(a, sid) == Box(b, sid)
    ensures a.outbox == b.outbox
  {
    forall sid | sid in a.outbox ensures a.outbox[sid] == b.outbox[sid] { assert Box(a, sid) == Box(b, sid); }
  }

  lemma {:induction false} FlushFramesMore(rows: seq<Row>, row: Row, reader: string)
    ensures FlushFrames(rows + [row], reader)
         == FlushFrames(rows, reader) + if FlushFrame(row, reader).None? then [] else [FlushFrame(row, reader).value]
  {
    if rows == [] {
      assert rows + [row] == [row] && [row][1..] == [];
    } else {
      assert (rows + [row])[1..] == rows[1..] + [row];
      FlushFramesMore(rows[1..], row, reader);
    }
  }

  /** A login flush that has handed over some frames so far. */
  function Flushing(h: Hub, sid: Sid, user: string, frames: seq<Frame>): Hub {
    h.(store := Unqueued(h.store, user), outbox := h.outbox[sid := Box(h, sid) + frames])
  }

  lemma FlushingNone(h: Hub, sid: Sid, user: string)
    ensures Flushing(h, sid, user, []) == h.(store := Unqueued(h.store, user), outbox := h.outbox[sid := Box(h, sid)])
    ensures sid in h.outbox ==> h.outbox[sid := Box(h, sid)] == h.outbox
  {
    assert Box(h, sid) + [] == Box(h, sid);
  }

  lemma FlushingMore(h: Hub, sid: Sid, user: string, frames: seq<Frame>, f: Frame)
    ensures SendTo(Flushing(h, sid, user, frames), sid, f) == Flushing(h, sid, user, frames + [f])
  {
    assert Box(h, sid) + frames + [f] == Box(h, sid) + (frames + [f]);
  }

  lemma FlushingRow(h: Hub, sid: Sid, user: string, rows: seq<Row>, i: nat)
    requires i < |rows|
    ensures var frames, f := FlushFrames(rows[..i], user), FlushFrame(rows[i], user);
      && FlushFrames(rows[..i + 1], user) == frames + (if f.None? then [] else [f.value])
      && Flushing(h, sid, user, FlushFrames(rows[..i + 1], user))
           == if f.None? then Flushing(h, sid, user, frames) else SendTo(Flushing(h, sid, user, frames), sid, f.value)
  {
    var frames, f := FlushFrames(rows[..i], user), FlushFrame(rows[i], user);
    assert rows[..i + 1] == rows[..i] + [rows[i]];
    FlushFramesMore(rows[..i], rows[i], user);
    if f.None? {
      assert frames + [] == frames;
    } else {
      FlushingMore(h, sid, user, frames, f.value);
    }
  }

  lemma {:induction false} EntriesMore(rows: seq<Row>, row: Row, reader: string)
    ensures Entries(rows + [row], reader)
         == Entries(rows, reader) + if HistoryEntry(row, reader).None? then [] else [HistoryEntry(row, reader).value]
  {
    if rows == [] {
      assert rows + [row] == [row] && [row][1..] == [];
    } else {
      assert (rows + [row])[1..] == rows[1..] + [row];
      EntriesMore(rows[1..], row, reader);
    }
  }

  /** Marking a message nobody stored changes nothing. */
  lemma MarkOfNothing(st: Store, ref: string, state: Label, when: int)
    requires SenderOf(st.table, ref).None?
    ensures Mark(st, ref, state, when) == st
  {
    assert Mark(st, ref, state, when).table == st.table;
  }

  // ----------------------------------------------------------------- the router

  class MessageRouter {
    const users: SqliteUsers
    const sessions: SessionRegistry
    const rooms: RoomRegistry
    const contacts: SqliteContacts
    const messages: MessageStore
    var who: map<Sid, string>
    var outbox: map<Sid, seq<Frame>>

    ghost function Contents(): Hub
      reads this, users, sessions, rooms, contacts, messages
    {
      Hub(users.accounts, sessions.byName, who, rooms.members, contacts.rows, messages.Contents(), outbox)
    }

    ghost predicate Valid()
      reads this, users, sessions, rooms, contacts, messages
    {
      Replica.Registry(Contents()) && forall sid | sid in who :: who[sid] != ""
    }

    constructor (users: SqliteUsers, rooms: RoomRegistry, contacts: SqliteContacts, messages: MessageStore)
      ensures this.users == users && this.rooms == rooms && this.contacts == contacts && this.messages == messages
      ensures fresh(sessions) && Valid() && who == map[] && outbox == map[]
    {
      this.users, this.rooms, this.contacts, this.messages := users, rooms, contacts, messages;
      sessions := new SessionRegistry();
      who, outbox := map[], map[];
    }

    method Emit(sid: Sid, f: Frame)
      modifies this`outbox
      ensures Contents() == SendTo(old(Contents()), sid, f)
    {
      outbox := outbox[sid := (if sid in outbox then outbox[sid] else []) + [f]];
    }

    /** One frame to each of these who is online. */
    method EmitTo(names: set<string>, f: Frame)
      requires Valid()
      modifies this`outbox
      ensures Contents() == SendAll(old(Contents()), Sessions(old(Contents()), names), f)
    {
      ghost var h := Contents();
      var todo := names;
      SendAllNone(h, f);
      assert Sessions(h, names - todo) == {};
      while todo != {}
        invariant todo <= names && Contents() == SendAll(h, Sessions(h, names - todo), f)
      {
        var name :| name in todo;
        SessionsMore(h, names - todo, name);
        assert (names - todo) + {name} == names - (todo - {name});
        if name in sessions.byName {
          SendAllMore(h, Sessions(h, names - todo), sessions.byName[name], f);
          Emit(sessions.byName[name], f);
        }
        todo := todo - {name};
      }
      assert names - todo == names;
    }

    method AnnounceUser(user: string, online: bool)
      requires Valid()
      modifies this`outbox
      ensures Contents() == Announce(old(Contents()), user, online)
    {
      EmitTo(sessions.byName.Keys - {user}, Presence(user, online));
    }

    // ------------------------------------------------------------- accounts

    method RegisterUser(sid: Sid, user: string, pass: string, pubkey: Option<PublicKey>)
      modifies this`outbox, users
      ensures Contents() == DoRegister(old(Contents()), sid, user, pass, pubkey)
    {
      if user == "" || pass == "" {
        Emit(sid, Error(BAD_REGISTER));
        return;
      }
      if IsRoom(user) {
        Emit(sid, Error(BAD_USERNAME));
        return;
      }
      var registered := users.Register(user, pass, pubkey);
      if !registered {
        Emit(sid, Error(USER_EXISTS));
        return;
      }
      Emit(sid, Okay(user));
    }

    method LoginUser(sid: Sid, user: string, pass: string)
      requires Valid()
      modifies this, sessions, messages
      ensures Valid() && Contents() == DoLogin(old(Contents()), sid, user, pass)
    {
      if sid in who {
        Emit(sid, Error(ALREADY_LOGGED_IN));
        return;
      }
      if user == "" || pass == "" {
        Emit(sid, Error(BAD_LOGIN));
        return;
      }
      if user !in users.accounts || users.accounts[user].pass != pass {
        Emit(sid, Error(BAD_CREDENTIALS));
        return;
      }
      ghost var h := Contents();
      var claimed := sessions.Login(user, sid);
      if !claimed {
        Emit(sid, Error(ALREADY_ONLINE));
        return;
      }
      Replica.ClaimKeepsRegistry(h, sid, user);
      who := who[sid := user];
      var known := ContactStates(user);
      var mine := set r | r in rooms.members && user in rooms.members[r];
      Emit(sid, LoginOk(user, sessions.byName.Keys - {user}, known, mine));
      AnnounceUser(user, true);
      HandOver(sid, user);
    }

    method OnDisconnect(sid: Sid)
      requires Valid()
      modifies this, sessions
      ensures Valid() && Contents() == Disconnect(old(Contents()), sid)
    {
      if sid !in who {
        return;
      }
      var user := who[sid];
      Replica.ForgoKeepsRegistry(Contents(), sid, user);
      sessions.Logout(user);
      who := who - {sid};
      AnnounceUser(user, false);
    }

    /** Hand over everything that arrived while this user was away. */
    method HandOver(sid: Sid, user: string)
      modifies this`outbox, messages
      ensures Contents() == FlushPending(old(Contents()), sid, user)
    {
      ghost var h := Contents();
      var rows := messages.Flush(user);
      if sid !in outbox { outbox := outbox[sid := []]; }
      ghost var frames: seq<Frame> := [];
      FlushingNone(h, sid, user);
      for i := 0 to |rows|
        invariant frames == FlushFrames(rows[..i], user) && Contents() == Flushing(h, sid, user, frames)
      {
        var frame := HandOne(sid, rows[i], user);
        FlushingRow(h, sid, user, rows, i);
        frames := frames + if frame.None? then [] else [frame.value];
      }
      assert rows[..|rows|] == rows;
    }

    method HandOne(sid: Sid, row: Row, user: string) returns (frame: Option<Frame>)
      modifies this`outbox
      ensures frame == FlushFrame(row, user)
      ensures Contents() == if frame.None? then old(Contents()) else SendTo(old(Contents()), sid, frame.value)
    {
      frame := FlushFrame(row, user);
      if frame.Some? {
        Emit(sid, frame.value);
      }
    }

    // ------------------------------------------------------------- contacts

    method ContactStates(owner: string) returns (states: map<string, bool>)
      ensures states == ContactsOf(Contents(), owner)
    {
      states := map p | p in contacts.rows && p.0 == owner :: p.1 := p.1 in sessions.byName;
    }

    method EmitContacts(sid: Sid, user: string)
      modifies this`outbox
      ensures Contents() == SendContacts(old(Contents()), sid, user)
    {
      var states := ContactStates(user);
      Emit(sid, ContactList(states));
    }

    method AddContact(sid: Sid, me: string, name: string)
      requires me != ""
      modifies this`outbox, contacts
      ensures Contents() == DoAddContact(old(Contents()), sid, me, name)
    {
      if name == "" {
        Emit(sid, Error(NO_RECIPIENT));
      } else if name == me || IsRoom(name) {
        Emit(sid, Error(BAD_CONTACT));
      } else if name !in users.accounts {
        Emit(sid, Error(NO_SUCH_USER));
      } else {
        var added := contacts.Add(me, name);
        assert contacts.rows == old(contacts.rows) + {(me, name)};
        EmitContacts(sid, me);
      }
    }

    method RemoveContact(sid: Sid, me: string, name: string)
      modifies this`outbox, contacts
      ensures Contents() == DoRemoveContact(old(Contents()), sid, me, name)
    {
      var _ := contacts.Remove(me, name);
      EmitContacts(sid, me);
    }

    /** Remember somebody actually talked to, and say so if the list changed. */
    method RememberContact(owner: string, other: string)
      modifies this`outbox, contacts
      ensures Contents() == NoteContact(old(Contents()), owner, other)
    {
      if other == "" || IsRoom(other) {
        return;
      }
      var added := contacts.Add(owner, other);
      if added && owner in sessions.byName {
        EmitContacts(sessions.byName[owner], owner);
      }
    }

    // ---------------------------------------------------------------- rooms

    method BroadcastRoom(room: string)
      requires Valid()
      modifies this`outbox
      ensures Contents() == Broadcast(old(Contents()), room)
    {
      var members := MembersOf(rooms.members, room);
      EmitTo(members, RoomState(room, members));
    }

    /** Join everyone named who actually has an account, among the first 64. */
    method AddMembers(room: string, names: seq<string>) returns (added: seq<string>)
      requires room in rooms.members
      modifies rooms
      ensures (set name | name in added) == Admitted(old(Contents()), names)
      ensures rooms.members == old(rooms.members)[room := old(rooms.members)[room] + Admitted(old(Contents()), names)]
    {
      var first := if |names| > 64 then names[..64] else names;
      ghost var h, before := Contents(), rooms.members;
      added := [];
      assert (set name | name in added) == {};
      assert before[room := before[room] + {}] == before by { assert before[room] + {} == before[room]; }
      for i := 0 to |first|
        invariant room in rooms.members
        invariant forall name :: name in added <==> name in first[..i] && name in Admitted(h, names)
        invariant rooms.members == before[room := before[room] + set name | name in added]
      {
        var name := first[i];
        assert first[..i + 1] == first[..i] + [name];
        if name != "" && !IsRoom(name) && name in users.accounts {
          rooms.Join(room, name);
          assert (set n | n in added + [name]) == (set n | n in added) + {name};
          assert before[room] + (set n | n in added) + {name} == before[room] + set n | n in added + [name];
          added := added + [name];
        }
      }
      assert first[..|first|] == first;
    }

    method CreateRoom(sid: Sid, me: string, room: string, names: seq<string>)
      requires Valid()
      modifies this`outbox, rooms
      ensures Contents() == DoCreateRoom(old(Contents()), sid, me, room, names)
    {
      if !GoodRoomName(room) {
        Emit(sid, Error(BAD_ROOM));
        return;
      }
      ghost var before := rooms.members;
      var created := rooms.Create(room);
      if !created {
        Emit(sid, Error(ROOM_EXISTS));
        return;
      }
      rooms.Join(room, me);
      assert rooms.members == before[room := {me}] by { assert {} + {me} == {me}; }
      assert Admitted(Contents(), names) == Admitted(old(Contents()), names);
      var added := AddMembers(room, names);
      assert rooms.members == before[room := {me} + Admitted(old(Contents()), names)];
      BroadcastRoom(room);
    }

    method InviteToRoom(sid: Sid, me: string, room: string, names: seq<string>)
      requires Valid()
      modifies this`outbox, rooms
      ensures Contents() == DoInvite(old(Contents()), sid, me, room, names)
    {
      if !GoodRoomName(room) {
        Emit(sid, Error(BAD_ROOM));
        return;
      }
      if room !in rooms.members {
        Emit(sid, Error(NO_SUCH_ROOM));
        return;
      }
      if me !in rooms.members[room] {
        Emit(sid, Error(NOT_A_MEMBER));
        return;
      }
      ghost var h := Contents();
      var added := AddMembers(room, names);
      if exists name | name in names :: name !in rooms.members[room] {
        Emit(sid, Error(NO_SUCH_USER));
      }
      if added == [] {
        assert Admitted(h, names) == {};
        assert rooms.members == h.rooms by { assert h.rooms[room] + {} == h.rooms[room]; }
        return;
      }
      assert added[0] in Admitted(h, names);
      BroadcastRoom(room);
    }

    method JoinRoom(sid: Sid, me: string, room: string)
      requires Valid()
      modifies this`outbox, rooms
      ensures Contents() == DoJoin(old(Contents()), sid, me, room)
    {
      if !GoodRoomName(room) {
        Emit(sid, Error(BAD_ROOM));
      } else if room !in rooms.members {
        Emit(sid, Error(NO_SUCH_ROOM));
      } else {
        rooms.Join(room, me);
        BroadcastRoom(room);
      }
    }

    method LeaveRoom(sid: Sid, me: string, room: string)
      requires Valid()
      modifies this`outbox, rooms
      ensures Contents() == DoLeave(old(Contents()), sid, me, room)
    {
      if !GoodRoomName(room) {
        Emit(sid, Error(BAD_ROOM));
      } else if me !in MembersOf(rooms.members, room) {
        Emit(sid, Error(NOT_A_MEMBER));
      } else {
        rooms.Leave(room, me);
        BroadcastRoom(room);
        Emit(sid, RoomState(room, MembersOf(rooms.members, room)));
      }
    }

    // ------------------------------------------------------------- delivery

    method DeliverToUser(m: Frame)
      requires m.Msg?
      modifies this`outbox, contacts, messages
      ensures Contents() == ToUser(old(Contents()), m)
    {
      messages.RecordMessage(RowOf(m, None));
      RememberContact(m.sender, m.to);
      RememberContact(m.to, m.sender);
      if m.to in sessions.byName {
        Emit(sessions.byName[m.to], m);
      } else {
        messages.Queue(m.to, m.id);
      }
    }

    method DeliverToRoom(m: Frame, shares: Option<map<string, Share>>)
      requires m.Msg? && Valid()
      modifies this`outbox, messages
      ensures Contents() == ToRoom(old(Contents()), m, shares)
    {
      messages.RecordMessage(RowOf(m, shares));
      ghost var h := Contents();
      var names := MembersOf(rooms.members, m.to) - {m.sender};
      var todo := names;
      FanOutNone(h, m, shares);
      assert names - todo == {};
      while todo != {}
        invariant todo <= names && Contents() == FanOut(h, names - todo, m, shares)
      {
        var name :| name in todo;
        FanOutMore(h, names - todo, name, m, shares);
        assert (names - todo) + {name} == names - (todo - {name});
        HandTo(name, m, shares);
        todo := todo - {name};
      }
      assert names - todo == names;
    }

    method HandTo(name: string, m: Frame, shares: Option<map<string, Share>>)
      requires m.Msg?
      modifies this`outbox, messages
      ensures Contents() == Handed(old(Contents()), name, m, shares)
    {
      var copy := AddressedTo(m, shares, name);
      if copy.None? {
        return;
      }
      if name in sessions.byName {
        Emit(sessions.byName[name], copy.value);
      } else {
        messages.Queue(name, m.id);
      }
    }

    method HandleMessage(sid: Sid, me: string, r: Request)
      requires r.Send? && Valid()
      modifies this`outbox, contacts, messages
      ensures Contents() == DoSend(old(Contents()), sid, me, r)
    {
      var refused := RefusalOf(me, r.to);
      if refused.Some? {
        Emit(sid, Error(refused.value));
        return;
      }
      var m := Msg(me, r.to, r.body, r.nonce, r.id, r.ts);
      if IsRoom(r.to) {
        DeliverToRoom(m, r.shares);
      } else {
        DeliverToUser(m);
      }
      Emit(sid, Ack(r.id));
    }

    method RefusalOf(me: string, to: string) returns (refused: Option<Code>)
      ensures refused == Refusal(Contents(), me, to)
    {
      if to == "" { return Some(NO_RECIPIENT); }
      if IsRoom(to) {
        if to !in rooms.members { return Some(NO_SUCH_ROOM); }
        if me !in rooms.members[to] { return Some(NOT_A_MEMBER); }
        return None;
      }
      if to !in sessions.byName && to !in users.accounts { return Some(USER_OFFLINE); }
      return None;
    }

    // ---------------------------------------------------- history, receipts

    method AnswerHistory(sid: Sid, me: string, target: string, before: int, limit: int)
      modifies this`outbox
      ensures Contents() == SendTo(old(Contents()), sid, HistoryReply(old(Contents()), me, target, before, limit))
    {
      if target == "" {
        Emit(sid, Error(NO_RECIPIENT));
        return;
      }
      if IsRoom(target) && me !in MembersOf(rooms.members, target) {
        Emit(sid, Error(NOT_A_MEMBER));
        return;
      }
      var rows := Messages.History(messages.table, ConversationFor(me, target),
        if before == 0 then None else Some(before), if limit == 0 then DEFAULT_LIMIT else limit);
      var entries := EntriesFor(rows, me);
      Emit(sid, HistoryResult(target, entries));
    }

    static method EntriesFor(rows: seq<Row>, reader: string) returns (entries: seq<Entry>)
      ensures entries == Entries(rows, reader)
    {
      entries := [];
      for i := 0 to |rows|
        invariant entries == Entries(rows[..i], reader)
      {
        assert rows[..i + 1] == rows[..i] + [rows[i]];
        EntriesMore(rows[..i], rows[i], reader);
        var entry := HistoryEntry(rows[i], reader);
        entries := entries + if entry.None? then [] else [entry.value];
      }
      assert rows[..|rows|] == rows;
    }

    method HandleReceipt(sid: Sid, me: string, ref: string, state: Label, when: int)
      modifies this`outbox, messages
      ensures Contents() == DoReceipt(old(Contents()), sid, me, ref, state, when)
    {
      if ref == "" || state == SENT {
        Emit(sid, Error(BAD_RECEIPT));
        return;
      }
      var sender := messages.MarkMessage(ref, state, when);
      if sender.None? {
        MarkOfNothing(old(Contents()).store, ref, state, when);
        return;
      }
      if sender.value == me || sender.value !in sessions.byName {
        return;
      }
      Emit(sessions.byName[sender.value], ReceiptFrom(me, sender.value, ref, state));
    }

    method RelayTyping(me: string, to: string, on: bool)
      requires Valid()
      modifies this`outbox
      ensures Contents() == DoTyping(old(Contents()), me, to, on)
    {
      if to == "" || (IsRoom(to) && me !in MembersOf(rooms.members, to)) {
        return;
      }
      EmitTo(if IsRoom(to) then MembersOf(rooms.members, to) - {me} else {to}, TypingFrom(me, to, on));
    }

    method AnswerKey(sid: Sid, user: string)
      modifies this`outbox
      ensures Contents() == SendTo(old(Contents()), sid, KeyReply(old(Contents()), user))
    {
      if user == "" {
        Emit(sid, Error(NO_RECIPIENT));
      } else if user !in users.accounts || users.accounts[user].pubkey.None? {
        Emit(sid, Error(NO_KEY));
      } else {
        Emit(sid, KeyIs(user, users.accounts[user].pubkey.value));
      }
    }

    // -------------------------------------------------------------- dispatch

    /** Act on one frame from one connection. */
    method HandleFrame(sid: Sid, r: Request)
      requires Valid()
      modifies this, users, sessions, rooms, contacts, messages
      ensures Valid() && Contents() == Handle(old(Contents()), sid, r)
    {
      if r.Ping? {
        Emit(sid, Pong);
      } else if r.Register? {
        RegisterUser(sid, r.user, r.pass, r.pubkey);
      } else if r.Login? {
        LoginUser(sid, r.user, r.pass);
      } else if sid !in who {
        Emit(sid, Error(NOT_LOGGED_IN));
      } else if r.CreateRoom? || r.Join? || r.Leave? || r.Invite? {
        HandleRoom(sid, who[sid], r);
      } else {
        HandleOther(sid, who[sid], r);
      }
    }

    method HandleRoom(sid: Sid, me: string, r: Request)
      requires Valid() && (r.CreateRoom? || r.Join? || r.Leave? || r.Invite?)
      modifies this`outbox, rooms
      ensures Valid() && Contents() == Serve(old(Contents()), sid, me, r)
    {
      if r.CreateRoom? { CreateRoom(sid, me, r.room, r.members); }
      else if r.Join? { JoinRoom(sid, me, r.room); }
      else if r.Leave? { LeaveRoom(sid, me, r.room); }
      else { InviteToRoom(sid, me, r.room, r.members); }
    }

    method HandleOther(sid: Sid, me: string, r: Request)
      requires Valid() && me != "" && !r.CreateRoom? && !r.Join? && !r.Leave? && !r.Invite?
      requires !r.Ping? && !r.Register? && !r.Login?
      modifies this`outbox, contacts, messages
      ensures Valid() && Contents() == Serve(old(Contents()), sid, me, r)
    {
      match r
      case Send(_, _, _, _, _, _) => HandleMessage(sid, me, r);
      case AddContact(user) => AddContact(sid, me, user);
      case RemoveContact(user) => RemoveContact(sid, me, user);
      case Typing(to, on) => RelayTyping(me, to, on);
      case Receipt(ref, state, when) => HandleReceipt(sid, me, ref, state, when);
      case History(target, before, limit) => AnswerHistory(sid, me, target, before, limit);
      case GetKey(user) => AnswerKey(sid, user);
      case Unsupported => Emit(sid, Error(UNSUPPORTED));
    }
  }
}
