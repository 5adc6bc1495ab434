/** Every request, uninterrupted: whatever one thread makes of a request, step by step, is
    what the handler makes of it in one call. */
module Requests {
  import opened Text
  import opened Messages
  import opened Hub
  import opened Mail
  import opened Chronicle
  import opened AbsenceRuns
  import opened U = Uninterrupted
  import Rooms
  import Replica
  import Accounting
  import I = Interleaving

  /** The machine's tables are those of the book. */
  ghost predicate Keeps(s: Net, b: Book) {
    s.users == b.users && s.online == b.online && s.who == b.who && s.rooms == b.rooms && s.contacts == b.contacts
  }

  lemma AgreeByBook(s: Net, s': Net, h: Hub, h': Hub)
    requires Agree(s, h) && Keeps(s', BookOf(h')) && NoMail(h, h') && h'.store == h.store
    requires s'.store == s.store && s'.sent == s.sent
    ensures Agree(s', h')
  {}

  /** The thread is done at once. */
  lemma DoneAtOnce(s: Net, sid: Sid, h: Hub)
    requires Stands(s, sid, I.Idle, h)
    ensures Finishes(s, sid, [], h)
  {}

  /** One more step and the thread is done. */
  lemma DoneNext(s: Net, sid: Sid, h: Hub)
    requires Stands(U.Step(s, sid), sid, I.Idle, h)
    ensures Finishes(s, sid, [""], h)
  {
    DoneAtOnce(U.Step(s, sid), sid, h);
    OneStep(s, sid, "", [], h);
    assert [""] + [] == [""];
  }

  // --------------------------------------------------------------- adding people

  /** The names of a list that get in. */
  function Entering(users: map<string, Account>, names: seq<string>): set<string> {
    if names == [] then {} else
      (if names[0] != "" && !IsRoom(names[0]) && names[0] in users then {names[0]} else {}) + Entering(users, names[1..])
  }

  lemma {:induction false} EnteringAre(users: map<string, Account>, names: seq<string>, u: string)
    ensures u in Entering(users, names) <==> u != "" && !IsRoom(u) && u in users && u in names
  {
    if names != [] {
      EnteringAre(users, names[1..], u);
      assert names == [names[0]] + names[1..];
    }
  }

  lemma FirstOnes(h: Hub, names: seq<string>)
    ensures Entering(h.users, if |names| > 64 then names[..64] else names) == Admitted(h, names)
  {
    var first := if |names| > 64 then names[..64] else names;
    forall u ensures u in Entering(h.users, first) <==> u in Admitted(h, names) { EnteringAre(h.users, first, u); }
  }

  /** A thread that adds people to a room by itself adds exactly those who may enter. */
  ghost predicate Added(s: Net, s': Net, sid: Sid, room: string, more: set<string>) {
    && sid in s'.pcs && s'.pcs[sid].Idle?
    && s'.users == s.users && s'.online == s.online && s'.who == s.who && s'.contacts == s.contacts
    && s'.store == s.store && s'.sent == s.sent
    && s'.rooms == if more == {} then s.rooms else s.rooms[room := Rooms.MembersOf(s.rooms, room) + more]
  }

  lemma {:induction false} AddsAlone(s: Net, sid: Sid, room: string, names: seq<string>) returns (picks: seq<string>)
    requires sid in s.pcs && s.pcs[sid] == I.AddCheck(room, names)
    ensures Added(s, GoOn(s, sid, picks), sid, room, Entering(s.users, names))
    decreases |names|
  {
    if names == [] {
      picks := [""];
      NobodyLeft(s, sid, room);
    } else if names[0] != "" && !IsRoom(names[0]) && names[0] in s.users {
      var s2 := U.Step(U.Step(s, sid), sid);
      JoinsOne(s, sid, room, names);
      var rest := AddsAlone(s2, sid, room, names[1..]);
      picks := ["", ""] + rest;
      GoOnOn(s, sid, ["", ""], rest);
      TwoGo(s, sid);
      AddedMore(s, s2, GoOn(s2, sid, rest), sid, room, names[0], Entering(s.users, names[1..]));
    } else {
      var s1 := U.Step(s, sid);
      PassesOver(s, sid, room, names);
      var rest := AddsAlone(s1, sid, room, names[1..]);
      picks := [""] + rest;
      GoOnOn(s, sid, [""], rest);
      OneGo(s, sid);
      AddedAlike(s, s1, GoOn(s1, sid, rest), sid, room, Entering(s.users, names[1..]));
      assert {} + Entering(s.users, names[1..]) == Entering(s.users, names[1..]);
    }
  }

  lemma NobodyLeft(s: Net, sid: Sid, room: string)
    requires sid in s.pcs && s.pcs[sid] == I.AddCheck(room, [])
    ensures Added(s, GoOn(s, sid, [""]), sid, room, {})
  {
    OneGo(s, sid);
    ListEnds(s, sid, room);
    AddedNone(s, sid, room);
  }

  lemma ListEnds(s: Net, sid: Sid, room: string)
    requires sid in s.pcs && s.pcs[sid] == I.AddCheck(room, [])
    ensures U.Step(s, sid) == I.At(s, sid, I.Idle)
  {}

  lemma AddedNone(s: Net, sid: Sid, room: string)
    ensures Added(s, I.At(s, sid, I.Idle), sid, room, {})
  {}

  lemma PassesOver(s: Net, sid: Sid, room: string, names: seq<string>)
    requires sid in s.pcs && s.pcs[sid] == I.AddCheck(room, names)
    requires names != [] && !(names[0] != "" && !IsRoom(names[0]) && names[0] in s.users)
    ensures U.Step(s, sid) == I.At(s, sid, I.AddCheck(room, names[1..]))
  {}

  lemma AddedAlike(s: Net, s1: Net, s': Net, sid: Sid, room: string, more: set<string>)
    requires s1 == s.(pcs := s1.pcs) && Added(s1, s', sid, room, more)
    ensures Added(s, s', sid, room, more)
  {}

  lemma TwoGo(s: Net, sid: Sid)
    ensures GoOn(s, sid, ["", ""]) == U.Step(U.Step(s, sid), sid)
  {
    ThreeSteps(s, sid);
  }

  lemma JoinsOne(s: Net, sid: Sid, room: string, names: seq<string>)
    requires sid in s.pcs && s.pcs[sid] == I.AddCheck(room, names)
    requires names != [] && names[0] != "" && !IsRoom(names[0]) && names[0] in s.users
    ensures var s2 := U.Step(U.Step(s, sid), sid);
      && s2.pcs == s.pcs[sid := I.AddCheck(room, names[1..])]
      && s2 == s.(pcs := s2.pcs, rooms := s.rooms[room := Rooms.MembersOf(s.rooms, room) + {names[0]}])
  {
    assert U.Step(s, sid) == I.At(s, sid, I.AddJoin(room, names[0], names[1..]));
  }

  lemma AddedMore(s: Net, s2: Net, s': Net, sid: Sid, room: string, name: string, more: set<string>)
    requires s2 == s.(pcs := s2.pcs, rooms := s.rooms[room := Rooms.MembersOf(s.rooms, room) + {name}])
    requires Added(s2, s', sid, room, more)
    ensures Added(s, s', sid, room, {name} + more)
  {
    var was := Rooms.MembersOf(s.rooms, room);
    assert was + {name} + more == was + ({name} + more);
    if more == {} { assert {name} + more == {name}; }
  }

  // ----------------------------------------------------------- rooms and contacts

  /** A request of a session that has a name. */
  lemma AskedIs(s: Net, sid: Sid, r: Request)
    requires sid in s.pcs && s.pcs[sid].Idle? && sid in s.who && !r.Register? && !r.Login? && !r.Send?
    ensures I.Next(s, I.Hear(sid, r)) == I.Asking(s, sid, s.who[sid], r)
  {}

  /** A step of a thread that keeps rooms or contacts. */
  lemma KeptOn(s: Net, sid: Sid)
    requires sid in s.pcs && Accounting.AtKeeping(s.pcs[sid])
    ensures U.Step(s, sid) == I.GoKeeping(s, sid, s.pcs[sid])
  {}

  /** What a handler leaves alone that only talks of rooms, people or contacts. */
  ghost predicate NoMessages(h: Hub, h': Hub) {
    NoMail(h, h') && h'.store == h.store
  }

  lemma RoomStore(h: Hub, sid: Sid, me: string, r: Request)
    requires Replica.AboutRoom(r)
    ensures NoMessages(h, Replica.RoomServe(h, sid, me, r))
  {
    RoomRequestIsIdle(h, sid, me, r);
    if r.CreateRoom? || r.Invite? { AddingStore(h, sid, me, r.room, r.members); }
  }

  lemma AddingStore(h: Hub, sid: Sid, me: string, room: string, names: seq<string>)
    ensures DoCreateRoom(h, sid, me, room, names).store == h.store && DoInvite(h, sid, me, room, names).store == h.store
  {}

  /** The machine ends with the tables of the book, and no mail. */
  ghost predicate EndsAs(s0: Net, s: Net, sid: Sid, picks: seq<string>, b: Book) {
    var s' := GoOn(s, sid, picks);
    sid in s'.pcs && s'.pcs[sid].Idle? && Keeps(s', b) && s'.store == s0.store && s'.sent == s0.sent
  }

  lemma EndsFinished(s0: Net, s: Net, h: Hub, h': Hub, sid: Sid, picks: seq<string>)
    requires Agree(s0, h) && EndsAs(s0, s, sid, picks, BookOf(h')) && NoMessages(h, h')
    ensures Finishes(s, sid, picks, h')
  {
    AgreeByBook(s0, GoOn(s, sid, picks), h, h');
  }

  lemma CreateEnds(s: Net, h: Hub, sid: Sid, r: Request) returns (picks: seq<string>)
    requires Stands(s, sid, I.Idle, h) && r.CreateRoom? && sid in h.who
    ensures EndsAs(s, I.Next(s, I.Hear(sid, r)), sid, picks, WithRoom(BookOf(h), r.room, RoomAfter(BookOf(h), h.who[sid], r)))
  {
    if !GoodRoomName(r.room) || r.room in h.rooms {
      picks := [];
      EndsAtOnce(s, h, sid, r);
    } else {
      var first := if |r.members| > 64 then r.members[..64] else r.members;
      var s1 := I.Next(s, I.Hear(sid, r));
      CreateBegins(s, h, sid, r, first);
      picks := ThenAdds(s1, sid, r.room, first);
      FirstOnes(h, r.members);
      GuestsAre(h, r.members);
      CreatedRooms(s.rooms, r.room, h.who[sid], Guests(BookOf(h), r.members));
    }
  }

  /** A request that is refused before anything is touched. */
  lemma EndsAtOnce(s: Net, h: Hub, sid: Sid, r: Request)
    requires Stands(s, sid, I.Idle, h) && sid in h.who && Replica.AboutRoom(r)
    requires !GoodRoomName(r.room) || (if r.CreateRoom? then r.room in h.rooms else r.room !in h.rooms)
    ensures EndsAs(s, I.Next(s, I.Hear(sid, r)), sid, [], WithRoom(BookOf(h), r.room, RoomAfter(BookOf(h), h.who[sid], r)))
  {
    assert I.Next(s, I.Hear(sid, r)) == s;
  }

  /** One step, and then people are added. */
  lemma ThenAdds(s1: Net, sid: Sid, room: string, names: seq<string>) returns (picks: seq<string>)
    requires var s2 := U.Step(s1, sid); sid in s2.pcs && s2.pcs[sid] == I.AddCheck(room, names)
    ensures Added(U.Step(s1, sid), GoOn(s1, sid, picks), sid, room, Entering(U.Step(s1, sid).users, names))
  {
    var rest := AddsAlone(U.Step(s1, sid), sid, room, names);
    picks := [""] + rest;
    GoOnOn(s1, sid, [""], rest);
    OneGo(s1, sid);
  }

  lemma CreatedRooms(rooms: map<string, set<string>>, room: string, me: string, more: set<string>)
    requires room !in rooms
    ensures var made := rooms[room := {me}];
      (if more == {} then made else made[room := Rooms.MembersOf(made, room) + more]) == rooms[room := {me} + more]
  {
    if more == {} { assert {me} + more == {me}; }
  }

  lemma CreateBegins(s: Net, h: Hub, sid: Sid, r: Request, first: seq<string>)
    requires Stands(s, sid, I.Idle, h) && r.CreateRoom? && sid in h.who && GoodRoomName(r.room) && r.room !in h.rooms
    requires first == if |r.members| > 64 then r.members[..64] else r.members
    ensures var s2 := U.Step(I.Next(s, I.Hear(sid, r)), sid);
      && s2 == s.(pcs := s.pcs[sid := I.AddCheck(r.room, first)], rooms := s.rooms[r.room := {h.who[sid]}])
  {
    AskedIs(s, sid, r);
    KeptOn(I.At(s.(rooms := s.rooms[r.room := {}]), sid, I.CreateJoin(r.room, first)), sid);
    var s1 := I.Next(s, I.Hear(sid, r));
    assert s1 == I.At(s.(rooms := s.rooms[r.room := {}]), sid, I.CreateJoin(r.room, first));
    assert {} + {h.who[sid]} == {h.who[sid]};
    assert U.Step(s1, sid) == I.At(s1.(rooms := s1.rooms[r.room := {h.who[sid]}]), sid, I.AddCheck(r.room, first));
  }

  lemma InviteEnds(s: Net, h: Hub, sid: Sid, r: Request) returns (picks: seq<string>)
    requires Stands(s, sid, I.Idle, h) && r.Invite? && sid in h.who
    ensures EndsAs(s, I.Next(s, I.Hear(sid, r)), sid, picks, WithRoom(BookOf(h), r.room, RoomAfter(BookOf(h), h.who[sid], r)))
  {
    if !GoodRoomName(r.room) || r.room !in h.rooms {
      picks := [];
      EndsAtOnce(s, h, sid, r);
    } else if h.who[sid] !in h.rooms[r.room] {
      picks := [""];
      InviteTurnedAway(s, h, sid, r);
    } else {
      var first := if |r.members| > 64 then r.members[..64] else r.members;
      InviteBegins(s, h, sid, r, first);
      picks := ThenAdds(I.Next(s, I.Hear(sid, r)), sid, r.room, first);
      FirstOnes(h, r.members);
      GuestsAre(h, r.members);
      InvitedRooms(s.rooms, r.room, Guests(BookOf(h), r.members));
    }
  }

  lemma InviteTurnedAway(s: Net, h: Hub, sid: Sid, r: Request)
    requires Stands(s, sid, I.Idle, h) && r.Invite? && sid in h.who && GoodRoomName(r.room)
    requires r.room in h.rooms && h.who[sid] !in h.rooms[r.room]
    ensures EndsAs(s, I.Next(s, I.Hear(sid, r)), sid, [""], BookOf(h))
  {
    var first := if |r.members| > 64 then r.members[..64] else r.members;
    AskedIs(s, sid, r);
    assert I.Next(s, I.Hear(sid, r)) == I.At(s, sid, I.InviteCheck(r.room, first));
    KeptOn(I.Next(s, I.Hear(sid, r)), sid);
    OneGo(I.Next(s, I.Hear(sid, r)), sid);
  }

  lemma InvitedRooms(rooms: map<string, set<string>>, room: string, more: set<string>)
    requires room in rooms
    ensures (if more == {} then rooms else rooms[room := Rooms.MembersOf(rooms, room) + more]) == rooms[room := rooms[room] + more]
  {
    if more == {} {
      assert rooms[room] + more == rooms[room];
      assert rooms[room := rooms[room]] == rooms;
    }
  }

  lemma InviteBegins(s: Net, h: Hub, sid: Sid, r: Request, first: seq<string>)
    requires Stands(s, sid, I.Idle, h) && r.Invite? && sid in h.who && GoodRoomName(r.room)
    requires r.room in h.rooms && h.who[sid] in h.rooms[r.room]
    requires first == if |r.members| > 64 then r.members[..64] else r.members
    ensures U.Step(I.Next(s, I.Hear(sid, r)), sid) == s.(pcs := s.pcs[sid := I.AddCheck(r.room, first)])
  {
    AskedIs(s, sid, r);
    KeptOn(I.At(s, sid, I.InviteCheck(r.room, first)), sid);
    assert I.Next(s, I.Hear(sid, r)) == I.At(s, sid, I.InviteCheck(r.room, first));
  }

  lemma JoinEnds(s: Net, h: Hub, sid: Sid, r: Request) returns (picks: seq<string>)
    requires Stands(s, sid, I.Idle, h) && r.Join? && sid in h.who
    ensures EndsAs(s, I.Next(s, I.Hear(sid, r)), sid, picks, WithRoom(BookOf(h), r.room, RoomAfter(BookOf(h), h.who[sid], r)))
  {
    if !GoodRoomName(r.room) || r.room !in h.rooms {
      picks := [];
      EndsAtOnce(s, h, sid, r);
    } else {
      picks := [""];
      OneGo(I.Next(s, I.Hear(sid, r)), sid);
      Joins(s, h, sid, r.room);
    }
  }

  lemma Joins(s: Net, h: Hub, sid: Sid, room: string)
    requires Stands(s, sid, I.Idle, h) && sid in h.who && GoodRoomName(room) && room in h.rooms
    ensures U.Step(I.Next(s, I.Hear(sid, Join(room))), sid)
         == s.(pcs := s.pcs[sid := I.Idle], rooms := s.rooms[room := s.rooms[room] + {h.who[sid]}])
  {
    AskedIs(s, sid, Join(room));
    KeptOn(I.At(s, sid, I.JoinJoin(room)), sid);
    assert I.Next(s, I.Hear(sid, Join(room))) == I.At(s, sid, I.JoinJoin(room));
  }

  lemma LeaveEnds(s: Net, h: Hub, sid: Sid, r: Request) returns (picks: seq<string>)
    requires Stands(s, sid, I.Idle, h) && r.Leave? && sid in h.who
    ensures EndsAs(s, I.Next(s, I.Hear(sid, r)), sid, picks, WithRoom(BookOf(h), r.room, RoomAfter(BookOf(h), h.who[sid], r)))
  {
    var s1 := I.Next(s, I.Hear(sid, r));
    picks := if !GoodRoomName(r.room) || h.who[sid] !in Members(h, r.room) then [] else [""];
    if picks != [] {
      OneGo(s1, sid);
      Leaves(s, h, sid, r.room);
    }
  }

  lemma Leaves(s: Net, h: Hub, sid: Sid, room: string)
    requires Stands(s, sid, I.Idle, h) && sid in h.who && GoodRoomName(room) && h.who[sid] in Members(h, room)
    ensures U.Step(I.Next(s, I.Hear(sid, Leave(room))), sid)
         == s.(pcs := s.pcs[sid := I.Idle], rooms := s.rooms[room := s.rooms[room] - {h.who[sid]}])
  {
    AskedIs(s, sid, Leave(room));
    KeptOn(I.At(s, sid, I.LeaveLeave(room)), sid);
    assert I.Next(s, I.Hear(sid, Leave(room))) == I.At(s, sid, I.LeaveLeave(room));
  }

  lemma RoomRequestEnds(s: Net, h: Hub, sid: Sid, r: Request) returns (picks: seq<string>)
    requires Stands(s, sid, I.Idle, h) && Replica.AboutRoom(r) && sid in h.who
    ensures Finishes(I.Next(s, I.Hear(sid, r)), sid, picks, Handle(h, sid, r))
  {
    var me := h.who[sid];
    if r.CreateRoom? { picks := CreateEnds(s, h, sid, r); }
    else if r.Invite? { picks := InviteEnds(s, h, sid, r); }
    else if r.Join? { picks := JoinEnds(s, h, sid, r); }
    else { picks := LeaveEnds(s, h, sid, r); }
    Replica.ServeIs(h, sid, me, r);
    RoomServeBook(h, sid, me, r);
    RoomStore(h, sid, me, r);
    EndsFinished(s, I.Next(s, I.Hear(sid, r)), h, Handle(h, sid, r), sid, picks);
  }

  lemma ContactStore(h: Hub, sid: Sid, me: string, r: Request)
    requires r.AddContact? || r.RemoveContact?
    ensures NoMessages(h, Serve(h, sid, me, r))
  {
    Replica.ServeIs(h, sid, me, r);
    if r.AddContact? { AddContactIsIdle(h, sid, me, r.user); }
    else { ContactsIdle(h, sid, me, h.contacts - {(me, r.user)}); }
  }

  lemma ContactRequestEnds(s: Net, h: Hub, sid: Sid, r: Request) returns (picks: seq<string>)
    requires Stands(s, sid, I.Idle, h) && (r.AddContact? || r.RemoveContact?) && sid in h.who && h.who[sid] != ""
    ensures Finishes(I.Next(s, I.Hear(sid, r)), sid, picks, Handle(h, sid, r))
  {
    var s1, me := I.Next(s, I.Hear(sid, r)), h.who[sid];
    ServeBook(h, sid, me, r);
    ContactStore(h, sid, me, r);
    if r.AddContact? && r.user != "" && r.user != me && !IsRoom(r.user) && r.user in h.users {
      picks := [""];
      Befriended(s, h, sid, r.user);
      OneGo(s1, sid);
    } else {
      picks := [];
      AtOnce(s, h, sid, r);
    }
    EndsFinished(s, s1, h, Handle(h, sid, r), sid, picks);
  }

  /** Removing a contact, or a refused request to add one. */
  lemma AtOnce(s: Net, h: Hub, sid: Sid, r: Request)
    requires Stands(s, sid, I.Idle, h) && sid in h.who && (r.AddContact? || r.RemoveContact?)
    requires !(r.AddContact? && r.user != "" && r.user != h.who[sid] && !IsRoom(r.user) && r.user in h.users)
    ensures I.Next(s, I.Hear(sid, r)) == if r.AddContact? then s else s.(contacts := s.contacts - {(h.who[sid], r.user)})
  {}

  lemma Befriended(s: Net, h: Hub, sid: Sid, name: string)
    requires Stands(s, sid, I.Idle, h) && sid in h.who && h.who[sid] != ""
    requires name != "" && name != h.who[sid] && !IsRoom(name) && name in h.users
    ensures U.Step(I.Next(s, I.Hear(sid, AddContact(name))), sid)
         == s.(pcs := s.pcs[sid := I.Idle], contacts := s.contacts + {(h.who[sid], name)})
  {
    AskedIs(s, sid, AddContact(name));
    KeptOn(I.At(s, sid, I.ContactAdd(name)), sid);
    assert I.Next(s, I.Hear(sid, AddContact(name))) == I.At(s, sid, I.ContactAdd(name));
  }

  // ------------------------------------------------------------ everything else

  lemma RegisterEnds(s: Net, h: Hub, sid: Sid, r: Request)
    requires Stands(s, sid, I.Idle, h) && r.Register?
    ensures Finishes(I.Next(s, I.Hear(sid, r)), sid, [], Handle(h, sid, r))
  {
    RegisterBook(h, sid, r.user, r.pass, r.pubkey);
    RegisterIsIdle(h, sid, r);
    EndsFinished(s, I.Next(s, I.Hear(sid, r)), h, Handle(h, sid, r), sid, []);
  }

  lemma LoginEnds(s: Net, h: Hub, sid: Sid, r: Request) returns (picks: seq<string>)
    requires Stands(s, sid, I.Idle, h) && r.Login?
    ensures Finishes(I.Next(s, I.Hear(sid, r)), sid, picks, Handle(h, sid, r))
  {
    if !LoginRefused(h, sid, r.user, r.pass) {
      LoginIsAtomic(s, h, sid, r.user, r.pass);
      picks :| Finishes(I.Next(s, I.Hear(sid, Login(r.user, r.pass))), sid, picks, Handle(h, sid, Login(r.user, r.pass)));
    } else {
      picks := RefusedLoginEnds(s, h, sid, r);
    }
  }

  lemma RefusedLoginEnds(s: Net, h: Hub, sid: Sid, r: Request) returns (picks: seq<string>)
    requires Stands(s, sid, I.Idle, h) && r.Login? && LoginRefused(h, sid, r.user, r.pass)
    ensures Finishes(I.Next(s, I.Hear(sid, r)), sid, picks, Handle(h, sid, r))
  {
    var s1 := I.Next(s, I.Hear(sid, r));
    RefusedLoginIsIdle(h, sid, r.user, r.pass);
    LoginBook(h, sid, r.user, r.pass);
    LoginStore(h, sid, r.user, r.pass);
    if sid in h.who || r.user == "" || r.pass == "" || !Verify(h, r.user, r.pass) {
      picks := [];
      assert s1 == s;
    } else {
      picks := [""];
      OneGo(s1, sid);
      NameTaken(s, h, sid, r);
    }
    EndsFinished(s, s1, h, Handle(h, sid, r), sid, picks);
  }

  lemma NameTaken(s: Net, h: Hub, sid: Sid, r: Request)
    requires Stands(s, sid, I.Idle, h) && r.Login? && r.user in h.online
    requires sid !in h.who && r.user != "" && r.pass != "" && Verify(h, r.user, r.pass)
    ensures U.Step(I.Next(s, I.Hear(sid, r)), sid) == s.(pcs := s.pcs[sid := I.Idle])
  {
    assert I.Next(s, I.Hear(sid, r)) == I.At(s, sid, I.LoginClaim(r.user));
  }

  lemma LoginStore(h: Hub, sid: Sid, user: string, pass: string)
    requires LoginRefused(h, sid, user, pass)
    ensures DoLogin(h, sid, user, pass).store == h.store
  {}

  /** A refused message. */
  lemma RefusedSendEnds(s: Net, h: Hub, sid: Sid, r: Request) returns (picks: seq<string>)
    requires Stands(s, sid, I.Idle, h) && I.Enabled(s, I.Hear(sid, r)) && r.Send? && sid in h.who
    requires Refusal(h, h.who[sid], r.to).Some?
    ensures Finishes(I.Next(s, I.Hear(sid, r)), sid, picks, Handle(h, sid, r))
  {
    var me, s1 := h.who[sid], I.Next(s, I.Hear(sid, r));
    var error := Error(Refusal(h, me, r.to).value);
    if r.to == "" {
      picks := [];
      assert Stands(s1, sid, I.Idle, h);
      DoneAtOnce(s1, sid, h);
    } else {
      HeardSend(s, h, sid, r);
      if IsRoom(r.to) { picks := RoomTurnsAway(s1, h, sid, Accepted(me, r), r.shares); }
      else { picks := NobodyThere(s1, h, sid, Accepted(me, r)); }
    }
    OtherFrame(GoOn(s1, sid, picks), h, sid, error);
  }

  lemma RoomTurnsAway(s: Net, h: Hub, sid: Sid, m: I.Message, shares: Option<map<string, Share>>) returns (picks: seq<string>)
    requires Stands(s, sid, I.RoomExists(m, shares), h) && m.sender !in Members(h, m.to)
    ensures Finishes(s, sid, picks, h)
  {
    if m.to in h.rooms {
      var s1 := U.Step(s, sid);
      RoomFound(s, h, sid, m, shares);
      NotAMember(s1, h, sid, m, shares);
      DoneNext(s1, sid, h);
      OneStep(s, sid, "", [""], h);
      picks := [""] + [""];
    } else {
      NoSuchRoom(s, h, sid, m, shares);
      DoneNext(s, sid, h);
      picks := [""];
    }
  }

  lemma NotAMember(s: Net, h: Hub, sid: Sid, m: I.Message, shares: Option<map<string, Share>>)
    requires Stands(s, sid, I.RoomMembers(m, shares), h) && m.sender !in Members(h, m.to)
    ensures Stands(U.Step(s, sid), sid, I.Idle, h)
  {
    assert U.Step(s, sid) == I.At(s, sid, I.Idle);
  }

  lemma NoSuchRoom(s: Net, h: Hub, sid: Sid, m: I.Message, shares: Option<map<string, Share>>)
    requires Stands(s, sid, I.RoomExists(m, shares), h) && m.to !in h.rooms
    ensures Stands(U.Step(s, sid), sid, I.Idle, h)
  {
    assert U.Step(s, sid) == I.At(s, sid, I.Idle);
  }

  lemma NobodyThere(s: Net, h: Hub, sid: Sid, m: I.Message) returns (picks: seq<string>)
    requires Stands(s, sid, I.UserLookup(m), h) && m.to !in h.online && m.to !in h.users
    ensures Finishes(s, sid, picks, h)
  {
    var s1 := U.Step(s, sid);
    assert Stands(s1, sid, I.UserExists(m), h);
    DoneNext(s1, sid, h);
    OneStep(s, sid, "", [""], h);
    picks := [""] + [""];
  }

  /** A request that changes no table, or comes from nobody. */
  lemma IdleRequestEnds(s: Net, h: Hub, sid: Sid, r: Request)
    requires Stands(s, sid, I.Idle, h)
    requires r.Ping? || r.Typing? || Replica.Asks(r) || (sid !in h.who && !r.Register? && !r.Login? && (r.Send? ==> I.Enabled(s, I.Hear(sid, r))))
    ensures Finishes(I.Next(s, I.Hear(sid, r)), sid, [], Handle(h, sid, r))
  {
    assert I.Next(s, I.Hear(sid, r)) == s;
    if r.Ping? {
      OtherFrame(s, h, sid, Pong);
    } else if sid !in h.who {
      OtherFrame(s, h, sid, Error(NOT_LOGGED_IN));
    } else {
      Replica.ServeIs(h, sid, h.who[sid], r);
      if r.Typing? {
        TypingIsIdle(h, h.who[sid], r.to, r.on);
        TypingBook(h, h.who[sid], r.to, r.on);
        AgreeByBook(s, s, h, Handle(h, sid, r));
      } else {
        OtherFrame(s, h, sid, Replica.Answer(h, h.who[sid], r));
      }
    }
  }

  /** The two views of the server agree on every request but a receipt: read from the
      socket and handled step by step without interruption, it leaves the tables and every
      session's mail as the handler does in one call, whether it is accepted or refused. */
  lemma EveryRequestIsAtomic(s: Net, h: Hub, sid: Sid, r: Request)
    requires Replica.Registry(h) && Stands(s, sid, I.Idle, h) && I.Enabled(s, I.Hear(sid, r)) && !r.Receipt?
    requires sid in h.who ==> h.who[sid] != ""
    ensures exists picks :: Finishes(I.Next(s, I.Hear(sid, r)), sid, picks, Handle(h, sid, r))
  {
    var s1, h' := I.Next(s, I.Hear(sid, r)), Handle(h, sid, r);
    var picks: seq<string> := [];
    if r.Register? {
      RegisterEnds(s, h, sid, r);
    } else if r.Login? {
      picks := LoginEnds(s, h, sid, r);
    } else if sid !in h.who || r.Ping? || r.Typing? || Replica.Asks(r) {
      IdleRequestEnds(s, h, sid, r);
    } else if Replica.AboutRoom(r) {
      picks := RoomRequestEnds(s, h, sid, r);
    } else if r.AddContact? || r.RemoveContact? {
      picks := ContactRequestEnds(s, h, sid, r);
    } else if Refusal(h, h.who[sid], r.to).Some? {
      picks := RefusedSendEnds(s, h, sid, r);
    } else {
      SendIsAtomic(s, h, sid, r);
      picks :| Finishes(s1, sid, picks, h');
    }
    assert Finishes(s1, sid, picks, h');
  }
}
