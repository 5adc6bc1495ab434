/** Messages across disconnects and logins, over whole runs of the hub: one sender's
    messages in one conversation arrive in the order they were accepted, and every one
    handed over is what its stored row makes on every path. */
module AbsenceRuns {
  import opened Text
  import opened Messages
  import opened Hub
  import opened Replica
  import opened Mail
  import opened Absences
  import ChatModel

  /** The frame ids clients choose are new, and no unsealed message's nonce is the
      marker. */
  predicate Fresh(h: Hub, s: Step) {
    s.Act? && s.request.Send? ==>
      !Stored(h.store.table, s.request.id) && Markless(s.request.nonce, SharesOf(s.request))
  }

  ghost predicate FreshRun(h: Hub, steps: seq<Step>) {
    steps == [] || (FreshRun(h, steps[..|steps| - 1]) && Fresh(Run(h, steps[..|steps| - 1]), steps[|steps| - 1]))
  }

  /** The messages one step hands to whichever session a user has after it. */
  function NewMail(h: Hub, h': Hub, u: string): seq<Frame> {
    if u in h'.online && |Inbox(h, h'.online[u])| <= |Inbox(h', h'.online[u])|
    then Inbox(h', h'.online[u])[|Inbox(h, h'.online[u])|..] else []
  }

  /** Every MSG handed to any session of a user, over all their logins, in order. */
  function Trail(h: Hub, steps: seq<Step>, u: string): seq<Frame> {
    if steps == [] then [] else
      var front := steps[..|steps| - 1];
      Trail(h, front, u) + NewMail(Run(h, front), Run(h, steps), u)
  }

  function DeskOf(h: Hub, u: string, trail: seq<Frame>): Desk {
    Desk(h.store.table, set p | p in h.store.pending && p.1 == u :: p.0, u in h.online, trail)
  }

  lemma OwedIs(h: Hub, u: string, trail: seq<Frame>, id: string)
    ensures id in DeskOf(h, u, trail).owed <==> (id, u) in h.store.pending
  {
    assert (id, u).0 == id;
  }

  lemma SameOwed(h: Hub, h': Hub, u: string)
    requires forall id :: (id, u) in h'.store.pending <==> (id, u) in h.store.pending
    ensures DeskOf(h', u, []).owed == DeskOf(h, u, []).owed
  {
    forall id ensures id in DeskOf(h', u, []).owed <==> id in DeskOf(h, u, []).owed {
      OwedIs(h, u, [], id);
      OwedIs(h', u, [], id);
    }
  }

  ghost predicate Desked(h: Hub, u: string, trail: seq<Frame>) {
    Kept(DeskOf(h, u, trail), u)
  }

  /** A step that hands out no message and queues none. */
  ghost predicate Idle(h: Hub, h': Hub) {
    NoMail(h, h') && SameRows(h.store.table, h'.store.table) && h'.store.pending == h.store.pending
    && forall u | u in h'.online :: u in h.online
  }

  lemma IdleKeeps(h: Hub, h': Hub, u: string, trail: seq<Frame>)
    requires Desked(h, u, trail) && Idle(h, h')
    ensures Desked(h', u, trail + NewMail(h, h', u))
  {
    assert NewMail(h, h', u) == [];
    assert trail + [] == trail;
    SameOwed(h, h', u);
    StandingKeeps(DeskOf(h, u, trail), DeskOf(h', u, trail), u);
  }

  lemma IdleSend(h: Hub, sid: Sid, f: Frame)
    requires !f.Msg?
    ensures Idle(h, SendTo(h, sid, f))
  {
    NoMailSend(h, sid, f);
  }

  lemma IdleBroadcast(h: Hub, room: string, members: set<string>)
    ensures Idle(h, Broadcast(SetMembers(h, room, members), room))
  {
    var h1 := SetMembers(h, room, members);
    NoMailAll(h1, Sessions(h1, Members(h1, room)), RoomState(room, Members(h1, room)));
    assert forall s :: Inbox(h1, s) == Inbox(h, s);
  }

  lemma IdleTrans(a: Hub, b: Hub, c: Hub)
    requires Idle(a, b) && Idle(b, c)
    ensures Idle(a, c)
  {}

  lemma SameIdle(h: Hub, a: Hub, b: Hub)
    requires Idle(h, a) && a == b
    ensures Idle(h, b)
  {}

  lemma CreateIsIdle(h: Hub, sid: Sid, me: string, room: string, names: seq<string>)
    ensures Idle(h, DoCreateRoom(h, sid, me, room, names))
  {
    IdleSend(h, sid, Error(BAD_ROOM));
    IdleSend(h, sid, Error(ROOM_EXISTS));
    IdleBroadcast(h, room, {me} + Admitted(h, names));
  }

  lemma JoinIsIdle(h: Hub, sid: Sid, me: string, room: string)
    ensures Idle(h, DoJoin(h, sid, me, room))
  {
    IdleSend(h, sid, Error(BAD_ROOM));
    IdleSend(h, sid, Error(NO_SUCH_ROOM));
    if room in h.rooms { IdleBroadcast(h, room, h.rooms[room] + {me}); }
  }

  lemma LeaveIsIdle(h: Hub, sid: Sid, me: string, room: string)
    ensures Idle(h, DoLeave(h, sid, me, room))
  {
    IdleSend(h, sid, Error(BAD_ROOM));
    IdleSend(h, sid, Error(NOT_A_MEMBER));
    if me in Members(h, room) {
      var left := h.rooms[room] - {me};
      var h1 := Broadcast(SetMembers(h, room, left), room);
      IdleBroadcast(h, room, left);
      IdleSend(h1, sid, RoomState(room, left));
      IdleTrans(h, h1, SendTo(h1, sid, RoomState(room, left)));
    }
  }

  lemma InviteIsIdle(h: Hub, sid: Sid, me: string, room: string, names: seq<string>)
    ensures Idle(h, DoInvite(h, sid, me, room, names))
  {
    IdleSend(h, sid, Error(BAD_ROOM));
    IdleSend(h, sid, Error(NO_SUCH_ROOM));
    IdleSend(h, sid, Error(NOT_A_MEMBER));
    if room in h.rooms { AdmittingIsIdle(h, sid, room, names); }
  }

  lemma AdmittingIsIdle(h: Hub, sid: Sid, room: string, names: seq<string>)
    requires room in h.rooms
    ensures var members, told := h.rooms[room] + Admitted(h, names), SendTo(h, sid, Error(NO_SUCH_USER));
      Idle(h, told) && Idle(h, Broadcast(SetMembers(h, room, members), room))
      && Idle(h, Broadcast(SetMembers(told, room, members), room))
  {
    var members, told := h.rooms[room] + Admitted(h, names), SendTo(h, sid, Error(NO_SUCH_USER));
    IdleSend(h, sid, Error(NO_SUCH_USER));
    IdleBroadcast(h, room, members);
    IdleBroadcast(told, room, members);
    IdleTrans(h, told, Broadcast(SetMembers(told, room, members), room));
  }

  lemma RoomRequestIsIdle(h: Hub, sid: Sid, me: string, r: Request)
    requires AboutRoom(r)
    ensures Idle(h, RoomServe(h, sid, me, r))
  {
    if r.CreateRoom? {
      CreateIsIdle(h, sid, me, r.room, r.members);
    } else if r.Invite? {
      InviteIsIdle(h, sid, me, r.room, r.members);
    } else if r.Join? {
      JoinIsIdle(h, sid, me, r.room);
    } else {
      LeaveIsIdle(h, sid, me, r.room);
    }
  }

  lemma ContactsIdle(h: Hub, sid: Sid, me: string, contacts: set<(string, string)>)
    ensures Idle(h, SendContacts(h.(contacts := contacts), sid, me))
  {
    var h1 := h.(contacts := contacts);
    assert Idle(h, h1) by { assert forall s :: Inbox(h1, s) == Inbox(h, s); }
    IdleSend(h1, sid, ContactList(ContactsOf(h1, me)));
    IdleTrans(h, h1, SendContacts(h1, sid, me));
  }

  lemma AddContactIsIdle(h: Hub, sid: Sid, me: string, name: string)
    ensures Idle(h, DoAddContact(h, sid, me, name))
  {
    IdleSend(h, sid, Error(NO_RECIPIENT));
    IdleSend(h, sid, Error(BAD_CONTACT));
    IdleSend(h, sid, Error(NO_SUCH_USER));
    ContactsIdle(h, sid, me, h.contacts + {(me, name)});
  }

  lemma ReceiptIsIdle(h: Hub, sid: Sid, me: string, ref: string, state: Label, when: int)
    ensures Idle(h, DoReceipt(h, sid, me, ref, state, when))
  {
    var sender := SenderOf(h.store.table, ref);
    if ref == "" || state == SENT {
      IdleSend(h, sid, Error(BAD_RECEIPT));
    } else if sender.Some? {
      var h1 := h.(store := Mark(h.store, ref, state, when));
      assert Idle(h, h1) by { assert forall s :: Inbox(h1, s) == Inbox(h, s); }
      if sender.value != me && sender.value in h.online {
        var f := ReceiptFrom(me, sender.value, ref, state);
        IdleSend(h1, h.online[sender.value], f);
        IdleTrans(h, h1, SendTo(h1, h.online[sender.value], f));
      }
    }
  }

  lemma TypingIsIdle(h: Hub, me: string, to: string, on: bool)
    ensures Idle(h, DoTyping(h, me, to, on))
  {
    NoMailAll(h, Sessions(h, if IsRoom(to) then Members(h, to) - {me} else {to}), TypingFrom(me, to, on));
  }

  lemma ServeIsIdle(h: Hub, sid: Sid, me: string, r: Request)
    requires !r.Send? && !r.Ping? && !r.Register? && !r.Login?
    ensures Idle(h, Serve(h, sid, me, r))
  {
    ServeIs(h, sid, me, r);
    var h' := Serve(h, sid, me, r);
    if AboutRoom(r) {
      RoomRequestIsIdle(h, sid, me, r);
      SameIdle(h, RoomServe(h, sid, me, r), h');
    } else if r.Receipt? {
      ReceiptIsIdle(h, sid, me, r.ref, r.state, r.when);
    } else if r.AddContact? {
      AddContactIsIdle(h, sid, me, r.user);
    } else if r.RemoveContact? {
      ContactsIdle(h, sid, me, h.contacts - {(me, r.user)});
    } else if r.Typing? {
      TypingIsIdle(h, me, r.to, r.on);
    } else {
      IdleSend(h, sid, Answer(h, me, r));
    }
  }

  lemma RegisterIsIdle(h: Hub, sid: Sid, r: Request)
    requires r.Register?
    ensures Idle(h, Handle(h, sid, r))
  {
    IdleSend(h, sid, Error(BAD_REGISTER));
    IdleSend(h, sid, Error(BAD_USERNAME));
    IdleSend(h, sid, Error(USER_EXISTS));
    var h1 := h.(users := h.users[r.user := Account(r.pass, r.pubkey)]);
    assert Idle(h, h1) by { assert forall s :: Inbox(h1, s) == Inbox(h, s); }
    IdleSend(h1, sid, Okay(r.user));
    IdleTrans(h, h1, SendTo(h1, sid, Okay(r.user)));
  }

  lemma DropIsIdle(h: Hub, sid: Sid)
    ensures Idle(h, Disconnect(h, sid))
  {
    if sid in h.who {
      var user := h.who[sid];
      var h1 := Forgo(h, sid, user);
      assert Idle(h, h1) by { assert forall s :: Inbox(h1, s) == Inbox(h, s); }
      NoMailAll(h1, Sessions(h1, h1.online.Keys - {user}), Presence(user, false));
      IdleTrans(h, h1, Disconnect(h, sid));
    }
  }

  // ---------------------------------------------------------- sends and logins

  /** What an accepted message does to one user's desk: its row, and their copy. */
  lemma SendDesk(h: Hub, sid: Sid, me: string, r: Request, u: string, trail: seq<Frame>)
    requires Registry(h) && r.Send? && Refusal(h, me, r.to).None?
    requires !Stored(h.store.table, r.id) && Markless(r.nonce, SharesOf(r))
    requires Desked(h, u, trail)
    ensures var h' := DoSend(h, sid, me, r); Desked(h', u, trail + NewMail(h, h', u))
  {
    var m, h' := Accepted(me, r), DoSend(h, sid, me, r);
    var row, mine := RowOf(m, SharesOf(r)), u in OwedTo(h, me, r);
    SendStores(h, sid, me, r);
    LiveIsFlushed(m, SharesOf(r), u);
    var d, d' := DeskOf(h, u, trail), DeskOf(h', u, trail + NewMail(h, h', u));
    forall id ensures id in d'.owed <==> id in d.owed || (mine && !d.here && id == row.id) {
      OwedIs(h, u, trail, id);
      OwedIs(h', u, trail, id);
    }
    if u in h.online { SendHands(h, sid, me, r, h.online[u]); }
    assert NewMail(h, h', u) == if mine && d.here then [FlushFrame(row, u).value] else [];
    ArrivalKeeps(d, d', u, row, mine);
  }

  lemma ReturnDesk(h: Hub, sid: Sid, u: string, trail: seq<Frame>)
    requires Desked(h, u, trail) && u !in h.online && sid !in h.who && Registry(h)
    ensures var h' := FlushPending(Announce(Greet(Claim(h, sid, u), sid, u), u, true), sid, u);
      Desked(h', u, trail + NewMail(h, h', u))
  {
    var h3 := Announce(Greet(Claim(h, sid, u), sid, u), u, true);
    var h' := FlushPending(h3, sid, u);
    WelcomeHands(h, sid, u);
    MailOfFlush(h3, sid, u, sid);
    var d, d' := DeskOf(h, u, trail), DeskOf(h', u, trail + NewMail(h, h', u));
    forall id ensures id !in d'.owed { OwedIs(h', u, trail, id); }
    forall id ensures id in d.owed <==> (id, u) in h.store.pending { OwedIs(h, u, trail, id); }
    ReturnKeeps(d, d', u, h.store);
  }

  lemma WelcomeHands(h: Hub, sid: Sid, user: string)
    ensures var h3 := Announce(Greet(Claim(h, sid, user), sid, user), user, true);
      NoMail(h, h3) && h3.store == h.store && h3.online == h.online[user := sid]
  {
    var h1 := Claim(h, sid, user);
    var h2 := Greet(h1, sid, user);
    assert forall s :: Inbox(h1, s) == Inbox(h, s);
    NoMailSend(h1, sid, Greeting(h1, user));
    NoMailAll(h2, Sessions(h2, h2.online.Keys - {user}), Presence(user, true));
  }

  /** Somebody else logging in. */
  lemma OtherLoginDesk(h: Hub, sid: Sid, user: string, u: string, trail: seq<Frame>)
    requires Desked(h, u, trail) && u != user && user !in h.online && sid !in h.who && Registry(h)
    ensures var h' := FlushPending(Announce(Greet(Claim(h, sid, user), sid, user), user, true), sid, user);
      Desked(h', u, trail + NewMail(h, h', u))
  {
    WelcomeHands(h, sid, user);
    OtherFlushDesk(h, Announce(Greet(Claim(h, sid, user), sid, user), user, true), sid, user, u, trail);
  }

  lemma OtherFlushDesk(h: Hub, h3: Hub, sid: Sid, user: string, u: string, trail: seq<Frame>)
    requires Desked(h, u, trail) && u != user && user !in h.online && sid !in h.who && Registry(h)
    requires NoMail(h, h3) && h3.store == h.store && h3.online == h.online[user := sid]
    ensures var h' := FlushPending(h3, sid, user); Desked(h', u, trail + NewMail(h, h', u))
  {
    var h' := FlushPending(h3, sid, user);
    if u in h.online { MailOfFlush(h3, sid, user, h.online[u]); }
    assert NewMail(h, h', u) == [];
    assert trail + [] == trail;
    SameOwed(h, h', u);
    StandingKeeps(DeskOf(h, u, trail), DeskOf(h', u, trail), u);
  }

  predicate LoginRefused(h: Hub, sid: Sid, user: string, pass: string) {
    sid in h.who || user == "" || pass == "" || !Verify(h, user, pass) || user in h.online
  }

  lemma RefusedLoginIsIdle(h: Hub, sid: Sid, user: string, pass: string)
    requires LoginRefused(h, sid, user, pass)
    ensures Idle(h, DoLogin(h, sid, user, pass))
    ensures DoLogin(h, sid, user, pass).users == h.users
  {
    IdleSend(h, sid, Error(ALREADY_LOGGED_IN));
    IdleSend(h, sid, Error(BAD_LOGIN));
    IdleSend(h, sid, Error(BAD_CREDENTIALS));
    IdleSend(h, sid, Error(ALREADY_ONLINE));
  }

  lemma LoginDesk(h: Hub, sid: Sid, user: string, pass: string, u: string, trail: seq<Frame>)
    requires Desked(h, u, trail) && Registry(h)
    ensures var h' := DoLogin(h, sid, user, pass); Desked(h', u, trail + NewMail(h, h', u))
  {
    if LoginRefused(h, sid, user, pass) {
      RefusedLoginIsIdle(h, sid, user, pass);
      IdleKeeps(h, DoLogin(h, sid, user, pass), u, trail);
    } else if u == user {
      ReturnDesk(h, sid, u, trail);
    } else {
      OtherLoginDesk(h, sid, user, u, trail);
    }
  }

  lemma StepDesk(h: Hub, s: Step, u: string, trail: seq<Frame>)
    requires Desked(h, u, trail) && Registry(h) && Fresh(h, s)
    ensures Desked(Next(h, s), u, trail + NewMail(h, Next(h, s), u))
  {
    var h' := Next(h, s);
    if s.Drop? {
      DropIsIdle(h, s.sid);
      IdleKeeps(h, h', u, trail);
    } else if s.request.Login? {
      LoginDesk(h, s.sid, s.request.user, s.request.pass, u, trail);
    } else if s.sid in h.who && s.request.Send? && Refusal(h, h.who[s.sid], s.request.to).None? {
      SendDesk(h, s.sid, h.who[s.sid], s.request, u, trail);
    } else {
      OtherStepIsIdle(h, s);
      IdleKeeps(h, h', u, trail);
    }
  }

  lemma OtherStepIsIdle(h: Hub, s: Step)
    requires s.Act? && !s.request.Login?
    requires !(s.sid in h.who && s.request.Send? && Refusal(h, h.who[s.sid], s.request.to).None?)
    ensures Idle(h, Next(h, s))
  {
    if s.request.Ping? {
      IdleSend(h, s.sid, Pong);
    } else if s.request.Register? {
      RegisterIsIdle(h, s.sid, s.request);
    } else if s.sid !in h.who {
      IdleSend(h, s.sid, Error(NOT_LOGGED_IN));
    } else if s.request.Send? {
      IdleSend(h, s.sid, Error(Refusal(h, h.who[s.sid], s.request.to).value));
    } else {
      ServeIsIdle(h, s.sid, h.who[s.sid], s.request);
    }
  }

  /** The hub as it starts: nobody online, and every queued id readable by whom it is
      queued for. */
  ghost predicate Booted(h: Hub, u: string) {
    NobodyConnected(h) && Desked(h, u, [])
  }

  lemma {:induction false} RegistryHolds(h: Hub, steps: seq<Step>)
    requires NobodyConnected(h)
    ensures Registry(Run(h, steps))
  {
    ClientsAreFaithfulReplicas(h, steps, ChatModel.NEW_MODEL);
  }

  lemma {:induction false} DesksAreKept(h: Hub, steps: seq<Step>, u: string)
    requires Booted(h, u) && FreshRun(h, steps)
    ensures Desked(Run(h, steps), u, Trail(h, steps, u))
  {
    if steps != [] {
      var front := steps[..|steps| - 1];
      DesksAreKept(h, front, u);
      RegistryHolds(h, front);
      StepDesk(Run(h, front), steps[|steps| - 1], u, Trail(h, front, u));
    }
  }

  /** Two messages handed over, one sender's in one conversation, are in the order their
      rows were stored, if the sender's timestamps there never decrease. */
  ghost predicate AsAccepted(table: seq<Row>, trail: seq<Frame>, a: nat, b: nat, i: nat, j: nat) {
    && a < |trail| && b < |trail| && i < |table| && j < |table| && trail[a].Msg? && trail[b].Msg?
    && table[i].id == trail[a].id && table[j].id == trail[b].id
    && table[i].sender == table[j].sender && table[i].conversation == table[j].conversation
    && NeverBack(table, table[i].sender, table[i].conversation)
    ==> (a < b <==> i < j)
  }

  /** Order across absences: over any number of disconnects and logins, if a sender's
      timestamps in a conversation never decrease, the messages a recipient is handed
      from that sender in that conversation are in the order the server accepted them. */
  lemma OrderAcrossAbsences(h: Hub, steps: seq<Step>, u: string)
    requires Booted(h, u) && FreshRun(h, steps)
    ensures forall a, b, i, j :: AsAccepted(Run(h, steps).store.table, Trail(h, steps, u), a, b, i, j)
  {
    DesksAreKept(h, steps, u);
    var d := DeskOf(Run(h, steps), u, Trail(h, steps, u));
    forall a: nat, b: nat, i: nat, j: nat ensures AsAccepted(d.table, d.trail, a, b, i, j) { KeptIsAsAccepted(d, u, a, b, i, j); }
  }

  lemma KeptIsAsAccepted(d: Desk, u: string, a: nat, b: nat, i: nat, j: nat)
    requires Kept(d, u) && UniqueIds(d.table)
    ensures AsAccepted(d.table, d.trail, a, b, i, j)
  {
    if a < |d.trail| && b < |d.trail| && i < |d.table| && j < |d.table| {
      LocateIs(d.table, i);
      LocateIs(d.table, j);
      if a < b { assert InOrder(d.table, d.trail[a], d.trail[b]); }
      if b < a { assert InOrder(d.table, d.trail[b], d.trail[a]); }
    }
  }

  /** A stored row from which every path makes the same message for a user. */
  ghost predicate OnEveryPath(row: Row, u: string, f: Frame) {
    f.Msg? && row.id == f.id && FlushFrame(row, u) == Some(f)
    && HistoryEntry(row, u) == Some(Entry(f.id, f.sender, f.to, f.body, f.nonce, f.ts, HistoryLabel(row)))
  }

  lemma TracedIsOnEveryPath(d: Desk, u: string, f: Frame)
    requires Traced(d, u, f)
    ensures OnEveryPath(d.table[Locate(d.table, f.id)], u, f)
  {
    FlushedIsRemembered(d.table[Locate(d.table, f.id)], u);
  }

  /** The three paths agree over every run: each MSG ever handed to a user, live or at a
      login, is exactly what a flush and a history entry would make of its stored row. */
  lemma PathsAgree(h: Hub, steps: seq<Step>, u: string)
    requires Booted(h, u) && FreshRun(h, steps)
    ensures forall f | f in Trail(h, steps, u) :: exists row | row in Run(h, steps).store.table :: OnEveryPath(row, u, f)
  {
    DesksAreKept(h, steps, u);
    var d := DeskOf(Run(h, steps), u, Trail(h, steps, u));
    forall f | f in d.trail ensures exists row | row in d.table :: OnEveryPath(row, u, f) {
      assert Traced(d, u, f);
      TracedIsOnEveryPath(d, u, f);
    }
  }
}
