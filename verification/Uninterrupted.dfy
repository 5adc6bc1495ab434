/** The two views of the server agree: a thread that is not interrupted, one atomic step
    after another, does to the tables and the mail what one handler call does. */
module Uninterrupted {
  import opened Text
  import opened Messages
  import opened Hub
  import opened Mail
  import opened Router
  import Replica
  import I = Interleaving

  type Net = I.Net

  /** The MSG frames put on one session's queue, in order. */
  function MailOf(sent: seq<I.Sent>, t: Sid): seq<Frame> {
    if sent == [] then [] else
      var front, x := MailOf(sent[..|sent| - 1], t), sent[|sent| - 1];
      if x.sid == t then front + [x.frame] else front
  }

  /** The same tables, the same registry and the same mail. */
  ghost predicate Agree(s: Net, h: Hub) {
    && s.users == h.users && s.online == h.online && s.who == h.who && s.rooms == h.rooms
    && s.contacts == h.contacts && s.store == h.store
    && forall t :: MailOf(s.sent, t) == Inbox(h, t)
  }

  /** One thread going on by itself. */
  function GoOn(s: Net, sid: Sid, picks: seq<string>): Net
    decreases |picks|
  {
    if picks == [] then s else GoOn(I.Next(s, I.Go(sid, picks[0])), sid, picks[1..])
  }

  lemma {:induction false} GoOnOn(s: Net, sid: Sid, a: seq<string>, b: seq<string>)
    ensures GoOn(s, sid, a + b) == GoOn(GoOn(s, sid, a), sid, b)
    decreases |a|
  {
    if a == [] {
      assert a + b == b;
    } else {
      assert (a + b)[1..] == a[1..] + b;
      GoOnOn(I.Next(s, I.Go(sid, a[0])), sid, a[1..], b);
    }
  }

  /** The thread finishes, and the server is then as the hub says. */
  ghost predicate Finishes(s: Net, sid: Sid, picks: seq<string>, h: Hub) {
    var s' := GoOn(s, sid, picks);
    Agree(s', h) && sid in s'.pcs && s'.pcs[sid].Idle?
  }

  lemma OneStep(s: Net, sid: Sid, pick: string, rest: seq<string>, h: Hub)
    requires Finishes(I.Next(s, I.Go(sid, pick)), sid, rest, h)
    ensures Finishes(s, sid, [pick] + rest, h)
  {
    assert ([pick] + rest)[1..] == rest;
  }

  lemma MailMore(sent: seq<I.Sent>, x: I.Sent, t: Sid)
    ensures MailOf(sent + [x], t) == if x.sid == t then MailOf(sent, t) + [x.frame] else MailOf(sent, t)
  {
    assert (sent + [x])[..|sent|] == sent;
  }

  /** Sending one MSG, on both sides. */
  lemma SentBoth(s: Net, s': Net, h: Hub, t: Sid, name: string, f: I.Message)
    requires Agree(s, h)
    requires s' == s.(sent := s.sent + [I.Sent(t, name, f)], pcs := s'.pcs)
    ensures Agree(s', SendTo(h, t, f))
  {
    forall x ensures MailOf(s'.sent, x) == Inbox(SendTo(h, t, f), x) {
      MailMore(s.sent, I.Sent(t, name, f), x);
      SentOne(h, t, f, x);
      assert Inbox(h, x) + [] == Inbox(h, x);
    }
  }

  /** A frame that is no MSG, on the hub's side only. */
  lemma OtherFrame(s: Net, h: Hub, t: Sid, f: Frame)
    requires Agree(s, h) && !f.Msg?
    ensures Agree(s, SendTo(h, t, f))
  {
    NoMailSend(h, t, f);
  }

  /** The thread stands there, and the server is as the hub says. */
  ghost predicate Stands(s: Net, sid: Sid, pc: I.Pc, h: Hub) {
    Agree(s, h) && sid in s.pcs && s.pcs[sid] == pc
  }

  function Step(s: Net, sid: Sid): Net {
    I.Next(s, I.Go(sid, ""))
  }

  // ------------------------------------------------------------- a room message

  lemma HandedBoth(s: Net, h: Hub, sid: Sid, name: string, m: I.Message, shares: Option<map<string, Share>>, left: set<string>)
    requires Agree(s, h) && sid in s.pcs
    requires s.pcs[sid] == I.RoomGot(m, shares, name, I.Lookup(s, name), left)
    ensures var s' := I.Next(s, I.Go(sid, ""));
      Agree(s', Handed(h, name, m, shares)) && sid in s'.pcs && s'.pcs[sid] == I.RoomNext(m, shares, left)
  {
    var copy := AddressedTo(m, shares, name);
    var s' := I.Next(s, I.Go(sid, ""));
    if copy.Some? && name in h.online {
      SentBoth(s, s', h, h.online[name], name, copy.value);
    }
  }

  /** The loop takes up a name that is left. */
  lemma TakesUp(s: Net, h: Hub, sid: Sid, m: I.Message, shares: Option<map<string, Share>>, left: set<string>, name: string)
    requires Agree(s, h) && sid in s.pcs && s.pcs[sid] == I.RoomNext(m, shares, left) && name in left
    ensures var s' := I.Next(s, I.Go(sid, name));
      Agree(s', h) && sid in s'.pcs && s'.pcs[sid] == I.RoomGot(m, shares, name, I.Lookup(s', name), left - {name})
  {}

  /** Nobody is left. */
  lemma LoopEnds(s: Net, h: Hub, sid: Sid, m: I.Message, shares: Option<map<string, Share>>)
    requires Agree(s, h) && sid in s.pcs && s.pcs[sid] == I.RoomNext(m, shares, {})
    ensures Finishes(s, sid, [""], h)
  {
    assert GoOn(s, sid, [""]) == I.Next(s, I.Go(sid, ""));
  }

  /** One turn of the loop. */
  lemma FanOutTurn(s: Net, h0: Hub, sid: Sid, m: I.Message, shares: Option<map<string, Share>>, names: set<string>, left: set<string>, name: string)
    requires Replica.Registry(h0) && left <= names && name in left
    requires Stands(s, sid, I.RoomNext(m, shares, left), FanOut(h0, names - left, m, shares))
    ensures Stands(Step(I.Next(s, I.Go(sid, name)), sid), sid, I.RoomNext(m, shares, left - {name}),
                   FanOut(h0, names - (left - {name}), m, shares))
  {
    var h := FanOut(h0, names - left, m, shares);
    TakesUp(s, h, sid, m, shares, left, name);
    HandedBoth(I.Next(s, I.Go(sid, name)), h, sid, name, m, shares, left - {name});
    FanOutMore(h0, names - left, name, m, shares);
    assert (names - left) + {name} == names - (left - {name});
  }

  lemma {:induction false} FanOutAlone(s: Net, h0: Hub, sid: Sid, m: I.Message, shares: Option<map<string, Share>>, names: set<string>, left: set<string>) returns (picks: seq<string>)
    requires Replica.Registry(h0) && left <= names
    requires Stands(s, sid, I.RoomNext(m, shares, left), FanOut(h0, names - left, m, shares))
    ensures Finishes(s, sid, picks, FanOut(h0, names, m, shares))
    decreases |left|
  {
    if left == {} {
      picks := [""];
      assert names - left == names;
      LoopEnds(s, FanOut(h0, names, m, shares), sid, m, shares);
    } else {
      var name :| name in left;
      FanOutTurn(s, h0, sid, m, shares, names, left, name);
      var s1 := I.Next(s, I.Go(sid, name));
      var rest := FanOutAlone(Step(s1, sid), h0, sid, m, shares, names, left - {name});
      OneStep(s1, sid, "", rest, FanOut(h0, names, m, shares));
      OneStep(s, sid, name, [""] + rest, FanOut(h0, names, m, shares));
      picks := [name] + ([""] + rest);
    }
  }

  lemma ThreeSteps(s: Net, sid: Sid)
    ensures GoOn(s, sid, [""]) == Step(s, sid)
    ensures GoOn(s, sid, ["", ""]) == Step(Step(s, sid), sid)
    ensures GoOn(s, sid, ["", "", ""]) == Step(Step(Step(s, sid), sid), sid)
  {
    GoOnOn(s, sid, [""], [""]);
    GoOnOn(s, sid, ["", ""], [""]);
    assert [""] + [""] == ["", ""] && ["", ""] + [""] == ["", "", ""];
    OneGo(s, sid);
    OneGo(Step(s, sid), sid);
    OneGo(Step(Step(s, sid), sid), sid);
  }

  lemma OneGo(s: Net, sid: Sid)
    ensures GoOn(s, sid, [""]) == Step(s, sid)
  {
    assert [""][1..] == [];
  }

  lemma RoomFound(s: Net, h: Hub, sid: Sid, m: I.Message, shares: Option<map<string, Share>>)
    requires Stands(s, sid, I.RoomExists(m, shares), h) && m.to in h.rooms
    ensures Stands(Step(s, sid), sid, I.RoomMembers(m, shares), h)
  {}

  lemma RoomRead(s: Net, h: Hub, sid: Sid, m: I.Message, shares: Option<map<string, Share>>)
    requires Stands(s, sid, I.RoomMembers(m, shares), h) && m.sender in Members(h, m.to)
    ensures Stands(Step(s, sid), sid, I.RoomRecord(m, shares, Members(h, m.to) - {m.sender}), h)
  {}

  lemma RoomStored(s: Net, h: Hub, sid: Sid, m: I.Message, shares: Option<map<string, Share>>, left: set<string>)
    requires Stands(s, sid, I.RoomRecord(m, shares, left), h)
    ensures Stands(Step(s, sid), sid, I.RoomNext(m, shares, left), h.(store := Record(h.store, RowOf(m, shares))))
  {
    assert forall t :: Inbox(h.(store := Record(h.store, RowOf(m, shares))), t) == Inbox(h, t);
  }

  /** The message is stored and the loop begins. */
  lemma RoomBegins(s: Net, h: Hub, sid: Sid, m: I.Message, shares: Option<map<string, Share>>)
    requires Stands(s, sid, I.RoomExists(m, shares), h) && m.sender in Members(h, m.to)
    ensures Stands(GoOn(s, sid, ["", "", ""]), sid, I.RoomNext(m, shares, Members(h, m.to) - {m.sender}),
                   h.(store := Record(h.store, RowOf(m, shares))))
  {
    RoomFound(s, h, sid, m, shares);
    RoomRead(Step(s, sid), h, sid, m, shares);
    RoomStored(Step(Step(s, sid), sid), h, sid, m, shares, Members(h, m.to) - {m.sender});
    ThreeSteps(s, sid);
  }

  lemma RoomAlone(s: Net, h: Hub, sid: Sid, m: I.Message, shares: Option<map<string, Share>>) returns (picks: seq<string>)
    requires Replica.Registry(h) && Agree(s, h) && sid in s.pcs && s.pcs[sid] == I.RoomExists(m, shares)
    requires m.sender in Members(h, m.to)
    ensures Finishes(s, sid, picks, ToRoom(h, m, shares))
  {
    RoomBegins(s, h, sid, m, shares);
    var s3, h1 := GoOn(s, sid, ["", "", ""]), h.(store := Record(h.store, RowOf(m, shares)));
    var names := Members(h, m.to) - {m.sender};
    FanOutNone(h1, m, shares);
    assert names - names == {};
    var rest := FanOutAlone(s3, h1, sid, m, shares, names, names);
    GoOnOn(s, sid, ["", "", ""], rest);
    picks := ["", "", ""] + rest;
  }

  // ----------------------------------------------------------- a direct message

  lemma NotedBoth(s: Net, s': Net, h: Hub, owner: string, other: string)
    requires Agree(s, h) && s' == s.(contacts := I.AddContactTo(s.contacts, owner, other), pcs := s'.pcs)
    ensures Agree(s', NoteContact(h, owner, other))
  {
    NoMailNote(h, owner, other);
  }

  lemma UserFound(s: Net, h: Hub, sid: Sid, m: I.Message)
    requires Stands(s, sid, I.UserLookup(m), h)
    ensures Stands(Step(s, sid), sid, if m.to in h.online then I.UserRecord(m, I.Lookup(s, m.to)) else I.UserExists(m), h)
  {}

  lemma UserKnown(s: Net, h: Hub, sid: Sid, m: I.Message)
    requires Stands(s, sid, I.UserExists(m), h) && m.to in h.users
    ensures Stands(Step(s, sid), sid, I.UserRecord(m, None), h)
  {}

  lemma UserStored(s: Net, h: Hub, sid: Sid, m: I.Message, found: Option<Sid>)
    requires Stands(s, sid, I.UserRecord(m, found), h)
    ensures Stands(Step(s, sid), sid, I.UserNote(m, found), h.(store := Record(h.store, RowOf(m, None))))
  {
    assert forall t :: Inbox(h.(store := Record(h.store, RowOf(m, None))), t) == Inbox(h, t);
  }

  lemma UserNoted(s: Net, h: Hub, sid: Sid, m: I.Message, found: Option<Sid>)
    requires Stands(s, sid, I.UserNote(m, found), h)
    ensures Stands(Step(s, sid), sid, I.UserNoteBack(m, found), NoteContact(h, m.sender, m.to))
  {
    NotedBoth(s, Step(s, sid), h, m.sender, m.to);
  }

  lemma UserNotedBack(s: Net, h: Hub, sid: Sid, m: I.Message, found: Option<Sid>)
    requires Stands(s, sid, I.UserNoteBack(m, found), h)
    ensures Stands(Step(s, sid), sid, I.UserDeliver(m, found), NoteContact(h, m.to, m.sender))
  {
    NotedBoth(s, Step(s, sid), h, m.to, m.sender);
  }

  lemma UserDelivered(s: Net, h: Hub, sid: Sid, m: I.Message)
    requires Stands(s, sid, I.UserDeliver(m, I.Lookup(s, m.to)), h)
    ensures Stands(Step(s, sid), sid, I.Idle, Deliver(h, m.to, m))
  {
    if m.to in h.online { SentBoth(s, Step(s, sid), h, h.online[m.to], m.to, m); }
  }

  /** Up to the row: found or not, the message is stored. */
  lemma UserBegins(s: Net, h: Hub, sid: Sid, m: I.Message) returns (picks: seq<string>)
    requires Stands(s, sid, I.UserLookup(m), h) && (m.to in h.online || m.to in h.users)
    ensures var s', h' := GoOn(s, sid, picks), h.(store := Record(h.store, RowOf(m, None)));
      Stands(s', sid, I.UserNote(m, I.Lookup(s', m.to)), h')
  {
    var s1 := Step(s, sid);
    UserFound(s, h, sid, m);
    ThreeSteps(s, sid);
    if m.to in h.online {
      UserStored(s1, h, sid, m, I.Lookup(s, m.to));
      picks := ["", ""];
    } else {
      UserKnown(s1, h, sid, m);
      UserStored(Step(s1, sid), h, sid, m, None);
      picks := ["", "", ""];
    }
  }

  lemma UserEnds(s: Net, h: Hub, sid: Sid, m: I.Message)
    requires Stands(s, sid, I.UserNote(m, I.Lookup(s, m.to)), h)
    ensures Finishes(s, sid, ["", "", ""], Deliver(NoteContact(NoteContact(h, m.sender, m.to), m.to, m.sender), m.to, m))
  {
    var s1 := Step(s, sid);
    var s2 := Step(s1, sid);
    var h1 := NoteContact(h, m.sender, m.to);
    UserNoted(s, h, sid, m, I.Lookup(s, m.to));
    UserNotedBack(s1, h1, sid, m, I.Lookup(s, m.to));
    SameNotes(h, h1, NoteContact(h1, m.to, m.sender), m);
    UserDelivered(s2, NoteContact(h1, m.to, m.sender), sid, m);
    ThreeSteps(s, sid);
  }

  lemma SameNotes(h: Hub, h1: Hub, h2: Hub, m: I.Message)
    requires h1 == NoteContact(h, m.sender, m.to) && h2 == NoteContact(h1, m.to, m.sender)
    ensures h2.online == h.online
  {}

  lemma UserAlone(s: Net, h: Hub, sid: Sid, m: I.Message) returns (picks: seq<string>)
    requires Stands(s, sid, I.UserLookup(m), h) && (m.to in h.online || m.to in h.users)
    ensures Finishes(s, sid, picks, ToUser(h, m))
  {
    var begun := UserBegins(s, h, sid, m);
    UserEnds(GoOn(s, sid, begun), h.(store := Record(h.store, RowOf(m, None))), sid, m);
    GoOnOn(s, sid, begun, ["", "", ""]);
    picks := begun + ["", "", ""];
  }

  /** An accepted message: read from the socket and handled without interruption, the
      thread leaves the tables and the mail as the handler does. */
  lemma SendIsAtomic(s: Net, h: Hub, sid: Sid, r: Request)
    requires Replica.Registry(h) && Stands(s, sid, I.Idle, h) && I.Enabled(s, I.Hear(sid, r))
    requires r.Send? && sid in h.who && Refusal(h, h.who[sid], r.to).None?
    ensures exists picks :: Finishes(I.Next(s, I.Hear(sid, r)), sid, picks, Handle(h, sid, r))
  {
    var me := h.who[sid];
    var s1, m := I.Next(s, I.Hear(sid, r)), Accepted(me, r);
    HeardSend(s, h, sid, r);
    var picks;
    if IsRoom(r.to) {
      picks := RoomAlone(s1, h, sid, m, r.shares);
      AckedToo(s1, sid, picks, ToRoom(h, m, r.shares), r.id);
    } else {
      picks := UserAlone(s1, h, sid, m);
      AckedToo(s1, sid, picks, ToUser(h, m), r.id);
    }
    assert Finishes(s1, sid, picks, Handle(h, sid, r));
  }

  lemma HeardSend(s: Net, h: Hub, sid: Sid, r: Request)
    requires Stands(s, sid, I.Idle, h) && I.Enabled(s, I.Hear(sid, r)) && r.Send? && sid in h.who && r.to != ""
    ensures var m := Accepted(h.who[sid], r);
      Stands(I.Next(s, I.Hear(sid, r)), sid, if IsRoom(r.to) then I.RoomExists(m, r.shares) else I.UserLookup(m), h)
  {}

  lemma AckedToo(s: Net, sid: Sid, picks: seq<string>, h: Hub, id: string)
    requires Finishes(s, sid, picks, h)
    ensures Finishes(s, sid, picks, SendTo(h, sid, Ack(id)))
  {
    OtherFrame(GoOn(s, sid, picks), h, sid, Ack(id));
  }

  // ------------------------------------------------------------------- a login

  /** A login flush on both sides, from the i-th row on. */
  lemma {:induction false} HandsAlone(s: Net, h: Hub, sid: Sid, u: string, rows: seq<Row>, i: nat) returns (picks: seq<string>)
    requires i <= |rows|
    requires Stands(s, sid, I.LoginHand(u, rows[i..]), Flushing(h, sid, u, FlushFrames(rows[..i], u)))
    ensures Finishes(s, sid, picks, Flushing(h, sid, u, FlushFrames(rows, u)))
    decreases |rows| - i
  {
    if i == |rows| {
      assert rows[..i] == rows && rows[i..] == [];
      HandsEnd(s, sid, u, Flushing(h, sid, u, FlushFrames(rows, u)));
      picks := [""];
    } else {
      assert rows[i..][0] == rows[i] && rows[i..][1..] == rows[i + 1..];
      FlushingRow(h, sid, u, rows, i);
      HandsOne(s, Flushing(h, sid, u, FlushFrames(rows[..i], u)), sid, u, rows[i..]);
      var rest := HandsAlone(Step(s, sid), h, sid, u, rows, i + 1);
      OneStep(s, sid, "", rest, Flushing(h, sid, u, FlushFrames(rows, u)));
      picks := [""] + rest;
    }
  }

  lemma HandsEnd(s: Net, sid: Sid, u: string, h: Hub)
    requires Stands(s, sid, I.LoginHand(u, []), h)
    ensures Finishes(s, sid, [""], h)
  {
    OneGo(s, sid);
  }

  lemma HandsOne(s: Net, h: Hub, sid: Sid, u: string, rows: seq<Row>)
    requires rows != [] && Stands(s, sid, I.LoginHand(u, rows), h)
    ensures var f := FlushFrame(rows[0], u);
      Stands(Step(s, sid), sid, I.LoginHand(u, rows[1..]), if f.None? then h else SendTo(h, sid, f.value))
  {
    var f := FlushFrame(rows[0], u);
    if f.Some? { SentBoth(s, Step(s, sid), h, sid, u, f.value); }
  }

  lemma Claimed(s: Net, h: Hub, sid: Sid, u: string)
    requires Stands(s, sid, I.LoginClaim(u), h) && u !in h.online
    ensures Stands(Step(Step(s, sid), sid), sid, I.LoginFlush(u), Claim(h, sid, u))
  {
    assert Step(s, sid) == I.At(s.(online := s.online[u := sid]), sid, I.LoginName(u));
    assert forall t :: Inbox(Claim(h, sid, u), t) == Inbox(h, t);
  }

  /** LOGIN_OK and the announcement carry no mail. */
  lemma Welcomed(s: Net, h: Hub, sid: Sid, u: string, pc: I.Pc)
    requires Stands(s, sid, pc, h)
    ensures Stands(s, sid, pc, Announce(Greet(h, sid, u), u, true))
  {
    var h1 := Greet(h, sid, u);
    NoMailSend(h, sid, Greeting(h, u));
    NoMailAll(h1, Sessions(h1, h1.online.Keys - {u}), Presence(u, true));
  }

  lemma FlushBegins(s: Net, h: Hub, sid: Sid, u: string)
    requires Stands(s, sid, I.LoginFlush(u), h)
    ensures Stands(Step(s, sid), sid, I.LoginHand(u, Flushed(h.store, u)), Flushing(h, sid, u, []))
  {
    var h1 := Flushing(h, sid, u, []);
    assert forall t :: Box(h1, t) == Box(h, t) by { assert Box(h, sid) + [] == Box(h, sid); }
    assert forall t :: Inbox(h1, t) == Inbox(h, t);
  }

  lemma FlushAlone(s: Net, h: Hub, sid: Sid, u: string) returns (picks: seq<string>)
    requires Stands(s, sid, I.LoginFlush(u), h)
    ensures Finishes(s, sid, picks, FlushPending(h, sid, u))
  {
    var rows := Flushed(h.store, u);
    FlushBegins(s, h, sid, u);
    assert rows[0..] == rows && rows[..0] == [];
    var rest := HandsAlone(Step(s, sid), h, sid, u, rows, 0);
    FlushedIs(h, sid, u);
    OneStep(s, sid, "", rest, FlushPending(h, sid, u));
    picks := [""] + rest;
  }

  lemma FlushedIs(h: Hub, sid: Sid, u: string)
    ensures FlushPending(h, sid, u) == Flushing(h, sid, u, FlushFrames(Flushed(h.store, u), u))
  {}

  /** A login that is accepted: claim, name and flush, without interruption, are the
      handler's login. */
  lemma LoginIsAtomic(s: Net, h: Hub, sid: Sid, user: string, pass: string)
    requires Stands(s, sid, I.Idle, h)
    requires sid !in h.who && user != "" && pass != "" && Verify(h, user, pass) && user !in h.online
    ensures exists picks :: Finishes(I.Next(s, I.Hear(sid, Login(user, pass))), sid, picks, Handle(h, sid, Login(user, pass)))
  {
    var s1 := I.Next(s, I.Hear(sid, Login(user, pass)));
    HeardLogin(s, h, sid, user, pass);
    Claimed(s1, h, sid, user);
    ThreeSteps(s1, sid);
    var s3, h1 := GoOn(s1, sid, ["", ""]), Claim(h, sid, user);
    Welcomed(s3, h1, sid, user, I.LoginFlush(user));
    var rest := FlushAlone(s3, Announce(Greet(h1, sid, user), user, true), sid, user);
    GoOnOn(s1, sid, ["", ""], rest);
    LoginIs(h, sid, user, pass);
    assert Finishes(s1, sid, ["", ""] + rest, Handle(h, sid, Login(user, pass)));
  }

  lemma LoginIs(h: Hub, sid: Sid, user: string, pass: string)
    requires sid !in h.who && user != "" && pass != "" && Verify(h, user, pass) && user !in h.online
    ensures Handle(h, sid, Login(user, pass))
         == FlushPending(Announce(Greet(Claim(h, sid, user), sid, user), user, true), sid, user)
  {}

  lemma HeardLogin(s: Net, h: Hub, sid: Sid, user: string, pass: string)
    requires Stands(s, sid, I.Idle, h) && sid !in h.who && user != "" && pass != "" && Verify(h, user, pass)
    ensures Stands(I.Next(s, I.Hear(sid, Login(user, pass))), sid, I.LoginClaim(user), h)
  {}

  // --------------------------------------------------------------- a disconnect

  lemma Dropped(s: Net, h: Hub, sid: Sid, u: string)
    requires Stands(s, sid, I.DropLogout(u), h)
    ensures Stands(Step(Step(s, sid), sid), sid, I.Closed, Forgo(h, sid, u))
  {
    var s1 := Step(s, sid);
    assert s1 == I.At(s.(online := s.online - {u}), sid, I.DropName(u));
    assert Step(s1, sid) == I.At(s1.(who := s1.who - {sid}), sid, I.Closed);
    ForgoAgrees(s, Step(s1, sid), h, sid, u);
  }

  lemma ForgoAgrees(s: Net, s': Net, h: Hub, sid: Sid, u: string)
    requires Agree(s, h) && s'.online == s.online - {u} && s'.who == s.who - {sid}
    requires s'.users == s.users && s'.rooms == s.rooms && s'.contacts == s.contacts && s'.store == s.store && s'.sent == s.sent
    ensures Agree(s', Forgo(h, sid, u))
  {
    assert forall t :: Inbox(Forgo(h, sid, u), t) == Inbox(h, t);
  }

  /** The connection closed: releasing the name and clearing the session, without
      interruption, are the handler's disconnect. */
  lemma DropIsAtomic(s: Net, h: Hub, sid: Sid)
    requires Stands(s, sid, I.Idle, h) && sid in h.who
    ensures Stands(GoOn(I.Next(s, I.Hang(sid)), sid, ["", ""]), sid, I.Closed, Disconnect(h, sid))
  {
    var s1, u := I.Next(s, I.Hang(sid)), h.who[sid];
    assert Stands(s1, sid, I.DropLogout(u), h);
    Dropped(s1, h, sid, u);
    ThreeSteps(s1, sid);
    var h1 := Forgo(h, sid, u);
    NoMailAll(h1, Sessions(h1, h1.online.Keys - {u}), Presence(u, false));
  }
}
