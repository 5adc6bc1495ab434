/** What a request is answered after any run, told from the steps alone. */
module Answers {
  import opened Text
  import opened Crypto
  import opened Messages
  import opened Hub
  import opened Chronicle
  import Rooms
  import Replica
  import Mail

  /** One frame back, and nothing else changes. */
  ghost predicate OnlyTold(h: Hub, h': Hub, sid: Sid, f: Frame) {
    h' == SendTo(h, sid, f)
  }

  lemma NameIsTold(h0: Hub, steps: seq<Step>, sid: Sid)
    requires Replica.NobodyConnected(h0)
    ensures At(Run(h0, steps).who, sid) == NameOf(h0, steps, sid)
  {
    TablesAreAsTold(h0, steps);
    assert At(BookOf(Run(h0, steps)).who, sid) == NameOf(h0, steps, sid);
  }

  lemma AccountIsTold(h0: Hub, steps: seq<Step>, u: string)
    requires Replica.NobodyConnected(h0)
    ensures At(Run(h0, steps).users, u) == AccountOf(h0, steps, u)
    ensures u in Run(h0, steps).online <==> Here(h0, steps, u)
  {
    TablesAreAsTold(h0, steps);
    assert At(BookOf(Run(h0, steps)).users, u) == AccountOf(h0, steps, u);
    HereIsOnline(h0, steps, BookOf(Run(h0, steps)), u);
  }

  lemma MemberIsTold(h0: Hub, steps: seq<Step>, u: string, room: string)
    requires Replica.NobodyConnected(h0)
    ensures u in Members(Run(h0, steps), room) <==> In(h0, steps, u, room)
    ensures room in Run(h0, steps).rooms <==> RoomMade(h0, steps, room)
  {
    TablesAreAsTold(h0, steps);
    var b := BookOf(Run(h0, steps));
    assert u in Rooms.MembersOf(b.rooms, room) <==> In(h0, steps, u, room);
    assert room in b.rooms <==> RoomMade(h0, steps, room);
  }

  /** A session without a name can ask for nothing but to be let in. */
  lemma StrangersAreTurnedAway(h0: Hub, steps: seq<Step>, sid: Sid, r: Request)
    requires Replica.NobodyConnected(h0) && NameOf(h0, steps, sid).None? && !r.Ping? && !r.Register? && !r.Login?
    ensures OnlyTold(Run(h0, steps), Next(Run(h0, steps), Act(sid, r)), sid, Error(NOT_LOGGED_IN))
  {
    NameIsTold(h0, steps, sid);
  }

  // ------------------------------------------------------------------ accounts

  function RegisterError(u: string, pass: string): Code {
    if u == "" || pass == "" then BAD_REGISTER else if IsRoom(u) then BAD_USERNAME else USER_EXISTS
  }

  /** REGISTER is answered OK if and only if the name is a proper one with a password and
      nobody registered it before; then the account is as asked for. */
  lemma RegisterIsAnswered(h0: Hub, steps: seq<Step>, sid: Sid, u: string, pass: string, pubkey: Option<PublicKey>)
    requires Replica.NobodyConnected(h0)
    ensures var r, now := Register(u, pass, pubkey), Run(h0, steps);
      var then_ := Next(now, Act(sid, r));
      if Registers(r, u) && AccountOf(h0, steps, u).None?
      then OnlyTold(now.(users := now.users[u := Account(pass, pubkey)]), then_, sid, Okay(u))
      else OnlyTold(now, then_, sid, Error(RegisterError(u, pass)))
  {
    AccountIsTold(h0, steps, u);
  }

  /** A request for a key is answered with the key the name first registered with, if
      there is one, and with NO_KEY or NO_RECIPIENT otherwise. */
  lemma KeyIsAnswered(h0: Hub, steps: seq<Step>, sid: Sid, u: string)
    requires Replica.NobodyConnected(h0) && NameOf(h0, steps, sid).Some?
    ensures var now, account := Run(h0, steps), AccountOf(h0, steps, u);
      OnlyTold(now, Next(now, Act(sid, GetKey(u))), sid,
        if u == "" then Error(NO_RECIPIENT)
        else if account.Some? && account.value.pubkey.Some? then KeyIs(u, account.value.pubkey.value)
        else Error(NO_KEY))
  {
    NameIsTold(h0, steps, sid);
    AccountIsTold(h0, steps, u);
  }

  // ------------------------------------------------------------------ logging in

  ghost function LoginError(h0: Hub, steps: seq<Step>, sid: Sid, u: string, pass: string): Code {
    if NameOf(h0, steps, sid).Some? then ALREADY_LOGGED_IN
    else if u == "" || pass == "" then BAD_LOGIN
    else if !HasPassword(h0, steps, u, pass) then BAD_CREDENTIALS
    else ALREADY_ONLINE
  }

  /** What a greeting tells: everybody else who is logged in, the contacts with whether
      they are, and the rooms. */
  ghost predicate Greets(h0: Hub, steps: seq<Step>, u: string, f: Frame) {
    && f.LoginOk? && f.user == u
    && (forall v :: v in f.roster <==> v != u && Here(h0, steps, v))
    && (forall v :: v in f.contacts <==> IsContact(h0, steps, u, v))
    && (forall v | v in f.contacts :: f.contacts[v] <==> Here(h0, steps, v))
    && (forall room :: room in f.rooms <==> In(h0, steps, u, room))
  }

  /** A session is let in under a name if and only if it has none, nobody is logged in
      under that one, and it gives the password the name registered with; otherwise it is
      told why not and nothing changes. Once in, the first thing it is told is the
      greeting. */
  lemma LoginIsAnswered(h0: Hub, steps: seq<Step>, sid: Sid, u: string, pass: string)
    requires Replica.NobodyConnected(h0)
    ensures var now, s := Run(h0, steps), Act(sid, Login(u, pass));
      var then_ := Next(now, s);
      if LogsIn(h0, steps, s)
      then |Box(then_, sid)| > |Box(now, sid)| && Greets(h0, steps + [s], u, Box(then_, sid)[|Box(now, sid)|])
      else OnlyTold(now, then_, sid, Error(LoginError(h0, steps, sid, u, pass)))
    ensures var now, s := Run(h0, steps), Act(sid, Login(u, pass));
      sid !in now.who && sid in Next(now, s).who <==> LogsIn(h0, steps, s)
  {
    var now, s := Run(h0, steps), Act(sid, Login(u, pass));
    NameIsTold(h0, steps, sid);
    AccountIsTold(h0, steps, u);
    NextIsTold(h0, steps, s);
    if LogsIn(h0, steps, s) {
      GreetedFirst(now, sid, u, pass);
      GreetingIsTold(h0, steps, s, u);
    }
  }

  lemma NextIsTold(h0: Hub, steps: seq<Step>, s: Step)
    ensures Run(h0, steps + [s]) == Next(Run(h0, steps), s)
  {
    assert (steps + [s])[..|steps|] == steps;
  }

  lemma GreetedFirst(h: Hub, sid: Sid, u: string, pass: string)
    requires sid !in h.who && u != "" && pass != "" && Verify(h, u, pass) && u !in h.online
    ensures var h' := DoLogin(h, sid, u, pass);
      |Box(h', sid)| > |Box(h, sid)| && Box(h', sid)[|Box(h, sid)|] == Greeting(Claim(h, sid, u), u)
      && h'.who == h.who[sid := u] && BookOf(h') == BookOf(Claim(h, sid, u))
  {
    var h1 := Claim(h, sid, u);
    var h2 := Greet(h1, sid, u);
    assert Box(h2, sid) == Box(h, sid) + [Greeting(h1, u)];
    AnnouncedBox(h2, u, sid);
    LoginBook(h, sid, u, pass);
  }

  lemma AnnouncedBox(h: Hub, u: string, sid: Sid)
    ensures Box(h, sid) <= Box(Announce(h, u, true), sid)
    ensures Box(Announce(h, u, true), sid) <= Box(FlushPending(Announce(h, u, true), sid, u), sid)
  {}

  lemma GreetingIsTold(h0: Hub, steps: seq<Step>, s: Step, u: string)
    requires Replica.NobodyConnected(h0) && LogsIn(h0, steps, s) && s.request.user == u
    ensures Greets(h0, steps + [s], u, Greeting(Claim(Run(h0, steps), s.sid, u), u))
  {
    var h, all := Claim(Run(h0, steps), s.sid, u), steps + [s];
    NameIsTold(h0, steps, s.sid);
    AccountIsTold(h0, steps, u);
    NextIsTold(h0, steps, s);
    GreetedFirst(Run(h0, steps), s.sid, u, s.request.pass);
    TablesAreAsTold(h0, all);
    assert BookOf(Run(h0, all)) == BookOf(h);
    GreetingLists(h0, all, h, u);
  }

  lemma GreetingLists(h0: Hub, all: seq<Step>, h: Hub, u: string)
    requires var b := BookOf(h); PeopleAreTold(h0, all, b) && RoomsAreTold(h0, all, b) && ContactsAreTold(h0, all, b)
    ensures Greets(h0, all, u, Greeting(h, u))
  {
    var b, f := BookOf(h), Greeting(h, u);
    forall v ensures Here(h0, all, v) <==> v in b.online { HereIsOnline(h0, all, b, v); }
    forall v ensures v in f.contacts <==> IsContact(h0, all, u, v) {
      assert (u, v) in b.contacts <==> IsContact(h0, all, u, v);
      assert v in f.contacts <==> (u, v) in b.contacts;
    }
    forall room ensures room in f.rooms <==> In(h0, all, u, room) {
      assert u in Rooms.MembersOf(b.rooms, room) <==> In(h0, all, u, room);
    }
  }

  // --------------------------------------------------------------------- rooms

  /** Why a request about a room is refused, if it is. */
  ghost function RoomError(h0: Hub, steps: seq<Step>, me: string, r: Request): Option<Code>
    requires Replica.AboutRoom(r)
  {
    if !ProperRoom(r.room) then Some(BAD_ROOM)
    else if r.CreateRoom? then (if RoomMade(h0, steps, r.room) then Some(ROOM_EXISTS) else None)
    else if r.Leave? then (if In(h0, steps, me, r.room) then None else Some(NOT_A_MEMBER))
    else if !RoomMade(h0, steps, r.room) then Some(NO_SUCH_ROOM)
    else if r.Invite? && !In(h0, steps, me, r.room) then Some(NOT_A_MEMBER)
    else None
  }

  /** The frames one session is sent by one step. */
  ghost predicate SentNow(h: Hub, h': Hub, sid: Sid, frames: seq<Frame>) {
    Box(h', sid) == Box(h, sid) + frames
  }

  ghost predicate IsState(h0: Hub, steps: seq<Step>, room: string, f: Frame) {
    f.RoomState? && f.room == room && forall u :: u in f.members <==> In(h0, steps, u, room)
  }

  lemma RoomIsRefused(h0: Hub, steps: seq<Step>, sid: Sid, r: Request)
    requires Replica.NobodyConnected(h0) && Replica.AboutRoom(r) && NameOf(h0, steps, sid).Some?
    requires RoomError(h0, steps, NameOf(h0, steps, sid).value, r).Some?
    ensures OnlyTold(Run(h0, steps), Next(Run(h0, steps), Act(sid, r)), sid,
                     Error(RoomError(h0, steps, NameOf(h0, steps, sid).value, r).value))
  {
    var now, me := Run(h0, steps), NameOf(h0, steps, sid).value;
    NameIsTold(h0, steps, sid);
    MemberIsTold(h0, steps, me, r.room);
    ProperIsGood(r.room);
    Replica.ServeIs(now, sid, me, r);
    RefusedRoom(now, sid, me, r);
  }

  lemma RefusedRoom(h: Hub, sid: Sid, me: string, r: Request)
    requires Replica.AboutRoom(r)
    ensures !GoodRoomName(r.room) ==> Replica.RoomServe(h, sid, me, r) == SendTo(h, sid, Error(BAD_ROOM))
    ensures GoodRoomName(r.room) && r.CreateRoom? && r.room in h.rooms ==>
      Replica.RoomServe(h, sid, me, r) == SendTo(h, sid, Error(ROOM_EXISTS))
    ensures GoodRoomName(r.room) && !r.CreateRoom? && !r.Leave? && r.room !in h.rooms ==>
      Replica.RoomServe(h, sid, me, r) == SendTo(h, sid, Error(NO_SUCH_ROOM))
    ensures GoodRoomName(r.room) && (r.Leave? || (r.Invite? && r.room in h.rooms)) && me !in Members(h, r.room) ==>
      Replica.RoomServe(h, sid, me, r) == SendTo(h, sid, Error(NOT_A_MEMBER))
  {}

  /** Somebody named by an invitation who is not in the room even so. */
  ghost predicate SomeoneMissing(h0: Hub, all: seq<Step>, names: seq<string>, room: string) {
    exists name | name in names :: !In(h0, all, name, room)
  }

  ghost predicate SomeoneInvited(h0: Hub, steps: seq<Step>, names: seq<string>) {
    exists u :: Invited(h0, steps, names, u)
  }

  /** A session of somebody who is in the room after the steps. */
  ghost predicate MembersSession(h0: Hub, steps: seq<Step>, all: seq<Step>, t: Sid, room: string) {
    NameOf(h0, steps, t).Some? && In(h0, all, NameOf(h0, steps, t).value, room)
  }

  /** What an accepted request about a room makes the server send to one session: the new
      membership to every member, and to whoever leaves; an invitation first complains of
      names that did not get in, and tells nobody when it let nobody in. */
  ghost function Announced(h0: Hub, steps: seq<Step>, s: Step, t: Sid, state: Frame): seq<Frame>
    requires s.Act? && Replica.AboutRoom(s.request)
  {
    var r, all := s.request, steps + [s];
    (if r.Invite? && t == s.sid && SomeoneMissing(h0, all, r.members, r.room) then [Error(NO_SUCH_USER)] else [])
    + (if MembersSession(h0, steps, all, t, r.room) && (r.Invite? ==> SomeoneInvited(h0, steps, r.members)) then [state] else [])
    + (if r.Leave? && t == s.sid then [state] else [])
  }

  /** What one session is sent when a room's membership becomes `members`. */
  function Heard(h: Hub, t: Sid, room: string, members: set<string>): seq<Frame> {
    if t in h.who && h.who[t] in members then [RoomState(room, members)] else []
  }

  lemma SetAndTold(h: Hub, room: string, members: set<string>, t: Sid)
    requires Replica.Registry(h)
    ensures Box(Broadcast(SetMembers(h, room, members), room), t) == Box(h, t) + Heard(h, t, room, members)
  {
    var h1 := SetMembers(h, room, members);
    BoxOfAll(h1, Sessions(h1, members), RoomState(room, members), t);
    assert t in Sessions(h1, members) <==> t in h.who && h.who[t] in members;
    assert Box(h, t) + [] == Box(h, t);
  }

  /** What the handler sends to one session, the membership having become `members`. */
  function Spread(h: Hub, members: set<string>, sid: Sid, r: Request, t: Sid): seq<Frame>
    requires Replica.AboutRoom(r)
  {
    (if r.Invite? && t == sid && Missing(r.members, members) then [Error(NO_SUCH_USER)] else [])
    + (if r.Invite? && Admitted(h, r.members) == {} then [] else Heard(h, t, r.room, members))
    + (if r.Leave? && t == sid then [RoomState(r.room, members)] else [])
  }

  predicate Missing(names: seq<string>, members: set<string>) {
    exists name | name in names :: name !in members
  }

  /** The request gets past the checks. */
  predicate Passes(h: Hub, me: string, r: Request)
    requires Replica.AboutRoom(r)
  {
    GoodRoomName(r.room)
    && if r.CreateRoom? then r.room !in h.rooms else r.room in h.rooms && (r.Join? || me in h.rooms[r.room])
  }

  lemma EntryIsSpread(h: Hub, sid: Sid, me: string, r: Request, t: Sid)
    requires Replica.Registry(h) && (r.CreateRoom? || r.Join?) && Passes(h, me, r)
    ensures var h' := Replica.RoomServe(h, sid, me, r);
      Box(h', t) == Box(h, t) + Heard(h, t, r.room, Members(h', r.room))
  {
    if r.CreateRoom? { SetAndTold(h, r.room, {me} + Admitted(h, r.members), t); }
    else { SetAndTold(h, r.room, h.rooms[r.room] + {me}, t); }
  }

  lemma LeaveIsSpread(h: Hub, sid: Sid, me: string, r: Request, t: Sid)
    requires Replica.Registry(h) && r.Leave? && Passes(h, me, r)
    ensures var h' := DoLeave(h, sid, me, r.room);
      Box(h', t) == Box(h, t) + Heard(h, t, r.room, Members(h', r.room))
        + if t == sid then [RoomState(r.room, Members(h', r.room))] else []
  {
    SetAndTold(h, r.room, h.rooms[r.room] - {me}, t);
  }

  lemma ComplaintBox(h: Hub, sid: Sid, t: Sid, complain: bool)
    ensures var h1 := if complain then SendTo(h, sid, Error(NO_SUCH_USER)) else h;
      Box(h1, t) == Box(h, t) + if complain && t == sid then [Error(NO_SUCH_USER)] else []
  {}

  lemma InviteIsSpread(h: Hub, sid: Sid, me: string, r: Request, t: Sid)
    requires Replica.Registry(h) && r.Invite? && Passes(h, me, r)
    ensures var h' := DoInvite(h, sid, me, r.room, r.members);
      && Members(h', r.room) == h.rooms[r.room] + Admitted(h, r.members)
      && Box(h', t) == Box(h, t) + (if t == sid && Missing(r.members, Members(h', r.room)) then [Error(NO_SUCH_USER)] else [])
                       + (if Admitted(h, r.members) == {} then [] else Heard(h, t, r.room, Members(h', r.room)))
  {
    var members := h.rooms[r.room] + Admitted(h, r.members);
    var complain := Missing(r.members, members);
    var h1 := if complain then SendTo(h, sid, Error(NO_SUCH_USER)) else h;
    ComplaintBox(h, sid, t, complain);
    InviteIs(h, sid, me, r, h1);
    if Admitted(h, r.members) == {} {
      assert members == h.rooms[r.room];
      assert Box(h1, t) + [] == Box(h1, t);
    } else {
      SetAndTold(h1, r.room, members, t);
    }
  }

  lemma InviteIs(h: Hub, sid: Sid, me: string, r: Request, h1: Hub)
    requires r.Invite? && Passes(h, me, r)
    requires h1 == if Missing(r.members, h.rooms[r.room] + Admitted(h, r.members)) then SendTo(h, sid, Error(NO_SUCH_USER)) else h
    ensures DoInvite(h, sid, me, r.room, r.members)
         == if Admitted(h, r.members) == {} then h1
            else Broadcast(SetMembers(h1, r.room, h.rooms[r.room] + Admitted(h, r.members)), r.room)
  {}

  /** The pieces that a kind of request has none of. */
  lemma SpreadOf(h: Hub, box: seq<Frame>, members: set<string>, sid: Sid, r: Request, t: Sid)
    requires Replica.AboutRoom(r)
    ensures r.CreateRoom? || r.Join? ==> box + Spread(h, members, sid, r, t) == box + Heard(h, t, r.room, members)
    ensures r.Leave? ==>
      box + Spread(h, members, sid, r, t)
      == box + Heard(h, t, r.room, members) + if t == sid then [RoomState(r.room, members)] else []
    ensures r.Invite? ==>
      box + Spread(h, members, sid, r, t)
      == box + (if t == sid && Missing(r.members, members) then [Error(NO_SUCH_USER)] else [])
         + (if Admitted(h, r.members) == {} then [] else Heard(h, t, r.room, members))
  {}

  lemma RequestIsSpread(h: Hub, sid: Sid, me: string, r: Request, t: Sid, h': Hub)
    requires Replica.Registry(h) && Replica.AboutRoom(r) && Passes(h, me, r) && h' == Replica.RoomServe(h, sid, me, r)
    ensures Box(h', t) == Box(h, t) + Spread(h, Members(h', r.room), sid, r, t)
  {
    SpreadOf(h, Box(h, t), Members(h', r.room), sid, r, t);
    if r.Invite? { InviteIsSpread(h, sid, me, r, t); }
    else if r.Leave? { LeaveIsSpread(h, sid, me, r, t); }
    else { EntryIsSpread(h, sid, me, r, t); }
  }

  lemma SpreadIsAnnounced(h0: Hub, steps: seq<Step>, now: Hub, members: set<string>, s: Step, t: Sid)
    requires s.Act? && Replica.AboutRoom(s.request) && At(now.who, t) == NameOf(h0, steps, t)
    requires forall u :: u in members <==> In(h0, steps + [s], u, s.request.room)
    requires s.request.Invite? ==> (Admitted(now, s.request.members) == {} <==> !SomeoneInvited(h0, steps, s.request.members))
    ensures Spread(now, members, s.sid, s.request, t) == Announced(h0, steps, s, t, RoomState(s.request.room, members))
  {}

  lemma SomeoneIsAdmitted(h0: Hub, steps: seq<Step>, names: seq<string>)
    requires Replica.NobodyConnected(h0)
    ensures Admitted(Run(h0, steps), names) == {} <==> !SomeoneInvited(h0, steps, names)
  {
    var h := Run(h0, steps);
    TablesAreAsTold(h0, steps);
    GuestsAre(h, names);
    forall u ensures u in Admitted(h, names) <==> Invited(h0, steps, names, u) {
      GuestsAreInvited(h0, steps, BookOf(h), names, u);
    }
  }

  lemma PassesIsTold(h0: Hub, steps: seq<Step>, me: string, r: Request)
    requires Replica.NobodyConnected(h0) && Replica.AboutRoom(r)
    ensures Passes(Run(h0, steps), me, r) <==> RoomError(h0, steps, me, r).None?
  {
    MemberIsTold(h0, steps, me, r.room);
    ProperIsGood(r.room);
  }

  lemma RegistryIsTold(h0: Hub, steps: seq<Step>)
    requires Replica.NobodyConnected(h0)
    ensures Replica.Registry(Run(h0, steps))
  {
    TablesAreAsTold(h0, steps);
  }

  /** An accepted request about a room tells exactly those whom it concerns, and what they
      are told is who is in the room from now on. */
  lemma RoomIsAnnounced(h0: Hub, steps: seq<Step>, sid: Sid, r: Request, t: Sid)
    requires Replica.NobodyConnected(h0) && Replica.AboutRoom(r) && NameOf(h0, steps, sid).Some?
    requires RoomError(h0, steps, NameOf(h0, steps, sid).value, r).None?
    ensures var now, s := Run(h0, steps), Act(sid, r);
      var then_ := Next(now, s);
      var state := RoomState(r.room, Members(then_, r.room));
      IsState(h0, steps + [s], r.room, state) && SentNow(now, then_, t, Announced(h0, steps, s, t, state))
  {
    var now, s, me := Run(h0, steps), Act(sid, r), NameOf(h0, steps, sid).value;
    var members := Members(Next(now, s), r.room);
    NextIsTold(h0, steps, s);
    NameIsTold(h0, steps, sid);
    NameIsTold(h0, steps, t);
    PassesIsTold(h0, steps, me, r);
    RegistryIsTold(h0, steps);
    forall u ensures u in members <==> In(h0, steps + [s], u, r.room) { MemberIsTold(h0, steps + [s], u, r.room); }
    Replica.ServeIs(now, sid, me, r);
    RequestIsSpread(now, sid, me, r, t, Next(now, s));
    if r.Invite? { SomeoneIsAdmitted(h0, steps, r.members); }
    SpreadIsAnnounced(h0, steps, now, members, s, t);
  }

  // ------------------------------------------------------------------ contacts

  ghost function ContactError(h0: Hub, steps: seq<Step>, me: string, name: string): Option<Code> {
    if name == "" then Some(NO_RECIPIENT)
    else if name == me || IsRoom(name) then Some(BAD_CONTACT)
    else if AccountOf(h0, steps, name).None? then Some(NO_SUCH_USER)
    else None
  }

  /** The list of a person's contacts, with whether each is logged in. */
  ghost predicate Lists(h0: Hub, steps: seq<Step>, me: string, f: Frame) {
    && f.ContactList?
    && (forall v :: v in f.contacts <==> IsContact(h0, steps, me, v))
    && (forall v | v in f.contacts :: f.contacts[v] <==> Here(h0, steps, v))
  }

  /** Adding or removing a contact is refused, with nothing changed, or answered with the
      list as it is from now on. */
  lemma ContactIsAnswered(h0: Hub, steps: seq<Step>, sid: Sid, r: Request)
    requires Replica.NobodyConnected(h0) && (r.AddContact? || r.RemoveContact?) && NameOf(h0, steps, sid).Some?
    ensures var now, s, me := Run(h0, steps), Act(sid, r), NameOf(h0, steps, sid).value;
      var error := if r.AddContact? then ContactError(h0, steps, me, r.user) else None;
      if error.Some? then OnlyTold(now, Next(now, s), sid, Error(error.value))
      else |Box(Next(now, s), sid)| == |Box(now, sid)| + 1 && Box(now, sid) <= Box(Next(now, s), sid)
           && Lists(h0, steps + [s], me, Box(Next(now, s), sid)[|Box(now, sid)|])
  {
    var now, s, me := Run(h0, steps), Act(sid, r), NameOf(h0, steps, sid).value;
    NextIsTold(h0, steps, s);
    NameIsTold(h0, steps, sid);
    AccountIsTold(h0, steps, r.user);
    Replica.ServeIs(now, sid, me, r);
    if r.RemoveContact? || ContactError(h0, steps, me, r.user).None? {
      ListedLast(now, sid, me, r);
      ListIsTold(h0, steps + [s], me);
    }
  }

  lemma ListedLast(h: Hub, sid: Sid, me: string, r: Request)
    requires r.RemoveContact? || (r.AddContact? && r.user != "" && r.user != me && !IsRoom(r.user) && r.user in h.users)
    ensures var h' := if r.AddContact? then DoAddContact(h, sid, me, r.user) else DoRemoveContact(h, sid, me, r.user);
      Box(h', sid) == Box(h, sid) + [ContactList(ContactsOf(h', me))]
  {
    var h1 := h.(contacts := if r.AddContact? then h.contacts + {(me, r.user)} else h.contacts - {(me, r.user)});
    assert ContactsOf(SendContacts(h1, sid, me), me) == ContactsOf(h1, me);
  }

  lemma ListIsTold(h0: Hub, steps: seq<Step>, me: string)
    requires Replica.NobodyConnected(h0)
    ensures Lists(h0, steps, me, ContactList(ContactsOf(Run(h0, steps), me)))
  {
    var h := Run(h0, steps);
    var b := BookOf(h);
    TablesAreAsTold(h0, steps);
    forall v ensures Here(h0, steps, v) <==> v in h.online { HereIsOnline(h0, steps, b, v); }
    forall v ensures v in ContactsOf(h, me) <==> IsContact(h0, steps, me, v) {
      assert (me, v) in b.contacts <==> IsContact(h0, steps, me, v);
      assert v in ContactsOf(h, me) <==> (me, v) in h.contacts;
    }
  }

  // ------------------------------------------------------------ everything else

  /** Why a message is refused, if it is. */
  ghost function SendError(h0: Hub, steps: seq<Step>, me: string, to: string): Option<Code> {
    if to == "" then Some(NO_RECIPIENT)
    else if IsRoom(to) then
      (if !RoomMade(h0, steps, to) then Some(NO_SUCH_ROOM) else if !In(h0, steps, me, to) then Some(NOT_A_MEMBER) else None)
    else if !Reachable(h0, steps, to) then Some(USER_OFFLINE) else None
  }

  /** A message is refused, with nothing changed, or the last thing its sender is told is
      that it was accepted. */
  lemma SendIsAnswered(h0: Hub, steps: seq<Step>, sid: Sid, r: Request)
    requires Replica.NobodyConnected(h0) && r.Send? && NameOf(h0, steps, sid).Some?
    ensures var now, error := Run(h0, steps), SendError(h0, steps, NameOf(h0, steps, sid).value, r.to);
      var then_ := Next(now, Act(sid, r));
      if error.Some? then OnlyTold(now, then_, sid, Error(error.value))
      else |Box(then_, sid)| > 0 && Box(then_, sid)[|Box(then_, sid)| - 1] == Ack(r.id)
  {
    var now, me := Run(h0, steps), NameOf(h0, steps, sid).value;
    NameIsTold(h0, steps, sid);
    AccountIsTold(h0, steps, r.to);
    MemberIsTold(h0, steps, me, r.to);
    Replica.ServeIs(now, sid, me, r);
    RefusalIs(now, me, r.to);
    Mail.RefusedLeavesNoTrace(now, sid, me, r);
  }

  lemma RefusalIs(h: Hub, me: string, to: string)
    ensures Refusal(h, me, to)
         == if to == "" then Some(NO_RECIPIENT)
            else if IsRoom(to) then
              (if to !in h.rooms then Some(NO_SUCH_ROOM) else if me !in Members(h, to) then Some(NOT_A_MEMBER) else None)
            else if to !in h.online && to !in h.users then Some(USER_OFFLINE) else None
  {}

  /** A request for scrollback is refused, with nothing changed, or answered with rows of
      what was asked for, and nothing else. */
  lemma HistoryIsAnswered(h0: Hub, steps: seq<Step>, sid: Sid, target: string, before: int, limit: int)
    requires Replica.NobodyConnected(h0) && NameOf(h0, steps, sid).Some?
    ensures var now, me := Run(h0, steps), NameOf(h0, steps, sid).value;
      var then_, reply := Next(now, Act(sid, Request.History(target, before, limit))), HistoryReply(now, me, target, before, limit);
      && OnlyTold(now, then_, sid, reply)
      && if target == "" then reply == Error(NO_RECIPIENT)
         else if IsRoom(target) && !In(h0, steps, me, target) then reply == Error(NOT_A_MEMBER)
         else reply.HistoryResult? && reply.room == target
  {
    var now, me := Run(h0, steps), NameOf(h0, steps, sid).value;
    NameIsTold(h0, steps, sid);
    MemberIsTold(h0, steps, me, target);
    Replica.ServeIs(now, sid, me, Request.History(target, before, limit));
  }

  lemma OthersAreAnswered(h0: Hub, steps: seq<Step>, sid: Sid, r: Request)
    requires Replica.NobodyConnected(h0) && NameOf(h0, steps, sid).Some?
    requires r.Ping? || r.Unsupported? || (r.Receipt? && (r.ref == "" || r.state == SENT))
    ensures OnlyTold(Run(h0, steps), Next(Run(h0, steps), Act(sid, r)), sid,
                     if r.Ping? then Pong else if r.Unsupported? then Error(UNSUPPORTED) else Error(BAD_RECEIPT))
  {
    NameIsTold(h0, steps, sid);
  }
}
