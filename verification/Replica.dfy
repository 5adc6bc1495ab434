/** Every client is a faithful replica: folding the frames its session was sent gives
    back the server's own view of who is online, of its contacts and of its rooms. */
module Replica {
  import opened Text
  import opened Messages
  import opened Hub
  import Crypto
  import C = ChatModel

  /** im/client/controller/chat.py:234-270: what a frame does to the model's people and rooms. */
  function OnFrame(m: C.Model, f: Frame): C.Model {
    match f
    case LoginOk(user, roster, contacts, _) =>
      var m1 := if user == "" then m else C.SetIdentity(m, user).model;
      C.ReplaceContacts(C.ReplaceRoster(m1, roster).model, contacts).model
    case ContactList(contacts) => C.ReplaceContacts(m, contacts).model
    case Presence(user, online) => if user == "" then m else C.SetPresence(m, user, online).model
    case RoomState(room, members) => C.SetRoomMembers(m, room, members).model
    case _ => m
  }

  function Fold(m: C.Model, frames: seq<Frame>): C.Model {
    if frames == [] then m else OnFrame(Fold(m, frames[..|frames| - 1]), frames[|frames| - 1])
  }

  /** The rooms a session was told about since it logged in, as last reported. */
  function LastRooms(frames: seq<Frame>): map<string, set<string>> {
    if frames == [] then map[] else
      var before, f := LastRooms(frames[..|frames| - 1]), frames[|frames| - 1];
      if f.LoginOk? then map[] else if f.RoomState? then before[f.room := f.members] else before
  }

  function Seen(m: C.Model): set<string> {
    set name | name in m.roster && m.roster[name]
  }

  // --------------------------------------------------------------- invariants

  /** The registry and the sessions name each other. */
  ghost predicate Registry(h: Hub) {
    && (forall u | u in h.online :: h.online[u] in h.who && h.who[h.online[u]] == u)
    && (forall s | s in h.who :: h.who[s] in h.online && h.online[h.who[s]] == s)
  }

  ghost predicate PeopleAgree(h: Hub, u: string, m: C.Model) {
    Seen(m) == h.online.Keys - {u} && m.contacts == ContactsOf(h, u)
  }

  ghost predicate RoomsAgree(h: Hub, u: string, told: map<string, set<string>>) {
    forall r | r in h.rooms && u in h.rooms[r] && r in told :: told[r] == h.rooms[r]
  }

  /** One user's client, whatever its model was before, is up to date. */
  ghost predicate UpToDate(h: Hub, m0: C.Model, u: string)
    requires u in h.online
  {
    && PeopleAgree(h, u, Fold(m0, Box(h, h.online[u])))
    && RoomsAgree(h, u, LastRooms(Box(h, h.online[u])))
  }

  /** Nobody is their own contact, and every contact has a name. */
  ghost predicate Proper(contacts: set<(string, string)>) {
    forall p | p in contacts :: p.0 != p.1 && p.1 != ""
  }

  ghost predicate Faithful(h: Hub, m0: C.Model) {
    && Registry(h)
    && Proper(h.contacts) && "" !in h.online
    && forall u | u in h.online :: UpToDate(h, m0, u)
  }

  // -------------------------------------------------------------- quiet frames

  predicate Quiet(f: Frame) {
    !f.LoginOk? && !f.ContactList? && !f.Presence? && !f.RoomState?
  }

  /** b is a followed by frames that say nothing about people or rooms. */
  ghost predicate QuietTail(a: seq<Frame>, b: seq<Frame>) {
    a <= b && forall i | |a| <= i < |b| :: Quiet(b[i])
  }

  lemma {:induction false} QuietTailKeeps(m0: C.Model, a: seq<Frame>, b: seq<Frame>)
    requires QuietTail(a, b)
    ensures Fold(m0, b) == Fold(m0, a) && LastRooms(b) == LastRooms(a)
    decreases |b|
  {
    if |b| > |a| {
      QuietTailKeeps(m0, a, b[..|b| - 1]);
    } else {
      assert a == b;
    }
  }

  lemma FoldOne(m0: C.Model, a: seq<Frame>, f: Frame)
    ensures Fold(m0, a + [f]) == OnFrame(Fold(m0, a), f)
    ensures LastRooms(a + [f]) ==
      if f.LoginOk? then map[] else if f.RoomState? then LastRooms(a)[f.room := f.members] else LastRooms(a)
  {
    assert (a + [f])[..|a|] == a;
  }

  /** Nothing but quiet frames, and no change to people or rooms. */
  ghost predicate QuietStep(h: Hub, h': Hub) {
    && h'.online == h.online && h'.who == h.who && h'.contacts == h.contacts && h'.rooms == h.rooms
    && forall sid :: QuietTail(Box(h, sid), Box(h', sid))
  }

  lemma QuietStepKeeps(h: Hub, h': Hub, m0: C.Model)
    requires Faithful(h, m0) && QuietStep(h, h')
    ensures Faithful(h', m0)
  {
    forall u | u in h'.online ensures UpToDate(h', m0, u) {
      assert UpToDate(h, m0, u);
      QuietTailKeeps(m0, Box(h, h.online[u]), Box(h', h.online[u]));
      assert ContactsOf(h', u) == ContactsOf(h, u);
    }
  }

  // ------------------------------------------------------------- one frame each

  /** A client told of the new contact list keeps its roster right. */
  lemma ContactsFrame(h: Hub, u: string, m: C.Model)
    requires Seen(m) == h.online.Keys - {u} && Proper(h.contacts)
    ensures PeopleAgree(h, u, C.ReplaceContacts(m, ContactsOf(h, u)).model)
  {
    var cs := ContactsOf(h, u);
    AllNamed(h, u);
    var m' := C.ReplaceContacts(m, cs).model;
    forall name ensures name in Seen(m') <==> name in Seen(m) {
      assert name in cs ==> (u, name) in h.contacts && name != u;
      assert name in Seen(m) <==> name in h.online.Keys && name != u;
    }
    assert Seen(m') == Seen(m);
  }

  lemma AllNamed(h: Hub, u: string)
    requires Proper(h.contacts)
    ensures C.Named(ContactsOf(h, u)) == ContactsOf(h, u)
  {
    var cs := ContactsOf(h, u);
    forall name | name in cs ensures name != "" {
      ContactsListed(h, u, name);
      assert (u, name) in h.contacts;
    }
  }

  lemma ContactsListed(h: Hub, u: string, c: string)
    ensures c in ContactsOf(h, u) <==> (u, c) in h.contacts
    ensures c in ContactsOf(h, u) ==> ContactsOf(h, u)[c] == (c in h.online)
  {
    assert (u, c).1 == c;
  }

  /** Who else is online changes by one name. */
  ghost predicate OneMoved(h: Hub, h': Hub, who: string) {
    && h'.contacts == h.contacts
    && forall name :: name != who ==> (name in h'.online <==> name in h.online)
  }

  lemma PresenceRoster(h: Hub, h': Hub, u: string, who: string, m: C.Model)
    requires Seen(m) == h.online.Keys - {u} && who != u && OneMoved(h, h', who)
    ensures Seen(C.SetPresence(m, who, who in h'.online).model) == h'.online.Keys - {u}
  {
    var m' := C.SetPresence(m, who, who in h'.online).model;
    forall name ensures name in Seen(m') <==> name in h'.online.Keys && name != u {
      assert name in Seen(m) <==> name in h.online.Keys && name != u;
    }
  }

  lemma PresenceContacts(h: Hub, h': Hub, u: string, who: string, m: C.Model)
    requires m.contacts == ContactsOf(h, u) && OneMoved(h, h', who)
    ensures C.SetPresence(m, who, who in h'.online).model.contacts == ContactsOf(h', u)
  {
    var cs := C.SetPresence(m, who, who in h'.online).model.contacts;
    assert cs == if who in m.contacts then m.contacts[who := who in h'.online] else m.contacts;
    forall c ensures (c in cs <==> c in ContactsOf(h', u)) && (c in cs ==> cs[c] == ContactsOf(h', u)[c]) {
      ContactsListed(h, u, c);
      ContactsListed(h', u, c);
    }
  }

  lemma PresenceFrame(h: Hub, h': Hub, u: string, who: string, m: C.Model)
    requires PeopleAgree(h, u, m) && who != u && OneMoved(h, h', who)
    ensures PeopleAgree(h', u, C.SetPresence(m, who, who in h'.online).model)
  {
    PresenceRoster(h, h', u, who, m);
    PresenceContacts(h, h', u, who, m);
  }

  lemma LoginFrame(h: Hub, u: string, rooms: set<string>, m: C.Model)
    requires Proper(h.contacts)
    ensures PeopleAgree(h, u, OnFrame(m, LoginOk(u, h.online.Keys - {u}, ContactsOf(h, u), rooms)))
  {
    var m1 := if u == "" then m else C.SetIdentity(m, u).model;
    var m2 := C.ReplaceRoster(m1, h.online.Keys - {u}).model;
    assert Seen(m2) == h.online.Keys - {u};
    ContactsFrame(h, u, m2);
  }

  // -------------------------------------------------------- one client at a time

  /** u is on the same session, which was sent one more frame. */
  ghost predicate Told(h: Hub, h': Hub, u: string, f: Frame) {
    u in h.online && u in h'.online && h'.online[u] == h.online[u] && Box(h', h.online[u]) == Box(h, h.online[u]) + [f]
  }

  lemma ToldPresence(h: Hub, h': Hub, m0: C.Model, u: string, who: string)
    requires Told(h, h', u, Presence(who, who in h'.online)) && UpToDate(h, m0, u)
    requires who != u && who != "" && OneMoved(h, h', who) && h'.rooms == h.rooms
    ensures UpToDate(h', m0, u)
  {
    var box := Box(h, h.online[u]);
    FoldOne(m0, box, Presence(who, who in h'.online));
    PresenceFrame(h, h', u, who, Fold(m0, box));
  }

  lemma ToldContacts(h: Hub, h': Hub, m0: C.Model, u: string)
    requires Told(h, h', u, ContactList(ContactsOf(h', u))) && UpToDate(h, m0, u)
    requires h'.rooms == h.rooms && h'.online == h.online && Proper(h'.contacts)
    ensures UpToDate(h', m0, u)
  {
    var box := Box(h, h.online[u]);
    FoldOne(m0, box, ContactList(ContactsOf(h', u)));
    ContactsFrame(h', u, Fold(m0, box));
  }

  lemma ToldRoom(h: Hub, h': Hub, m0: C.Model, u: string, room: string)
    requires room in h'.rooms && Told(h, h', u, RoomState(room, h'.rooms[room])) && UpToDate(h, m0, u)
    requires h'.online == h.online && h'.contacts == h.contacts
    requires forall r | r != room :: (r in h'.rooms <==> r in h.rooms) && (r in h.rooms ==> h'.rooms[r] == h.rooms[r])
    ensures UpToDate(h', m0, u)
  {
    var box := Box(h, h.online[u]);
    FoldOne(m0, box, RoomState(room, h'.rooms[room]));
    var m := Fold(m0, box);
    var m' := C.SetRoomMembers(m, room, h'.rooms[room]).model;
    assert m'.roster == m.roster && m'.contacts == m.contacts;
    assert ContactsOf(h', u) == ContactsOf(h, u);
  }

  /** Someone told nothing, of whom nothing changed. */
  lemma ToldNothing(h: Hub, h': Hub, m0: C.Model, u: string)
    requires u in h.online && h'.online == h.online && UpToDate(h, m0, u)
    requires Box(h', h.online[u]) == Box(h, h.online[u])
    requires ContactsOf(h', u) == ContactsOf(h, u)
    requires forall r | r in h'.rooms && u in h'.rooms[r] :: r in h.rooms && h'.rooms[r] == h.rooms[r]
    ensures UpToDate(h', m0, u)
  {}

  // ------------------------------------------------------------------ handlers

  lemma AnnounceTells(h: Hub, user: string, on: bool, u: string)
    requires u in h.online && u != user
    ensures Told(h, Announce(h, user, on), u, Presence(user, on))
  {
    var sid := h.online[u];
    assert u in h.online.Keys - {user};
    assert sid in Sessions(h, h.online.Keys - {user});
  }

  lemma ForgoKeepsRegistry(h: Hub, sid: Sid, user: string)
    requires Registry(h) && sid in h.who && h.who[sid] == user
    ensures Registry(Forgo(h, sid, user)) && OneMoved(h, Forgo(h, sid, user), user)
  {}

  lemma ClaimKeepsRegistry(h: Hub, sid: Sid, user: string)
    requires Registry(h) && sid !in h.who && user !in h.online
    ensures Registry(Claim(h, sid, user)) && OneMoved(h, Claim(h, sid, user), user)
  {}

  lemma DisconnectKeeps(h: Hub, sid: Sid, m0: C.Model)
    requires Faithful(h, m0)
    ensures Faithful(Disconnect(h, sid), m0)
  {
    if sid in h.who {
      var user := h.who[sid];
      var h' := Disconnect(h, sid);
      ForgoKeepsRegistry(h, sid, user);
      forall u | u in h'.online ensures UpToDate(h', m0, u) {
        AnnounceTells(Forgo(h, sid, user), user, false, u);
        assert Told(h, h', u, Presence(user, false));
        ToldPresence(h, h', m0, u, user);
      }
    }
  }

  lemma LoginKeeps(h: Hub, sid: Sid, user: string, pass: string, m0: C.Model)
    requires Faithful(h, m0)
    ensures Faithful(DoLogin(h, sid, user, pass), m0)
  {
    if sid in h.who || user == "" || pass == "" || !Verify(h, user, pass) || user in h.online {
      var f := Box(DoLogin(h, sid, user, pass), sid)[|Box(h, sid)|];
      QuietSendKeeps(h, sid, f, m0);
    } else {
      WelcomeKeeps(h, sid, user, m0);
      FlushKeeps(Announce(Greet(Claim(h, sid, user), sid, user), user, true), sid, user, m0);
    }
  }

  lemma WelcomeKeeps(h: Hub, sid: Sid, user: string, m0: C.Model)
    requires Faithful(h, m0) && sid !in h.who && user !in h.online && user != ""
    ensures Faithful(Announce(Greet(Claim(h, sid, user), sid, user), user, true), m0)
  {
    var greeted := Greet(Claim(h, sid, user), sid, user);
    var h' := Announce(greeted, user, true);
    ClaimKeepsRegistry(h, sid, user);
    LoggedIn(h, sid, user, m0);
    forall u | u in h'.online && u != user ensures UpToDate(h', m0, u) {
      AnnounceTells(greeted, user, true, u);
      assert Told(h, h', u, Presence(user, true));
      ToldPresence(h, h', m0, u, user);
    }
  }

  /** The client that just logged in starts from LOGIN_OK, whatever it showed before. */
  lemma LoggedIn(h: Hub, sid: Sid, user: string, m0: C.Model)
    requires Faithful(h, m0) && sid !in h.who && user !in h.online
    ensures UpToDate(Announce(Greet(Claim(h, sid, user), sid, user), user, true), m0, user)
  {
    var claimed := Claim(h, sid, user);
    var h' := Announce(Greet(claimed, sid, user), user, true);
    GreetedBox(h, sid, user);
    FoldOne(m0, Box(h, sid), Greeting(claimed, user));
    LoginFrame(claimed, user, RoomsOf(claimed, user), Fold(m0, Box(h, sid)));
    assert ContactsOf(h', user) == ContactsOf(claimed, user);
  }

  lemma GreetedBox(h: Hub, sid: Sid, user: string)
    requires Registry(h) && sid !in h.who && user !in h.online
    ensures Box(Announce(Greet(Claim(h, sid, user), sid, user), user, true), sid)
         == Box(h, sid) + [Greeting(Claim(h, sid, user), user)]
  {
    var greeted := Greet(Claim(h, sid, user), sid, user);
    assert sid !in Sessions(greeted, greeted.online.Keys - {user});
  }

  lemma FlushKeeps(h: Hub, sid: Sid, user: string, m0: C.Model)
    requires Faithful(h, m0)
    ensures Faithful(FlushPending(h, sid, user), m0)
  {
    var frames, h' := FlushFrames(Flushed(h.store, user), user), FlushPending(h, sid, user);
    FlushIsQuiet(Flushed(h.store, user), user);
    forall s ensures QuietTail(Box(h, s), Box(h', s)) {
      var box, box' := Box(h, s), Box(h', s);
      assert box' == if s == sid then box + frames else box;
      forall i | |box| <= i < |box'| ensures Quiet(box'[i]) {
        assert box'[i] == frames[i - |box|] && box'[i] in frames;
      }
    }
    QuietStepKeeps(h, h', m0);
  }

  lemma QuietSendKeeps(h: Hub, sid: Sid, f: Frame, m0: C.Model)
    requires Faithful(h, m0) && Quiet(f)
    ensures Faithful(SendTo(h, sid, f), m0)
  {
    QuietStepKeeps(h, SendTo(h, sid, f), m0);
  }

  /** Accounts, stored messages and the queue are no part of what a client mirrors. */
  lemma StoreChangeKeeps(h: Hub, h': Hub, m0: C.Model)
    requires Faithful(h, m0) && h' == h.(users := h'.users, store := h'.store)
    ensures Faithful(h', m0)
  {
    QuietStepKeeps(h, h', m0);
  }

  lemma {:induction false} FlushIsQuiet(rows: seq<Row>, reader: string)
    ensures forall f | f in FlushFrames(rows, reader) :: f.Msg?
  {
    if rows != [] { FlushIsQuiet(rows[1..], reader); }
  }

  /** A contact list that changed for one owner, who is told if online. */
  lemma ContactsChangedKeeps(h: Hub, owner: string, contacts: set<(string, string)>, m0: C.Model)
    requires Faithful(h, m0)
    requires Proper(contacts)
    requires forall p: (string, string) :: p.0 != owner ==> (p in contacts <==> p in h.contacts)
    ensures var h1 := h.(contacts := contacts);
      Faithful(if owner in h1.online then SendContacts(h1, h1.online[owner], owner) else h1, m0)
  {
    if owner in h.online { OwnerToldKeeps(h, owner, contacts, m0); } else { OwnerAwayKeeps(h, owner, contacts, m0); }
  }

  lemma OwnerAwayKeeps(h: Hub, owner: string, contacts: set<(string, string)>, m0: C.Model)
    requires Faithful(h, m0) && owner !in h.online
    requires Proper(contacts)
    requires forall p: (string, string) :: p.0 != owner ==> (p in contacts <==> p in h.contacts)
    ensures Faithful(h.(contacts := contacts), m0)
  {
    var h' := h.(contacts := contacts);
    forall u | u in h'.online ensures UpToDate(h', m0, u) { OtherOwner(h, h', owner, m0, u); }
  }

  lemma OwnerToldKeeps(h: Hub, owner: string, contacts: set<(string, string)>, m0: C.Model)
    requires Faithful(h, m0) && owner in h.online
    requires Proper(contacts)
    requires forall p: (string, string) :: p.0 != owner ==> (p in contacts <==> p in h.contacts)
    ensures Faithful(SendContacts(h.(contacts := contacts), h.online[owner], owner), m0)
  {
    var h' := SendContacts(h.(contacts := contacts), h.online[owner], owner);
    OwnerIsTold(h, owner, contacts, m0);
    forall u | u in h'.online && u != owner ensures UpToDate(h', m0, u) { OtherOwner(h, h', owner, m0, u); }
  }

  lemma OwnerIsTold(h: Hub, owner: string, contacts: set<(string, string)>, m0: C.Model)
    requires owner in h.online && UpToDate(h, m0, owner) && Proper(contacts)
    ensures UpToDate(SendContacts(h.(contacts := contacts), h.online[owner], owner), m0, owner)
  {
    var h1 := h.(contacts := contacts);
    var h' := SendContacts(h1, h.online[owner], owner);
    assert ContactsOf(h', owner) == ContactsOf(h1, owner);
    ToldContacts(h, h', m0, owner);
  }

  lemma OtherOwner(h: Hub, h': Hub, owner: string, m0: C.Model, u: string)
    requires Registry(h) && u in h.online && u != owner && UpToDate(h, m0, u)
    requires h'.online == h.online && h'.rooms == h.rooms
    requires forall sid :: sid in h.who && h.who[sid] != owner ==> Box(h', sid) == Box(h, sid)
    requires forall p: (string, string) :: p.0 != owner ==> (p in h'.contacts <==> p in h.contacts)
    ensures UpToDate(h', m0, u)
  {
    OtherContacts(h, h', u, owner);
    ToldNothing(h, h', m0, u);
  }

  lemma OtherContacts(h: Hub, h': Hub, u: string, owner: string)
    requires u != owner && h'.online == h.online
    requires forall p: (string, string) :: p.0 != owner ==> (p in h'.contacts <==> p in h.contacts)
    ensures ContactsOf(h', u) == ContactsOf(h, u)
  {
    forall c ensures (c in ContactsOf(h', u) <==> c in ContactsOf(h, u))
                  && (c in ContactsOf(h, u) ==> ContactsOf(h', u)[c] == ContactsOf(h, u)[c]) {
      ContactsListed(h, u, c);
      ContactsListed(h', u, c);
      assert (u, c) in h'.contacts <==> (u, c) in h.contacts;
    }
  }

  lemma NoteContactKeeps(h: Hub, owner: string, other: string, m0: C.Model)
    requires Faithful(h, m0)
    ensures Faithful(NoteContact(h, owner, other), m0)
  {
    if owner != other && other != "" { ContactsChangedKeeps(h, owner, h.contacts + {(owner, other)}, m0); }
  }

  /** Membership of one room changed to a new set, and every member was told. */
  lemma BroadcastKeeps(h: Hub, room: string, members: set<string>, m0: C.Model)
    requires Faithful(h, m0)
    ensures Faithful(Broadcast(SetMembers(h, room, members), room), m0)
  {
    var h1 := SetMembers(h, room, members);
    var h' := Broadcast(h1, room);
    forall u | u in h'.online ensures UpToDate(h', m0, u) {
      BroadcastTells(h, room, members, u);
      if u in members {
        ToldRoom(h, h', m0, u, room);
      } else {
        assert ContactsOf(h', u) == ContactsOf(h, u);
        ToldNothing(h, h', m0, u);
      }
    }
  }

  lemma BroadcastTells(h: Hub, room: string, members: set<string>, u: string)
    requires Registry(h) && u in h.online
    ensures var h' := Broadcast(SetMembers(h, room, members), room);
      if u in members then Told(h, h', u, RoomState(room, members)) else Box(h', h.online[u]) == Box(h, h.online[u])
  {
    var h1 := SetMembers(h, room, members);
    assert Members(h1, room) == members;
    assert u in members ==> h.online[u] in Sessions(h1, members);
    assert h.online[u] in Sessions(h1, members) ==> u in members;
  }

  lemma FanOutIsQuiet(h: Hub, names: set<string>, m: Frame, shares: Option<map<string, Share>>)
    requires m.Msg?
    ensures QuietStep(h, FanOut(h, names, m, shares))
  {
    forall sid ensures QuietTail(Box(h, sid), Box(FanOut(h, names, m, shares), sid)) {
      BoxOfFanOut(h, names, m, shares, sid);
    }
  }

  lemma FanOutKeeps(h: Hub, names: set<string>, m: Frame, shares: Option<map<string, Share>>, m0: C.Model)
    requires Faithful(h, m0) && m.Msg?
    ensures Faithful(FanOut(h, names, m, shares), m0)
  {
    FanOutIsQuiet(h, names, m, shares);
    QuietStepKeeps(h, FanOut(h, names, m, shares), m0);
  }

  lemma ToUserKeeps(h: Hub, m: Frame, m0: C.Model)
    requires Faithful(h, m0) && m.Msg?
    ensures Faithful(ToUser(h, m), m0)
  {
    var h1 := h.(store := Record(h.store, RowOf(m, None)));
    StoreChangeKeeps(h, h1, m0);
    NoteContactKeeps(h1, m.sender, m.to, m0);
    var h2 := NoteContact(h1, m.sender, m.to);
    NoteContactKeeps(h2, m.to, m.sender, m0);
    var h3 := NoteContact(h2, m.to, m.sender);
    if m.to in h3.online {
      QuietSendKeeps(h3, h3.online[m.to], m, m0);
    } else {
      StoreChangeKeeps(h3, Deliver(h3, m.to, m), m0);
    }
  }

  lemma SendKeeps(h: Hub, sid: Sid, me: string, r: Request, m0: C.Model)
    requires Faithful(h, m0) && r.Send?
    ensures Faithful(DoSend(h, sid, me, r), m0)
  {
    var refused := Refusal(h, me, r.to);
    if refused.Some? {
      QuietSendKeeps(h, sid, Error(refused.value), m0);
    } else {
      var m := Msg(me, r.to, r.body, r.nonce, r.id, r.ts);
      if IsRoom(r.to) {
        var h1 := h.(store := Record(h.store, RowOf(m, r.shares)));
        StoreChangeKeeps(h, h1, m0);
        FanOutKeeps(h1, Members(h1, m.to) - {m.sender}, m, r.shares, m0);
        QuietSendKeeps(ToRoom(h, m, r.shares), sid, Ack(r.id), m0);
      } else {
        ToUserKeeps(h, m, m0);
        QuietSendKeeps(ToUser(h, m), sid, Ack(r.id), m0);
      }
    }
  }

  lemma CreateRoomKeeps(h: Hub, sid: Sid, me: string, room: string, names: seq<string>, m0: C.Model)
    requires Faithful(h, m0)
    ensures Faithful(DoCreateRoom(h, sid, me, room, names), m0)
  {
    QuietSendKeeps(h, sid, Error(BAD_ROOM), m0);
    QuietSendKeeps(h, sid, Error(ROOM_EXISTS), m0);
    BroadcastKeeps(h, room, {me} + Admitted(h, names), m0);
  }

  lemma InviteKeeps(h: Hub, sid: Sid, me: string, room: string, names: seq<string>, m0: C.Model)
    requires Faithful(h, m0)
    ensures Faithful(DoInvite(h, sid, me, room, names), m0)
  {
    QuietSendKeeps(h, sid, Error(BAD_ROOM), m0);
    QuietSendKeeps(h, sid, Error(NO_SUCH_ROOM), m0);
    QuietSendKeeps(h, sid, Error(NOT_A_MEMBER), m0);
    QuietSendKeeps(h, sid, Error(NO_SUCH_USER), m0);
    if room in h.rooms { AdmittingKeeps(h, sid, room, names, m0); }
  }

  lemma AdmittingKeeps(h: Hub, sid: Sid, room: string, names: seq<string>, m0: C.Model)
    requires Faithful(h, m0) && room in h.rooms
    ensures var members, told := h.rooms[room] + Admitted(h, names), SendTo(h, sid, Error(NO_SUCH_USER));
      Faithful(Broadcast(SetMembers(h, room, members), room), m0) && Faithful(Broadcast(SetMembers(told, room, members), room), m0)
  {
    var members := h.rooms[room] + Admitted(h, names);
    QuietSendKeeps(h, sid, Error(NO_SUCH_USER), m0);
    BroadcastKeeps(h, room, members, m0);
    BroadcastKeeps(SendTo(h, sid, Error(NO_SUCH_USER)), room, members, m0);
  }

  lemma JoinKeeps(h: Hub, sid: Sid, me: string, room: string, m0: C.Model)
    requires Faithful(h, m0)
    ensures Faithful(DoJoin(h, sid, me, room), m0)
  {
    QuietSendKeeps(h, sid, Error(BAD_ROOM), m0);
    QuietSendKeeps(h, sid, Error(NO_SUCH_ROOM), m0);
    if room in h.rooms { BroadcastKeeps(h, room, h.rooms[room] + {me}, m0); }
  }

  lemma LeaveKeeps(h: Hub, sid: Sid, me: string, room: string, m0: C.Model)
    requires Faithful(h, m0) && sid in h.who && h.who[sid] == me
    ensures Faithful(DoLeave(h, sid, me, room), m0)
  {
    if !GoodRoomName(room) {
      QuietSendKeeps(h, sid, Error(BAD_ROOM), m0);
    } else if me !in Members(h, room) {
      QuietSendKeeps(h, sid, Error(NOT_A_MEMBER), m0);
    } else {
      var left := h.rooms[room] - {me};
      BroadcastKeeps(h, room, left, m0);
      LeaverToldKeeps(Broadcast(SetMembers(h, room, left), room), sid, me, room, m0);
    }
  }

  /** Whoever left a room is told of it too. */
  lemma LeaverToldKeeps(h: Hub, sid: Sid, me: string, room: string, m0: C.Model)
    requires Faithful(h, m0) && sid in h.who && h.who[sid] == me && room in h.rooms
    ensures Faithful(SendTo(h, sid, RoomState(room, h.rooms[room])), m0)
  {
    var h' := SendTo(h, sid, RoomState(room, h.rooms[room]));
    forall u | u in h'.online ensures UpToDate(h', m0, u) {
      if u == me {
        ToldRoom(h, h', m0, u, room);
      } else {
        assert ContactsOf(h', u) == ContactsOf(h, u);
        ToldNothing(h, h', m0, u);
      }
    }
  }

  lemma AddContactKeeps(h: Hub, sid: Sid, me: string, name: string, m0: C.Model)
    requires Faithful(h, m0) && sid in h.who && h.who[sid] == me
    ensures Faithful(DoAddContact(h, sid, me, name), m0)
  {
    if name == "" {
      QuietSendKeeps(h, sid, Error(NO_RECIPIENT), m0);
    } else if name == me || IsRoom(name) {
      QuietSendKeeps(h, sid, Error(BAD_CONTACT), m0);
    } else if name !in h.users {
      QuietSendKeeps(h, sid, Error(NO_SUCH_USER), m0);
    } else {
      ContactsChangedKeeps(h, me, h.contacts + {(me, name)}, m0);
    }
  }

  lemma RemoveContactKeeps(h: Hub, sid: Sid, me: string, name: string, m0: C.Model)
    requires Faithful(h, m0) && sid in h.who && h.who[sid] == me
    ensures Faithful(DoRemoveContact(h, sid, me, name), m0)
  {
    ContactsChangedKeeps(h, me, h.contacts - {(me, name)}, m0);
  }

  lemma TypingKeeps(h: Hub, me: string, to: string, on: bool, m0: C.Model)
    requires Faithful(h, m0)
    ensures Faithful(DoTyping(h, me, to, on), m0)
  {
    if !(to == "" || (IsRoom(to) && me !in Members(h, to))) {
      QuietToAllKeeps(h, Sessions(h, if IsRoom(to) then Members(h, to) - {me} else {to}), TypingFrom(me, to, on), m0);
    }
  }

  lemma QuietToAllKeeps(h: Hub, targets: set<Sid>, f: Frame, m0: C.Model)
    requires Faithful(h, m0) && Quiet(f)
    ensures Faithful(SendAll(h, targets, f), m0)
  {
    var h' := SendAll(h, targets, f);
    forall sid ensures QuietTail(Box(h, sid), Box(h', sid)) { BoxOfAll(h, targets, f, sid); }
    QuietStepKeeps(h, h', m0);
  }

  lemma ReceiptKeeps(h: Hub, sid: Sid, me: string, ref: string, state: Label, when: int, m0: C.Model)
    requires Faithful(h, m0)
    ensures Faithful(DoReceipt(h, sid, me, ref, state, when), m0)
  {
    var sender := SenderOf(h.store.table, ref);
    if ref == "" || state == SENT {
      QuietSendKeeps(h, sid, Error(BAD_RECEIPT), m0);
    } else if sender.Some? {
      var h1 := h.(store := Mark(h.store, ref, state, when));
      StoreChangeKeeps(h, h1, m0);
      if sender.value != me && sender.value in h.online {
        QuietSendKeeps(h1, h.online[sender.value], ReceiptFrom(me, sender.value, ref, state), m0);
        assert DoReceipt(h, sid, me, ref, state, when)
            == SendTo(h1, h.online[sender.value], ReceiptFrom(me, sender.value, ref, state));
      } else {
        assert DoReceipt(h, sid, me, ref, state, when) == h1;
      }
    }
  }

  lemma RegisterKeeps(h: Hub, sid: Sid, user: string, pass: string, pubkey: Option<Crypto.PublicKey>, m0: C.Model)
    requires Faithful(h, m0)
    ensures Faithful(DoRegister(h, sid, user, pass, pubkey), m0)
  {
    var h1 := h.(users := h.users[user := Account(pass, pubkey)]);
    StoreChangeKeeps(h, h1, m0);
    QuietSendKeeps(h1, sid, Okay(user), m0);
    QuietSendKeeps(h, sid, Error(BAD_REGISTER), m0);
    QuietSendKeeps(h, sid, Error(BAD_USERNAME), m0);
    QuietSendKeeps(h, sid, Error(USER_EXISTS), m0);
  }

  /** What a request about a room does. */
  function RoomServe(h: Hub, sid: Sid, me: string, r: Request): Hub
    requires AboutRoom(r)
  {
    if r.CreateRoom? then DoCreateRoom(h, sid, me, r.room, r.members)
    else if r.Invite? then DoInvite(h, sid, me, r.room, r.members)
    else if r.Join? then DoJoin(h, sid, me, r.room)
    else DoLeave(h, sid, me, r.room)
  }

  lemma RoomRequestKeeps(h: Hub, sid: Sid, me: string, r: Request, m0: C.Model)
    requires Faithful(h, m0) && sid in h.who && h.who[sid] == me
    requires AboutRoom(r)
    ensures Faithful(RoomServe(h, sid, me, r), m0)
  {
    if r.CreateRoom? { CreateRoomKeeps(h, sid, me, r.room, r.members, m0); }
    else if r.Invite? { InviteKeeps(h, sid, me, r.room, r.members, m0); }
    else if r.Join? { JoinKeeps(h, sid, me, r.room, m0); }
    else { LeaveKeeps(h, sid, me, r.room, m0); }
  }

  lemma SameKeeps(a: Hub, b: Hub, m0: C.Model)
    requires Faithful(a, m0) && a == b
    ensures Faithful(b, m0)
  {}

  lemma TalkKeeps(h: Hub, sid: Sid, me: string, r: Request, h': Hub, m0: C.Model)
    requires Faithful(h, m0)
    requires r.Send? ==> h' == DoSend(h, sid, me, r)
    requires r.Typing? ==> h' == DoTyping(h, me, r.to, r.on)
    requires r.Receipt? ==> h' == DoReceipt(h, sid, me, r.ref, r.state, r.when)
    requires r.Send? || r.Typing? || r.Receipt?
    ensures Faithful(h', m0)
  {
    if r.Send? {
      SendKeeps(h, sid, me, r, m0);
      SameKeeps(DoSend(h, sid, me, r), h', m0);
    } else if r.Typing? {
      TypingKeeps(h, me, r.to, r.on, m0);
      SameKeeps(DoTyping(h, me, r.to, r.on), h', m0);
    } else {
      ReceiptKeeps(h, sid, me, r.ref, r.state, r.when, m0);
      SameKeeps(DoReceipt(h, sid, me, r.ref, r.state, r.when), h', m0);
    }
  }

  lemma ListKeeps(h: Hub, sid: Sid, me: string, r: Request, h': Hub, m0: C.Model)
    requires Faithful(h, m0) && sid in h.who && h.who[sid] == me
    requires r.AddContact? ==> h' == DoAddContact(h, sid, me, r.user)
    requires r.RemoveContact? ==> h' == DoRemoveContact(h, sid, me, r.user)
    requires r.AddContact? || r.RemoveContact?
    ensures Faithful(h', m0)
  {
    if r.AddContact? {
      AddContactKeeps(h, sid, me, r.user, m0);
      SameKeeps(DoAddContact(h, sid, me, r.user), h', m0);
    } else {
      RemoveContactKeeps(h, sid, me, r.user, m0);
      SameKeeps(DoRemoveContact(h, sid, me, r.user), h', m0);
    }
  }

  predicate AboutRoom(r: Request) {
    r.CreateRoom? || r.Invite? || r.Join? || r.Leave?
  }

  predicate Asks(r: Request) {
    r.History? || r.GetKey? || r.Unsupported?
  }

  function Answer(h: Hub, me: string, r: Request): (f: Frame)
    requires Asks(r)
    ensures Quiet(f)
  {
    if r.History? then HistoryReply(h, me, r.target, r.before, r.limit)
    else if r.GetKey? then KeyReply(h, r.user) else Error(UNSUPPORTED)
  }

  /** Serving is one of the handlers. */
  lemma ServeIs(h: Hub, sid: Sid, me: string, r: Request)
    ensures AboutRoom(r) ==> Serve(h, sid, me, r) == RoomServe(h, sid, me, r)
    ensures r.AddContact? ==> Serve(h, sid, me, r) == DoAddContact(h, sid, me, r.user)
    ensures r.RemoveContact? ==> Serve(h, sid, me, r) == DoRemoveContact(h, sid, me, r.user)
    ensures r.Typing? ==> Serve(h, sid, me, r) == DoTyping(h, me, r.to, r.on)
    ensures r.Receipt? ==> Serve(h, sid, me, r) == DoReceipt(h, sid, me, r.ref, r.state, r.when)
    ensures Asks(r) ==> Serve(h, sid, me, r) == SendTo(h, sid, Answer(h, me, r))
    ensures r.Send? ==> Serve(h, sid, me, r) == DoSend(h, sid, me, r)
  {}

  lemma ServeKeeps(h: Hub, sid: Sid, me: string, r: Request, m0: C.Model)
    requires Faithful(h, m0) && sid in h.who && h.who[sid] == me && !r.Ping? && !r.Register? && !r.Login?
    ensures Faithful(Serve(h, sid, me, r), m0)
  {
    var h' := Serve(h, sid, me, r);
    ServeIs(h, sid, me, r);
    if AboutRoom(r) {
      RoomRequestKeeps(h, sid, me, r, m0);
      SameKeeps(RoomServe(h, sid, me, r), h', m0);
    } else if Asks(r) {
      ReplyKeeps(h, sid, Answer(h, me, r), h', m0);
    } else if r.AddContact? || r.RemoveContact? {
      ListKeeps(h, sid, me, r, h', m0);
    } else {
      TalkKeeps(h, sid, me, r, h', m0);
    }
  }

  lemma ReplyKeeps(h: Hub, sid: Sid, f: Frame, h': Hub, m0: C.Model)
    requires Faithful(h, m0) && Quiet(f) && h' == SendTo(h, sid, f)
    ensures Faithful(h', m0)
  {
    QuietSendKeeps(h, sid, f, m0);
  }

  lemma StepKeeps(h: Hub, s: Step, m0: C.Model)
    requires Faithful(h, m0)
    ensures Faithful(Next(h, s), m0)
  {
    match s
    case Drop(sid) => DisconnectKeeps(h, sid, m0);
    case Act(sid, r) =>
      match r
      case Ping => QuietSendKeeps(h, sid, Pong, m0);
      case Register(u, p, k) => RegisterKeeps(h, sid, u, p, k, m0);
      case Login(u, p) => LoginKeeps(h, sid, u, p, m0);
      case _ =>
        if sid in h.who { ServeKeeps(h, sid, h.who[sid], r, m0); }
        else { QuietSendKeeps(h, sid, Error(NOT_LOGGED_IN), m0); }
  }

  /** The server before anyone connects: whatever is on disk, nobody online. */
  ghost predicate NobodyConnected(h: Hub) {
    h.online == map[] && h.who == map[] && Proper(h.contacts)
  }

  /** Clients are faithful replicas, after every run: for every user online, and
      whatever their model showed before, the frames their session was sent fold to
      exactly who else is online, to their contacts with the right flags, and to the
      current membership of every room of theirs they were told about since login. */
  lemma {:induction false} ClientsAreFaithfulReplicas(h: Hub, steps: seq<Step>, m0: C.Model)
    requires NobodyConnected(h)
    ensures Faithful(Run(h, steps), m0)
  {
    if steps != [] {
      ClientsAreFaithfulReplicas(h, steps[..|steps| - 1], m0);
      StepKeeps(Run(h, steps[..|steps| - 1]), steps[|steps| - 1], m0);
    }
  }
}
