/** What every state of every interleaved run satisfies. */
module GlobalInvariants {
  import opened Text
  import opened Messages
  import opened Hub
  import opened I = Interleaving
  import Ledgers
  import Rooms

  // ------------------------------------------------------------------- sessions

  /** The registry and a session name each other. */
  ghost predicate Agrees(s: Net, t: Sid) {
    && (t in s.who ==> s.who[t] in s.online && s.online[s.who[t]] == t)
    && (forall u | u in s.online && s.online[u] == t :: t in s.who && s.who[t] == u)
  }

  ghost predicate Unknown(s: Net, t: Sid) {
    forall u | u in s.online :: s.online[u] != t
  }

  /** Registry and session agree outside the login and disconnect windows; inside them,
      exactly what is claimed or not yet cleared. */
  ghost predicate SessionHolds(s: Net, t: Sid, pc: Pc) {
    match pc
    case LoginName(u) => u in s.online && s.online[u] == t && t !in s.who
                         && forall v | v in s.online && s.online[v] == t :: v == u
    case DropName(u) => t in s.who && s.who[t] == u && Unknown(s, t)
    case LoginClaim(_) => Agrees(s, t) && t !in s.who
    case LoginFlush(u) => Agrees(s, t) && t in s.who && s.who[t] == u
    case LoginHand(u, _) => Agrees(s, t) && t in s.who && s.who[t] == u
    case DropLogout(u) => Agrees(s, t) && t in s.who && s.who[t] == u
    case Closed => Agrees(s, t) && t !in s.who
    case _ => Agrees(s, t)
  }

  ghost predicate Sessions(s: Net) {
    && (forall t | t in s.pcs :: SessionHolds(s, t, s.pcs[t]))
    && (forall u | u in s.online :: s.online[u] in s.pcs)
    && (forall t | t in s.who :: t in s.pcs)
  }

  /** At most one session holds each name, and each session at most one name. */
  lemma OneNameEach(s: Net, u: string, v: string)
    requires Sessions(s) && u in s.online && v in s.online && s.online[u] == s.online[v]
    ensures u == v
  {
    var t := s.online[u];
    assert SessionHolds(s, t, s.pcs[t]);
  }

  /** A step of thread t that touches neither the registry nor any session's name. */
  lemma SessionsStay(s: Net, s': Net, t: Sid, pc: Pc)
    requires Sessions(s) && s'.pcs == s.pcs[t := pc] && s'.online == s.online && s'.who == s.who
    requires SessionHolds(s, t, pc)
    ensures Sessions(s')
  {
    forall x | x in s'.pcs ensures SessionHolds(s', x, s'.pcs[x]) {
      if x != t { assert SessionHolds(s, x, s.pcs[x]); }
    }
  }

  lemma ClaimSessions(s: Net, t: Sid)
    requires Sessions(s) && t in s.pcs && s.pcs[t].LoginClaim?
    ensures Sessions(GoLogin(s, t, s.pcs[t]))
  {
    var s', u := GoLogin(s, t, s.pcs[t]), s.pcs[t].user;
    assert SessionHolds(s, t, s.pcs[t]);
    if u !in s.online {
      forall x | x in s'.pcs && x != t ensures SessionHolds(s', x, s'.pcs[x]) { ClaimLeaves(s, s', t, u, x); }
      ClaimGives(s, s', t, u);
    } else {
      SessionsStay(s, s', t, Idle);
    }
  }

  lemma ClaimGives(s: Net, s': Net, t: Sid, u: string)
    requires Agrees(s, t) && t !in s.who && u !in s.online && s'.online == s.online[u := t] && s'.who == s.who
    ensures SessionHolds(s', t, LoginName(u))
  {}

  /** A claim changes nothing for any other session. */
  lemma ClaimLeaves(s: Net, s': Net, t: Sid, u: string, x: Sid)
    requires x in s.pcs && x != t && SessionHolds(s, x, s.pcs[x])
    requires u !in s.online && s'.online == s.online[u := t] && s'.who == s.who
    ensures SessionHolds(s', x, s.pcs[x])
  {}

  lemma NameSessions(s: Net, t: Sid)
    requires Sessions(s) && t in s.pcs && s.pcs[t].LoginName?
    ensures Sessions(GoLogin(s, t, s.pcs[t]))
  {
    var s' := GoLogin(s, t, s.pcs[t]);
    assert SessionHolds(s, t, s.pcs[t]);
    forall x | x in s'.pcs ensures SessionHolds(s', x, s'.pcs[x]) {
      if x != t { assert SessionHolds(s, x, s.pcs[x]); }
    }
  }

  lemma DropSessions(s: Net, t: Sid)
    requires Sessions(s) && t in s.pcs && (s.pcs[t].DropLogout? || s.pcs[t].DropName?)
    ensures Sessions(GoLogin(s, t, s.pcs[t]))
  {
    var pc, s' := s.pcs[t], GoLogin(s, t, s.pcs[t]);
    assert SessionHolds(s, t, pc);
    forall x | x in s'.pcs && x != t ensures SessionHolds(s', x, s'.pcs[x]) {
      if pc.DropLogout? { LogoutLeaves(s, s', t, pc.user, x); } else { ClearingLeaves(s, s', t, x); }
    }
  }

  /** A name released changes nothing for any other session. */
  lemma LogoutLeaves(s: Net, s': Net, t: Sid, u: string, x: Sid)
    requires x in s.pcs && x != t && SessionHolds(s, x, s.pcs[x])
    requires u in s.online && s.online[u] == t && s'.online == s.online - {u} && s'.who == s.who
    ensures SessionHolds(s', x, s.pcs[x])
  {}

  lemma ClearingLeaves(s: Net, s': Net, t: Sid, x: Sid)
    requires x in s.pcs && x != t && SessionHolds(s, x, s.pcs[x])
    requires s'.online == s.online && s'.who == s.who - {t}
    ensures SessionHolds(s', x, s.pcs[x])
  {}

  // ------------------------------------------------------------------ registered

  /** The names a thread is about to use are registered. */
  ghost predicate NamesHeld(s: Net, pc: Pc) {
    match pc
    case LoginClaim(u) => u in s.users
    case LoginName(u) => u in s.users
    case LoginFlush(u) => u in s.users
    case LoginHand(u, _) => u in s.users
    case UserLookup(m) => m.sender in s.users
    case UserExists(m) => m.sender in s.users
    case UserRecord(m, _) => m.sender in s.users && m.to in s.users
    case UserNote(m, _) => m.sender in s.users && m.to in s.users
    case UserNoteBack(m, _) => m.sender in s.users && m.to in s.users
    case UserDeliver(m, _) => m.to in s.users
    case RoomRecord(_, _, left) => left <= s.users.Keys
    case RoomNext(_, _, left) => left <= s.users.Keys
    case RoomGot(_, _, name, _, left) => name in s.users && left <= s.users.Keys
    case AddJoin(_, name, _) => name in s.users
    case ContactAdd(name) => name in s.users
    case _ => true
  }

  ghost predicate Registered(s: Net) {
    && (forall u | u in s.users :: u != "" && !IsRoom(u))
    && (forall u | u in s.online :: u in s.users)
    && (forall t | t in s.who :: s.who[t] in s.users)
    && (forall r | r in s.rooms :: s.rooms[r] <= s.users.Keys)
    && (forall p | p in s.store.pending :: p.1 in s.users)
    && (forall p | p in s.contacts :: p.0 in s.users && p.1 in s.users && p.0 != p.1)
    && (forall t | t in s.pcs :: NamesHeld(s, s.pcs[t]))
  }

  lemma RegisteredMoves(s: Net, s': Net, t: Sid, pc: Pc)
    requires Registered(s) && s'.pcs == s.pcs[t := pc] && s'.users == s.users
    requires forall u | u in s'.online :: u in s.online || u in s.users
    requires forall x | x in s'.who :: s'.who[x] in s.users
    requires forall r | r in s'.rooms :: s'.rooms[r] <= s.users.Keys
    requires forall p | p in s'.store.pending :: p in s.store.pending || p.1 in s.users
    requires forall p | p in s'.contacts :: p in s.contacts || (p.0 in s.users && p.1 in s.users && p.0 != p.1)
    requires NamesHeld(s, pc)
    ensures Registered(s')
  {
    forall x | x in s'.pcs ensures NamesHeld(s', s'.pcs[x]) {
      if x != t { assert NamesHeld(s, s.pcs[x]); }
    }
  }

  lemma NewAccount(s: Net, user: string, a: Account)
    requires Registered(s) && user != "" && !IsRoom(user)
    ensures Registered(s.(users := s.users[user := a]))
  {
    var s' := s.(users := s.users[user := a]);
    forall x | x in s'.pcs ensures NamesHeld(s', s'.pcs[x]) { assert NamesHeld(s, s.pcs[x]); }
  }

  // ----------------------------------------------------------------- every step

  ghost predicate Holds(s: Net) {
    Sessions(s) && Registered(s)
  }

  lemma HearingHolds(s: Net, sid: Sid, r: Request)
    requires Holds(s) && Enabled(s, Hear(sid, r))
    ensures Holds(Hearing(s, sid, r))
  {
    assert SessionHolds(s, sid, s.pcs[sid]);
    if r.Register? {
      if r.user != "" && !IsRoom(r.user) { NewAccount(s, r.user, Account(r.pass, r.pubkey)); }
      SessionsStay(s, Hearing(s, sid, r), sid, Idle);
    } else if r.Login? {
      LoginHeard(s, sid, r);
    } else if sid in s.who {
      AskingHolds(s, sid, s.who[sid], r);
    }
  }

  lemma LoginHeard(s: Net, sid: Sid, r: Request)
    requires Holds(s) && Enabled(s, Hear(sid, r)) && r.Login?
    ensures Holds(Hearing(s, sid, r))
  {
    var s' := Hearing(s, sid, r);
    assert SessionHolds(s, sid, s.pcs[sid]);
    if s' != s {
      SessionsStay(s, s', sid, LoginClaim(r.user));
      RegisteredMoves(s, s', sid, LoginClaim(r.user));
    }
  }

  lemma AskingHolds(s: Net, sid: Sid, me: string, r: Request)
    requires Holds(s) && sid in s.pcs && s.pcs[sid].Idle? && sid in s.who && s.who[sid] == me
    ensures Holds(Asking(s, sid, me, r))
  {
    var s' := Asking(s, sid, me, r);
    assert SessionHolds(s, sid, s.pcs[sid]);
    AskingMoves(s, sid, me, r);
    SessionsStay(s, s', sid, s'.pcs[sid]);
    RegisteredMoves(s, s', sid, s'.pcs[sid]);
  }

  /** What a step may do to names: all it adds is registered, and it claims none. */
  ghost predicate NamesMove(s: Net, s': Net, sid: Sid) {
    && sid in s'.pcs && s'.pcs == s.pcs[sid := s'.pcs[sid]]
    && s'.users == s.users && s'.online == s.online && s'.who == s.who
    && (s'.rooms == s.rooms || forall x | x in s'.rooms :: s'.rooms[x] <= s.users.Keys)
    && (s'.store.pending == s.store.pending || forall p | p in s'.store.pending :: p in s.store.pending || p.1 in s.users)
    && (s'.contacts == s.contacts || forall p | p in s'.contacts :: p in s.contacts || (p.0 in s.users && p.1 in s.users && p.0 != p.1))
    && NamesHeld(s, s'.pcs[sid]) && SessionHolds(s, sid, s'.pcs[sid]) && !s'.pcs[sid].LoginClaim?
  }

  /** A thread ready to step. */
  ghost predicate Ready(s: Net, sid: Sid) {
    sid in s.pcs && SessionHolds(s, sid, s.pcs[sid]) && NamesHeld(s, s.pcs[sid])
  }

  lemma CreateAskingMoves(s: Net, sid: Sid, me: string, r: Request)
    requires Ready(s, sid) && s.pcs[sid].Idle? && me in s.users && r.CreateRoom?
    requires forall x | x in s.rooms :: s.rooms[x] <= s.users.Keys
    ensures NamesMove(s, Asking(s, sid, me, r), sid)
  {}

  lemma RoomAskingMoves(s: Net, sid: Sid, me: string, r: Request)
    requires Ready(s, sid) && s.pcs[sid].Idle? && me in s.users
    requires forall x | x in s.rooms :: s.rooms[x] <= s.users.Keys
    requires r.Invite? || r.Join? || r.Leave?
    ensures NamesMove(s, Asking(s, sid, me, r), sid)
  {}

  lemma OtherAskingMoves(s: Net, sid: Sid, me: string, r: Request)
    requires Ready(s, sid) && s.pcs[sid].Idle? && me in s.users
    requires !r.CreateRoom? && !r.Invite? && !r.Join? && !r.Leave? && !r.Send?
    ensures NamesMove(s, Asking(s, sid, me, r), sid)
  {}

  lemma SendAskingMoves(s: Net, sid: Sid, me: string, r: Request)
    requires Ready(s, sid) && s.pcs[sid].Idle? && me in s.users && r.Send?
    ensures NamesMove(s, Asking(s, sid, me, r), sid)
  {}

  lemma AskingMoves(s: Net, sid: Sid, me: string, r: Request)
    requires Registered(s) && Ready(s, sid) && s.pcs[sid].Idle? && me in s.users
    ensures NamesMove(s, Asking(s, sid, me, r), sid)
  {
    if r.CreateRoom? { CreateAskingMoves(s, sid, me, r); }
    else if r.Invite? || r.Join? || r.Leave? { RoomAskingMoves(s, sid, me, r); }
    else if r.Send? { SendAskingMoves(s, sid, me, r); }
    else { OtherAskingMoves(s, sid, me, r); }
  }

  lemma PeopleGoing(s: Net, sid: Sid)
    requires Holds(s) && sid in s.pcs && AtLogin(s.pcs[sid])
    requires var pc := s.pcs[sid]; pc.LoginClaim? || pc.LoginName? || pc.DropLogout? || pc.DropName?
    ensures Holds(GoLogin(s, sid, s.pcs[sid]))
  {
    var pc, s' := s.pcs[sid], GoLogin(s, sid, s.pcs[sid]);
    assert SessionHolds(s, sid, pc) && NamesHeld(s, pc);
    if pc.LoginClaim? { ClaimSessions(s, sid); }
    else if pc.LoginName? { NameSessions(s, sid); }
    else { DropSessions(s, sid); }
    RegisteredMoves(s, s', sid, s'.pcs[sid]);
  }

  lemma FlushMoves(s: Net, sid: Sid)
    requires Ready(s, sid) && (s.pcs[sid].LoginFlush? || s.pcs[sid].LoginHand?)
    ensures NamesMove(s, GoLogin(s, sid, s.pcs[sid]), sid)
  {}

  lemma UserFindMoves(s: Net, sid: Sid)
    requires Ready(s, sid) && (s.pcs[sid].UserLookup? || s.pcs[sid].UserExists?)
    requires forall u | u in s.online :: u in s.users
    ensures NamesMove(s, GoUser(s, sid, s.pcs[sid]), sid)
  {
    var s' := GoUser(s, sid, s.pcs[sid]);
    StandMoves(s, s', sid, s'.pcs[sid]);
  }

  lemma UserRecordMoves(s: Net, sid: Sid)
    requires Ready(s, sid) && s.pcs[sid].UserRecord?
    ensures NamesMove(s, GoUser(s, sid, s.pcs[sid]), sid)
  {}

  lemma UserNoteMoves(s: Net, sid: Sid)
    requires Ready(s, sid) && (s.pcs[sid].UserNote? || s.pcs[sid].UserNoteBack?)
    ensures NamesMove(s, GoUser(s, sid, s.pcs[sid]), sid)
  {}

  lemma UserDeliverMoves(s: Net, sid: Sid)
    requires Ready(s, sid) && s.pcs[sid].UserDeliver?
    ensures NamesMove(s, GoUser(s, sid, s.pcs[sid]), sid)
  {
    var UserDeliver(m, found) := s.pcs[sid];
    DeliveryMoves(s, GoUser(s, sid, s.pcs[sid]), sid, m.to, found, m, Idle);
  }

  /** One delivery, to somebody registered. */
  lemma DeliveryMoves(s: Net, s': Net, sid: Sid, name: string, found: Option<Sid>, f: Message, pc: Pc)
    requires s' == At(DeliverOne(s, name, found, f), sid, pc) && name in s.users
    requires NamesHeld(s, pc) && SessionHolds(s, sid, pc) && !pc.LoginClaim?
    ensures NamesMove(s, s', sid)
  {}

  lemma RoomFindMoves(s: Net, sid: Sid, pick: string)
    requires Ready(s, sid) && (s.pcs[sid].RoomExists? || s.pcs[sid].RoomMembers?)
    requires forall r | r in s.rooms :: s.rooms[r] <= s.users.Keys
    ensures NamesMove(s, GoRoom(s, sid, s.pcs[sid], pick), sid)
  {
    var s' := GoRoom(s, sid, s.pcs[sid], pick);
    StandMoves(s, s', sid, s'.pcs[sid]);
  }

  lemma RoomRecordMoves(s: Net, sid: Sid, pick: string)
    requires Ready(s, sid) && s.pcs[sid].RoomRecord?
    ensures NamesMove(s, GoRoom(s, sid, s.pcs[sid], pick), sid)
  {}

  lemma RoomNextMoves(s: Net, sid: Sid, pick: string)
    requires Ready(s, sid) && s.pcs[sid].RoomNext?
    ensures NamesMove(s, GoRoom(s, sid, s.pcs[sid], pick), sid)
  {
    var s' := GoRoom(s, sid, s.pcs[sid], pick);
    StandMoves(s, s', sid, s'.pcs[sid]);
  }

  lemma RoomGotMoves(s: Net, sid: Sid, pick: string)
    requires Ready(s, sid) && s.pcs[sid].RoomGot?
    ensures NamesMove(s, GoRoom(s, sid, s.pcs[sid], pick), sid)
  {
    var RoomGot(m, shares, name, found, left) := s.pcs[sid];
    var s', copy := GoRoom(s, sid, s.pcs[sid], pick), AddressedTo(m, shares, name);
    if copy.None? {
      StandMoves(s, s', sid, RoomNext(m, shares, left));
    } else {
      DeliveryMoves(s, s', sid, name, found, copy.value, RoomNext(m, shares, left));
    }
  }

  lemma JoinMoves(s: Net, sid: Sid)
    requires Ready(s, sid) && (s.pcs[sid].CreateJoin? || s.pcs[sid].AddJoin? || s.pcs[sid].JoinJoin?)
    requires forall r | r in s.rooms :: s.rooms[r] <= s.users.Keys
    requires forall t | t in s.who :: s.who[t] in s.users
    ensures NamesMove(s, GoKeeping(s, sid, s.pcs[sid]), sid)
  {
    var pc, s' := s.pcs[sid], GoKeeping(s, sid, s.pcs[sid]);
    if pc.AddJoin? {
      EntryMoves(s, s', sid, pc.room, pc.name, s'.pcs[sid]);
    } else if sid in s.who {
      EntryMoves(s, s', sid, pc.room, s.who[sid], s'.pcs[sid]);
    } else {
      StandMoves(s, s', sid, Idle);
    }
  }

  /** Somebody registered enters a room. */
  lemma EntryMoves(s: Net, s': Net, sid: Sid, room: string, user: string, pc: Pc)
    requires s' == At(s.(rooms := JoinTo(s.rooms, room, user)), sid, pc) && user in s.users
    requires NamesHeld(s, pc) && SessionHolds(s, sid, pc) && !pc.LoginClaim? && forall r | r in s.rooms :: s.rooms[r] <= s.users.Keys
    ensures NamesMove(s, s', sid)
  {}

  lemma CheckMoves(s: Net, sid: Sid)
    requires Ready(s, sid) && s.pcs[sid].AddCheck?
    ensures NamesMove(s, GoKeeping(s, sid, s.pcs[sid]), sid)
  {
    CheckIs(s, sid);
    StandMoves(s, GoKeeping(s, sid, s.pcs[sid]), sid, AfterCheck(s, s.pcs[sid]));
  }

  /** A step that changes nothing but where the thread stands. */
  lemma StandMoves(s: Net, s': Net, sid: Sid, pc: Pc)
    requires s' == At(s, sid, pc) && NamesHeld(s, pc) && SessionHolds(s, sid, pc) && !pc.LoginClaim?
    ensures NamesMove(s, s', sid)
  {}

  lemma InviteMoves(s: Net, sid: Sid)
    requires Ready(s, sid) && s.pcs[sid].InviteCheck?
    ensures NamesMove(s, GoKeeping(s, sid, s.pcs[sid]), sid)
  {
    var s' := GoKeeping(s, sid, s.pcs[sid]);
    StandMoves(s, s', sid, s'.pcs[sid]);
  }

  lemma LeaveMoves(s: Net, sid: Sid)
    requires Ready(s, sid) && (s.pcs[sid].LeaveLeave? || s.pcs[sid].ContactAdd?)
    requires forall r | r in s.rooms :: s.rooms[r] <= s.users.Keys
    requires forall t | t in s.who :: s.who[t] in s.users
    ensures NamesMove(s, GoKeeping(s, sid, s.pcs[sid]), sid)
  {}

  lemma GoingMoves(s: Net, sid: Sid, pick: string)
    requires Registered(s) && Ready(s, sid) && !s.pcs[sid].Idle? && !s.pcs[sid].Closed?
    requires var pc := s.pcs[sid]; !pc.LoginClaim? && !pc.LoginName? && !pc.DropLogout? && !pc.DropName?
    ensures NamesMove(s, Going(s, sid, pick), sid)
  {
    var pc := s.pcs[sid];
    if AtLogin(pc) { FlushMoves(s, sid); }
    else if pc.UserLookup? || pc.UserExists? { UserFindMoves(s, sid); }
    else if pc.UserRecord? { UserRecordMoves(s, sid); }
    else if pc.UserDeliver? { UserDeliverMoves(s, sid); }
    else if AtUser(pc) { UserNoteMoves(s, sid); }
    else if pc.RoomNext? { RoomNextMoves(s, sid, pick); }
    else if pc.RoomGot? { RoomGotMoves(s, sid, pick); }
    else if pc.RoomRecord? { RoomRecordMoves(s, sid, pick); }
    else if AtRoom(pc) { RoomFindMoves(s, sid, pick); }
    else if pc.InviteCheck? { InviteMoves(s, sid); }
    else if pc.AddCheck? { CheckMoves(s, sid); }
    else if pc.LeaveLeave? || pc.ContactAdd? { LeaveMoves(s, sid); }
    else { JoinMoves(s, sid); }
  }

  lemma GoingHolds(s: Net, sid: Sid, pick: string)
    requires Holds(s) && Enabled(s, Go(sid, pick))
    ensures Holds(Going(s, sid, pick))
  {
    var pc, s' := s.pcs[sid], Going(s, sid, pick);
    assert SessionHolds(s, sid, pc) && NamesHeld(s, pc);
    if pc.LoginClaim? || pc.LoginName? || pc.DropLogout? || pc.DropName? {
      PeopleGoing(s, sid);
    } else {
      GoingMoves(s, sid, pick);
      SessionsStay(s, s', sid, s'.pcs[sid]);
      RegisteredMoves(s, s', sid, s'.pcs[sid]);
    }
  }

  lemma StepHolds(s: Net, e: Event)
    requires Holds(s)
    ensures Holds(I.Next(s, e))
  {
    if Enabled(s, e) {
      match e
      case Connect(sid) =>
        SessionsStay(s, I.Next(s, e), sid, Idle);
        RegisteredMoves(s, I.Next(s, e), sid, Idle);
      case Hear(sid, r) => HearingHolds(s, sid, r);
      case Hang(sid) =>
        var pc := I.Next(s, e).pcs[sid];
        assert SessionHolds(s, sid, s.pcs[sid]);
        SessionsStay(s, I.Next(s, e), sid, pc);
        RegisteredMoves(s, I.Next(s, e), sid, pc);
      case Go(sid, pick) => GoingHolds(s, sid, pick);
    }
  }

  /** Global invariants of every interleaved run: each name is held by at most one
      session and each session by at most one name; registry and session agree outside
      the login and disconnect windows; room members, queued users and both sides of
      every contact are registered; no registered name is empty or a room's; nobody is
      their own contact; and every queued id has a stored row its user can read. */
  lemma {:induction false} EveryRunHolds(events: seq<Event>)
    ensures var s := I.Run(QUIET_NET, events);
      && Holds(s)
      && (forall k | k in s.store.pending :: Ledgers.Makes(s.store.table, k.0, k.1))
      && (forall u, v | u in s.online && v in s.online && s.online[u] == s.online[v] :: u == v)
  {
    RunHolds(events);
    Ledgers.RunsAreSound(events);
    var s := I.Run(QUIET_NET, events);
    forall u, v | u in s.online && v in s.online && s.online[u] == s.online[v] ensures u == v { OneNameEach(s, u, v); }
  }

  lemma {:induction false} RunHolds(events: seq<Event>)
    ensures Holds(I.Run(QUIET_NET, events))
  {
    if events != [] {
      RunHolds(events[..|events| - 1]);
      StepHolds(I.Run(QUIET_NET, events[..|events| - 1]), events[|events| - 1]);
    }
  }
}
