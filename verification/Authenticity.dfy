/** Over every interleaved run, whoever goes by a name gave its password. */
module Authenticity {
  import opened Text
  import opened Hub
  import opened I = Interleaving
  import G = GlobalInvariants
  import Chronicle

  /** The account of a name, told from the events: the first request heard that could
      register it. */
  function AccountIn(events: seq<Event>, u: string): Option<Account> {
    if events == [] then None else
      var front, e := events[..|events| - 1], events[|events| - 1];
      var before := AccountIn(front, u);
      if before.None? && Heard(front, e) && Chronicle.Registers(e.request, u)
      then Some(Account(e.request.pass, e.request.pubkey)) else before
  }

  /** A frame is read from a socket whose thread is free to handle it. */
  predicate Heard(front: seq<Event>, e: Event) {
    e.Hear? && Enabled(I.Run(QUIET_NET, front), e)
  }

  /** A session that goes by no name gives the password that a name registered with. */
  predicate GivesPassword(front: seq<Event>, e: Event, sid: Sid, u: string) {
    && Heard(front, e) && e.sid == sid && e.request.Login? && e.request.user == u && u != "" && e.request.pass != ""
    && AccountIn(front, u).Some? && AccountIn(front, u).value.pass == e.request.pass
    && sid !in I.Run(QUIET_NET, front).who
  }

  /** Every session with the names it gave the password of. */
  function Granted(events: seq<Event>): set<(Sid, string)> {
    if events == [] then {} else
      var front, e := events[..|events| - 1], events[|events| - 1];
      Granted(front) + if e.Hear? && e.request.Login? && GivesPassword(front, e, e.sid, e.request.user) then {(e.sid, e.request.user)} else {}
  }

  // -------------------------------------------------------------- every step

  ghost predicate Authentic(s: Net, granted: set<(Sid, string)>) {
    && (forall sid | sid in s.who :: (sid, s.who[sid]) in granted)
    && (forall u | u in s.online :: (s.online[u], u) in granted)
    && (forall sid | sid in s.pcs && s.pcs[sid].LoginClaim? :: (sid, s.pcs[sid].user) in granted)
  }

  /** A step that neither claims nor gives a name. */
  lemma StayingIsAuthentic(s: Net, s': Net, sid: Sid, granted: set<(Sid, string)>)
    requires Authentic(s, granted) && s'.online == s.online && s'.who == s.who
    requires sid in s'.pcs && s'.pcs == s.pcs[sid := s'.pcs[sid]] && !s'.pcs[sid].LoginClaim?
    ensures Authentic(s', granted)
  {}

  lemma ClaimIsAuthentic(s: Net, sid: Sid, granted: set<(Sid, string)>)
    requires Authentic(s, granted) && G.Sessions(s) && sid in s.pcs && (s.pcs[sid].LoginClaim? || s.pcs[sid].LoginName?)
    ensures Authentic(GoLogin(s, sid, s.pcs[sid]), granted)
  {
    assert G.SessionHolds(s, sid, s.pcs[sid]);
  }

  lemma DropIsAuthentic(s: Net, sid: Sid, granted: set<(Sid, string)>)
    requires Authentic(s, granted) && sid in s.pcs && (s.pcs[sid].DropLogout? || s.pcs[sid].DropName?)
    ensures Authentic(GoLogin(s, sid, s.pcs[sid]), granted)
  {}

  lemma GoingIsAuthentic(s: Net, sid: Sid, pick: string, granted: set<(Sid, string)>)
    requires Authentic(s, granted) && G.Holds(s) && Enabled(s, Go(sid, pick))
    ensures Authentic(Going(s, sid, pick), granted)
  {
    var pc := s.pcs[sid];
    assert G.SessionHolds(s, sid, pc) && G.NamesHeld(s, pc);
    if pc.LoginClaim? || pc.LoginName? {
      ClaimIsAuthentic(s, sid, granted);
    } else if pc.DropLogout? || pc.DropName? {
      DropIsAuthentic(s, sid, granted);
    } else {
      G.GoingMoves(s, sid, pick);
      StayingIsAuthentic(s, Going(s, sid, pick), sid, granted);
    }
  }

  lemma HearingIsAuthentic(s: Net, sid: Sid, r: Request, granted: set<(Sid, string)>)
    requires Authentic(s, granted) && G.Holds(s) && Enabled(s, Hear(sid, r)) && !r.Login? && !r.Register?
    ensures Authentic(Hearing(s, sid, r), granted)
  {
    if sid in s.who {
      assert G.SessionHolds(s, sid, s.pcs[sid]) && G.NamesHeld(s, s.pcs[sid]);
      G.AskingMoves(s, sid, s.who[sid], r);
      StayingIsAuthentic(s, Asking(s, sid, s.who[sid], r), sid, granted);
    }
  }

  lemma LoginIsAuthentic(s: Net, sid: Sid, r: Request, granted: set<(Sid, string)>)
    requires Authentic(s, granted) && Enabled(s, Hear(sid, r)) && (r.Login? || r.Register?)
    requires r.Login? && sid !in s.who && r.user != "" && r.pass != "" && r.user in s.users && s.users[r.user].pass == r.pass ==>
      (sid, r.user) in granted
    ensures Authentic(Hearing(s, sid, r), granted)
  {}

  // ------------------------------------------------------------------ accounts

  /** Only a request to register changes the accounts. */
  lemma StepUsers(s: Net, e: Event)
    requires G.Holds(s)
    ensures I.Next(s, e).users
         == if e.Hear? && Enabled(s, e) && e.request.Register? && Chronicle.Registers(e.request, e.request.user) && e.request.user !in s.users
            then s.users[e.request.user := Account(e.request.pass, e.request.pubkey)] else s.users
  {
    if Enabled(s, e) && e.Go? {
      GoingUsers(s, e.sid, e.pick);
    } else if Enabled(s, e) && e.Hear? && e.sid in s.who {
      assert G.SessionHolds(s, e.sid, s.pcs[e.sid]) && G.NamesHeld(s, s.pcs[e.sid]);
      G.AskingMoves(s, e.sid, s.who[e.sid], e.request);
    }
  }

  lemma GoingUsers(s: Net, sid: Sid, pick: string)
    requires G.Holds(s) && Enabled(s, Go(sid, pick))
    ensures Going(s, sid, pick).users == s.users
  {
    var pc := s.pcs[sid];
    assert G.SessionHolds(s, sid, pc) && G.NamesHeld(s, pc);
    if !(pc.LoginClaim? || pc.LoginName? || pc.DropLogout? || pc.DropName?) { G.GoingMoves(s, sid, pick); }
  }

  lemma {:induction false} AccountsAreTold(events: seq<Event>, u: string)
    ensures Chronicle.At(I.Run(QUIET_NET, events).users, u) == AccountIn(events, u)
  {
    if events != [] {
      var front, e := events[..|events| - 1], events[|events| - 1];
      AccountsAreTold(front, u);
      G.RunHolds(front);
      StepUsers(I.Run(QUIET_NET, front), e);
    }
  }

  // ------------------------------------------------------------------ every run

  lemma StepIsAuthentic(front: seq<Event>, e: Event, granted: set<(Sid, string)>)
    requires var s := I.Run(QUIET_NET, front); Authentic(s, granted) && G.Holds(s)
    requires e.Hear? && e.request.Login? && GivesPassword(front, e, e.sid, e.request.user) ==> (e.sid, e.request.user) in granted
    ensures Authentic(I.Next(I.Run(QUIET_NET, front), e), granted)
  {
    var s := I.Run(QUIET_NET, front);
    if Enabled(s, e) {
      match e
      case Connect(sid) =>
      case Hang(sid) =>
      case Go(sid, pick) => GoingIsAuthentic(s, sid, pick, granted);
      case Hear(sid, r) =>
        if r.Login? { AccountsAreTold(front, r.user); }
        if r.Login? || r.Register? { LoginIsAuthentic(s, sid, r, granted); } else { HearingIsAuthentic(s, sid, r, granted); }
    }
  }

  lemma {:induction false} RunsAreAuthentic(events: seq<Event>)
    ensures Authentic(I.Run(QUIET_NET, events), Granted(events))
  {
    if events != [] {
      var front, e := events[..|events| - 1], events[|events| - 1];
      RunsAreAuthentic(front);
      G.RunHolds(front);
      StepIsAuthentic(front, e, Granted(events));
    }
  }

  /** A session gave the password of a name at the n-th event. */
  ghost predicate GaveAt(events: seq<Event>, n: nat, sid: Sid, u: string) {
    n < |events| && GivesPassword(events[..n], events[n], sid, u)
  }

  lemma {:induction false} GrantedGave(events: seq<Event>, sid: Sid, u: string)
    requires (sid, u) in Granted(events)
    ensures exists n: nat :: GaveAt(events, n, sid, u)
  {
    var last := |events| - 1;
    if (sid, u) in Granted(events[..last]) {
      GrantedGave(events[..last], sid, u);
      var n: nat :| GaveAt(events[..last], n, sid, u);
      assert events[..last][..n] == events[..n];
      assert GaveAt(events, n, sid, u);
    } else {
      assert GaveAt(events, last, sid, u);
    }
  }

  /** Over every interleaving: whoever goes by a name, in the session or in the registry,
      gave the password that the name first registered with, at a moment when the session
      went by none. */
  lemma NamesAreEarned(events: seq<Event>)
    ensures var s := I.Run(QUIET_NET, events);
      && (forall sid | sid in s.who :: exists n: nat :: GaveAt(events, n, sid, s.who[sid]))
      && (forall u | u in s.online :: exists n: nat :: GaveAt(events, n, s.online[u], u))
  {
    RunsAreAuthentic(events);
    var s := I.Run(QUIET_NET, events);
    forall sid | sid in s.who ensures exists n: nat :: GaveAt(events, n, sid, s.who[sid]) { GrantedGave(events, sid, s.who[sid]); }
    forall u | u in s.online ensures exists n: nat :: GaveAt(events, n, s.online[u], u) { GrantedGave(events, s.online[u], u); }
  }
}
