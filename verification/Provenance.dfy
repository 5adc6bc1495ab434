/** Nothing is forged: over every interleaved run, each stored message, and so each
    message any session is sent, was asked for by a session logged in as its sender. */
module Provenance {
  import opened Text
  import opened Messages
  import opened Hub
  import opened Mail
  import opened Ledgers
  import opened I = Interleaving
  import Accounting
  import Authenticity

  /** The row of the message an event makes the server hear, if it does. */
  function HeardNow(s: Net, e: Event): set<Row> {
    if e.Hear? && e.request.Send? && e.sid in s.who
    then {RowOf(Accepted(s.who[e.sid], e.request), SharesOf(e.request))} else {}
  }

  /** The row of every message heard over a run, under the name its session then had. */
  function AllHeard(events: seq<Event>): set<Row> {
    if events == [] then {} else
      var front := events[..|events| - 1];
      AllHeard(front) + HeardNow(I.Run(QUIET_NET, front), events[|events| - 1])
  }

  /** The row a thread's message is, or will be, stored as. */
  function RowAt(pc: Pc): Option<Row> {
    if MessageOf(pc).Some? then Some(RowOf(MessageOf(pc).value, SharesIn(pc))) else None
  }

  ghost predicate Genuine(s: Net, heard: set<Row>) {
    && (forall row | row in s.store.table :: row in heard)
    && (forall t | t in s.pcs && RowAt(s.pcs[t]).Some? :: RowAt(s.pcs[t]).value in heard)
  }

  /** Thread sid moves with the message it had, storing that one at most. */
  ghost predicate StoresOwn(s: Net, s': Net, sid: Sid)
    requires sid in s.pcs
  {
    && sid in s'.pcs && s'.pcs == s.pcs[sid := s'.pcs[sid]]
    && (RowAt(s'.pcs[sid]).Some? ==> RowAt(s'.pcs[sid]) == RowAt(s.pcs[sid]))
    && forall row | row in s'.store.table :: row in s.store.table || Some(row) == RowAt(s.pcs[sid])
  }

  lemma OwnIsGenuine(s: Net, s': Net, sid: Sid, heard: set<Row>)
    requires sid in s.pcs && Genuine(s, heard) && StoresOwn(s, s', sid)
    ensures Genuine(s', heard)
  {}

  lemma LoginStores(s: Net, sid: Sid)
    requires sid in s.pcs && AtLogin(s.pcs[sid])
    ensures StoresOwn(s, GoLogin(s, sid, s.pcs[sid]), sid)
  {}

  lemma FindingStoresOwn(s: Net, sid: Sid)
    requires sid in s.pcs && (s.pcs[sid].UserLookup? || s.pcs[sid].UserExists?)
    ensures StoresOwn(s, GoUser(s, sid, s.pcs[sid]), sid)
  {}

  lemma NotingStoresOwn(s: Net, sid: Sid)
    requires sid in s.pcs && (s.pcs[sid].UserNote? || s.pcs[sid].UserNoteBack? || s.pcs[sid].UserDeliver?)
    ensures StoresOwn(s, GoUser(s, sid, s.pcs[sid]), sid)
  {}

  lemma RecordStoresOwn(s: Net, sid: Sid)
    requires sid in s.pcs && s.pcs[sid].UserRecord?
    ensures StoresOwn(s, GoUser(s, sid, s.pcs[sid]), sid)
  {}

  lemma RoomStoresOwn(s: Net, sid: Sid, pick: string)
    requires sid in s.pcs && (s.pcs[sid].RoomExists? || s.pcs[sid].RoomMembers?)
    ensures StoresOwn(s, GoRoom(s, sid, s.pcs[sid], pick), sid)
  {}

  lemma RoomRecordStoresOwn(s: Net, sid: Sid, pick: string)
    requires sid in s.pcs && s.pcs[sid].RoomRecord?
    ensures StoresOwn(s, GoRoom(s, sid, s.pcs[sid], pick), sid)
  {}

  lemma FanOutStoresOwn(s: Net, sid: Sid, pick: string)
    requires sid in s.pcs && (s.pcs[sid].RoomGot? || s.pcs[sid].RoomNext?)
    ensures StoresOwn(s, GoRoom(s, sid, s.pcs[sid], pick), sid)
  {
    Accounting.FanOutMoves(s, sid, pick);
  }

  lemma GoingIsGenuine(s: Net, sid: Sid, pick: string, heard: set<Row>)
    requires Genuine(s, heard) && Enabled(s, Go(sid, pick))
    ensures Genuine(Going(s, sid, pick), heard)
  {
    var pc := s.pcs[sid];
    if AtLogin(pc) {
      LoginStores(s, sid);
    } else if AtUser(pc) {
      if pc.UserRecord? { RecordStoresOwn(s, sid); }
      else if pc.UserLookup? || pc.UserExists? { FindingStoresOwn(s, sid); }
      else { NotingStoresOwn(s, sid); }
    } else if pc.RoomGot? || pc.RoomNext? {
      FanOutStoresOwn(s, sid, pick);
    } else if pc.RoomRecord? {
      RoomRecordStoresOwn(s, sid, pick);
    } else if AtRoom(pc) {
      RoomStoresOwn(s, sid, pick);
    } else {
      Accounting.KeepingMoves(s, Going(s, sid, pick), sid, pick);
    }
    OwnIsGenuine(s, Going(s, sid, pick), sid, heard);
  }

  lemma HearingIsGenuine(s: Net, sid: Sid, r: Request, heard: set<Row>)
    requires Genuine(s, heard) && HeardNow(s, Hear(sid, r)) <= heard && Enabled(s, Hear(sid, r))
    ensures Genuine(Hearing(s, sid, r), heard)
  {
    if !(r.Send? && sid in s.who) { HearingMoves(s, sid, r); }
  }

  lemma StepIsGenuine(s: Net, e: Event, heard: set<Row>)
    requires Genuine(s, heard) && HeardNow(s, e) <= heard
    ensures Genuine(I.Next(s, e), heard)
  {
    if Enabled(s, e) {
      match e
      case Connect(sid) =>
      case Hear(sid, r) => HearingIsGenuine(s, sid, r, heard);
      case Hang(sid) =>
      case Go(sid, pick) => GoingIsGenuine(s, sid, pick, heard);
    }
  }

  lemma {:induction false} RunsAreGenuine(events: seq<Event>)
    ensures Genuine(I.Run(QUIET_NET, events), AllHeard(events))
  {
    if events != [] {
      var front := events[..|events| - 1];
      RunsAreGenuine(front);
      StepIsGenuine(I.Run(QUIET_NET, front), events[|events| - 1], AllHeard(events));
    }
  }

  /** The n-th event is a request to send exactly this message, by a session that is then
      logged in as its sender, and gave that sender's password before. */
  ghost predicate AskedAt(events: seq<Event>, n: nat, row: Row) {
    && n < |events| && events[n].Hear? && events[n].request.Send?
    && var s, sid := I.Run(QUIET_NET, events[..n]), events[n].sid;
       && sid in s.who && row == RowOf(Accepted(s.who[sid], events[n].request), SharesOf(events[n].request))
       && exists k: nat :: Authenticity.GaveAt(events[..n], k, sid, row.sender)
  }

  lemma {:induction false} HeardWasAsked(events: seq<Event>, row: Row)
    requires row in AllHeard(events)
    ensures exists n: nat :: AskedAt(events, n, row)
  {
    var last := |events| - 1;
    if row in AllHeard(events[..last]) {
      HeardWasAsked(events[..last], row);
      var n: nat :| AskedAt(events[..last], n, row);
      assert events[..last][..n] == events[..n];
      assert AskedAt(events, n, row);
    } else {
      Authenticity.NamesAreEarned(events[..last]);
      assert AskedAt(events, last, row);
    }
  }

  /** Nothing is forged: every stored message, and the stored message behind every MSG any
      session was ever sent, is one that a session asked to send that was logged in as its
      sender and had given the password that name registered with. */
  lemma NothingIsForged(events: seq<Event>)
    ensures var s := I.Run(QUIET_NET, events);
      && (forall row | row in s.store.table :: exists n: nat :: AskedAt(events, n, row))
      && (forall i | 0 <= i < |s.sent| :: Stands(s.store.table, s.sent[i]))
  {
    RunsAreGenuine(events);
    RunsAreSound(events);
    var s := I.Run(QUIET_NET, events);
    forall row | row in s.store.table ensures exists n: nat :: AskedAt(events, n, row) { HeardWasAsked(events, row); }
  }
}
