/** Who may see what: every history entry ever sent belongs to a room its reader is in,
    or to a direct message its reader sent or received. */
module Visibility {
  import opened Text
  import opened Sorting
  import opened Messages
  import opened Hub
  import opened Replica
  import opened Mail
  import opened Absences
  import opened AbsenceRuns
  import Receipts

  /** A name that can be registered and holds no pair separator. */
  predicate GoodName(u: string) {
    u != "" && !IsRoom(u) && PAIR_SEPARATOR !in u
  }

  /** Registered names hold no U+001F; the code relies on it without checking. */
  ghost predicate NamesHold(s: Step) {
    s.Act? && s.request.Register? ==> PAIR_SEPARATOR !in s.request.user
  }

  ghost predicate NamesHoldRun(steps: seq<Step>) {
    forall i | 0 <= i < |steps| :: NamesHold(steps[i])
  }

  /** A row is keyed by its room, or by its two parties. */
  ghost predicate WellKeyed(row: Row) {
    if IsRoom(row.recipient) then row.conversation == row.recipient
    else GoodName(row.sender) && GoodName(row.recipient) && row.conversation == DirectConversation(row.sender, row.recipient)
  }

  ghost predicate Keyed(h: Hub) {
    && Registry(h)
    && (forall u | u in h.users :: GoodName(u))
    && (forall u | u in h.online :: u in h.users)
    && (forall i | 0 <= i < |h.store.table| :: WellKeyed(h.store.table[i]))
  }

  // ------------------------------------------------------------- preservation

  lemma RoomRequestUsers(h: Hub, sid: Sid, me: string, r: Request)
    requires r.CreateRoom? || r.Invite? || r.Join? || r.Leave?
    ensures Serve(h, sid, me, r).users == h.users
  {
    if r.CreateRoom? || r.Invite? { AddingUsers(h, sid, me, r.room, r.members); }
    else if r.Join? { assert DoJoin(h, sid, me, r.room).users == h.users; }
    else { assert DoLeave(h, sid, me, r.room).users == h.users; }
  }

  lemma AddingUsers(h: Hub, sid: Sid, me: string, room: string, names: seq<string>)
    ensures DoCreateRoom(h, sid, me, room, names).users == h.users && DoInvite(h, sid, me, room, names).users == h.users
  {}

  lemma ServeUsers(h: Hub, sid: Sid, me: string, r: Request)
    requires !r.Send? && !r.Ping? && !r.Register? && !r.Login?
    ensures Serve(h, sid, me, r).users == h.users
  {
    if r.CreateRoom? || r.Invite? || r.Join? || r.Leave? { RoomRequestUsers(h, sid, me, r); }
  }

  lemma SendUsers(h: Hub, sid: Sid, me: string, r: Request)
    requires r.Send?
    ensures DoSend(h, sid, me, r).users == h.users
  {
    var m := Accepted(me, r);
    assert ToRoom(h, m, r.shares).users == h.users;
    assert ToUser(h, m).users == h.users;
  }

  lemma IdleKeyed(h: Hub, h': Hub)
    requires Keyed(h) && Idle(h, h') && Registry(h')
    requires forall u | u in h'.users :: GoodName(u)
    requires forall u | u in h.users :: u in h'.users
    ensures Keyed(h')
  {}

  lemma SendKeyed(h: Hub, sid: Sid, r: Request)
    requires Keyed(h) && sid in h.who && r.Send? && Refusal(h, h.who[sid], r.to).None?
    requires Registry(DoSend(h, sid, h.who[sid], r))
    ensures Keyed(DoSend(h, sid, h.who[sid], r))
  {
    var me := h.who[sid];
    SendStores(h, sid, me, r);
    SendUsers(h, sid, me, r);
    assert me in h.online && me in h.users;
    AcceptedIsKeyed(h, me, r);
    RecordKeyed(h, DoSend(h, sid, me, r), RowOf(Accepted(me, r), SharesOf(r)));
  }

  lemma AcceptedIsKeyed(h: Hub, me: string, r: Request)
    requires Keyed(h) && me in h.users && r.Send? && Refusal(h, me, r.to).None?
    ensures WellKeyed(RowOf(Accepted(me, r), SharesOf(r)))
  {}

  lemma RecordKeyed(h: Hub, h': Hub, row: Row)
    requires Keyed(h) && WellKeyed(row) && Registry(h')
    requires h'.users == h.users && h'.online == h.online && h'.store.table == Record(h.store, row).table
    ensures Keyed(h')
  {}

  lemma LoginKeyed(h: Hub, sid: Sid, user: string, pass: string)
    requires Keyed(h) && Registry(DoLogin(h, sid, user, pass))
    ensures Keyed(DoLogin(h, sid, user, pass))
  {
    if LoginRefused(h, sid, user, pass) {
      RefusedLoginIsIdle(h, sid, user, pass);
      IdleKeyed(h, DoLogin(h, sid, user, pass));
    } else {
      WelcomeHands(h, sid, user);
      var h3 := Announce(Greet(Claim(h, sid, user), sid, user), user, true);
      assert h3.users == h.users && FlushPending(h3, sid, user).online == h3.online;
    }
  }

  lemma StepKeyed(h: Hub, s: Step)
    requires Keyed(h) && NamesHold(s) && Registry(Next(h, s))
    ensures Keyed(Next(h, s))
  {
    if s.Drop? {
      DropIsIdle(h, s.sid);
      IdleKeyed(h, Next(h, s));
    } else if s.request.Login? {
      LoginKeyed(h, s.sid, s.request.user, s.request.pass);
    } else if s.sid in h.who && s.request.Send? && Refusal(h, h.who[s.sid], s.request.to).None? {
      SendKeyed(h, s.sid, s.request);
    } else {
      OtherStepIsIdle(h, s);
      OtherStepUsers(h, s);
      IdleKeyed(h, Next(h, s));
    }
  }

  lemma OtherStepUsers(h: Hub, s: Step)
    requires s.Act? && !s.request.Login? && NamesHold(s)
    ensures forall u | u in h.users :: u in Next(h, s).users
    ensures forall u | u in Next(h, s).users :: u in h.users || GoodName(u)
  {
    var r := s.request;
    if s.sid in h.who && r.Send? {
      SendUsers(h, s.sid, h.who[s.sid], r);
    } else if s.sid in h.who && !r.Ping? && !r.Register? {
      ServeUsers(h, s.sid, h.who[s.sid], r);
    }
  }

  /** The hub as it starts: nobody online, names and rows well formed. */
  ghost predicate KeyedBoot(h: Hub) {
    NobodyConnected(h) && Keyed(h)
  }

  lemma {:induction false} RowsStayKeyed(h: Hub, steps: seq<Step>)
    requires KeyedBoot(h) && NamesHoldRun(steps)
    ensures Keyed(Run(h, steps))
  {
    if steps != [] {
      var front := steps[..|steps| - 1];
      assert forall i | 0 <= i < |front| :: front[i] == steps[i];
      RowsStayKeyed(h, front);
      RegistryHolds(h, steps);
      StepKeyed(Run(h, front), steps[|steps| - 1]);
    }
  }

  // ---------------------------------------------------------------- visibility

  /** What a reader may see of a row: a room they are in, or their own direct messages. */
  ghost predicate MaySee(h: Hub, reader: string, row: Row) {
    if IsRoom(row.recipient) then reader in Members(h, row.recipient)
    else row.sender == reader || row.recipient == reader
  }

  /** The entry of a sealed row holds the reader's own share and no other. */
  ghost predicate OwnShareOnly(row: Row, reader: string, e: Entry) {
    row.nonce == Some(ENVELOPES) ==>
      row.body.Envelopes? && reader in row.body.shares && row.body.shares[reader].Share?
      && e.body == Text(row.body.shares[reader].body) && e.nonce == Some(row.body.shares[reader].nonce)
  }

  lemma {:induction false} EntriesComeFromRows(rows: seq<Row>, reader: string, e: Entry)
    ensures e in Entries(rows, reader) <==> exists row | row in rows :: HistoryEntry(row, reader) == Some(e)
  {
    if rows != [] {
      EntriesComeFromRows(rows[1..], reader, e);
      assert rows == [rows[0]] + rows[1..];
    }
  }

  lemma HistoryRows(table: seq<Row>, conversation: string, before: Option<int>, limit: int, row: Row)
    requires row in Messages.History(table, conversation, before, limit)
    ensures row in table && row.conversation == conversation
  {
    var keys := HistoryKeys(table, conversation, before, limit);
    var k :| 0 <= k < |keys| && Messages.History(table, conversation, before, limit)[k] == row;
    assert keys[k] in ConversationKeys(table, conversation, before);
  }

  /** A row stored under the key a reader asks by is one they may see. */
  lemma KeyGrantsSight(h: Hub, reader: string, target: string, row: Row)
    requires GoodName(reader) && target != "" && WellKeyed(row)
    requires row.conversation == ConversationFor(reader, target)
    requires IsRoom(target) ==> reader in Members(h, target)
    ensures MaySee(h, reader, row)
    ensures IsRoom(target) ==> row.recipient == target
    ensures !IsRoom(target) ==> {row.sender, row.recipient} == {reader, target}
  {
    if IsRoom(row.recipient) {
      if !IsRoom(target) { DirectKeyIsNoRoom(reader, target); }
    } else {
      DirectKeyIsNoRoom(row.sender, row.recipient);
      DirectConversationInjective(row.sender, row.recipient, reader, target);
      assert row.sender in {reader, target} && row.recipient in {reader, target} && reader in {row.sender, row.recipient};
    }
  }

  /** A row that accounts for an entry: the reader may see it, and it shows only theirs. */
  ghost predicate AccountsFor(h: Hub, reader: string, row: Row, e: Entry) {
    HistoryEntry(row, reader) == Some(e) && MaySee(h, reader, row) && OwnShareOnly(row, reader, e)
  }

  /** History visibility: in every state a run reaches, each entry of the answer to any
      request comes from a stored row the reader may see at that moment, of the very
      conversation asked for, and a sealed row shows only the reader's own share. */
  lemma HistoryShowsOnlyYourOwn(h: Hub, steps: seq<Step>, sid: Sid, target: string, before: int, limit: int)
    requires KeyedBoot(h) && NamesHoldRun(steps)
    ensures var now := Run(h, steps);
      sid in now.who ==> ShowsOnlyTheirOwn(now, now.who[sid], HistoryReply(now, now.who[sid], target, before, limit))
  {
    RowsStayKeyed(h, steps);
    var now := Run(h, steps);
    if sid in now.who { AnswerShowsOnlyYourOwn(now, now.who[sid], target, before, limit); }
  }

  ghost predicate ShowsOnlyTheirOwn(h: Hub, reader: string, reply: Frame) {
    reply.HistoryResult? ==> forall e | e in reply.entries :: exists row | row in h.store.table :: AccountsFor(h, reader, row, e)
  }

  lemma AnswerShowsOnlyYourOwn(h: Hub, reader: string, target: string, before: int, limit: int)
    requires Keyed(h) && reader in h.users
    ensures ShowsOnlyTheirOwn(h, reader, HistoryReply(h, reader, target, before, limit))
  {
    var reply := HistoryReply(h, reader, target, before, limit);
    if reply.HistoryResult? {
      var rows := Messages.History(h.store.table, ConversationFor(reader, target),
        if before == 0 then None else Some(before), if limit == 0 then DEFAULT_LIMIT else limit);
      forall e | e in reply.entries ensures exists row | row in h.store.table :: AccountsFor(h, reader, row, e) {
        EntriesComeFromRows(rows, reader, e);
        var row :| row in rows && HistoryEntry(row, reader) == Some(e);
        HistoryRows(h.store.table, ConversationFor(reader, target),
          if before == 0 then None else Some(before), if limit == 0 then DEFAULT_LIMIT else limit, row);
        KeyGrantsSight(h, reader, target, row);
        assert AccountsFor(h, reader, row, e);
      }
    }
  }

  // ------------------------------------------------------------------- accounts

  lemma StepKeepsAccounts(h: Hub, s: Step, u: string)
    requires u in h.users
    ensures u in Next(h, s).users && Next(h, s).users[u] == h.users[u]
  {
    if s.Act? {
      var r := s.request;
      if r.Login? {
        LoginUsers(h, s.sid, r.user, r.pass);
      } else if s.sid in h.who && r.Send? {
        SendUsers(h, s.sid, h.who[s.sid], r);
      } else if s.sid in h.who && !r.Ping? && !r.Register? {
        ServeUsers(h, s.sid, h.who[s.sid], r);
      }
    }
  }

  lemma LoginUsers(h: Hub, sid: Sid, user: string, pass: string)
    ensures DoLogin(h, sid, user, pass).users == h.users
  {
    if sid in h.who || user == "" || pass == "" || !Verify(h, user, pass) || user in h.online {
      RefusedUsers(h, sid, user, pass);
    } else {
      var h3 := Announce(Greet(Claim(h, sid, user), sid, user), user, true);
      WelcomeUsers(h, sid, user);
      FlushUsers(h3, sid, user);
    }
  }

  lemma RefusedUsers(h: Hub, sid: Sid, user: string, pass: string)
    requires sid in h.who || user == "" || pass == "" || !Verify(h, user, pass) || user in h.online
    ensures DoLogin(h, sid, user, pass).users == h.users
  {}

  lemma WelcomeUsers(h: Hub, sid: Sid, user: string)
    ensures Announce(Greet(Claim(h, sid, user), sid, user), user, true).users == h.users
  {}

  lemma FlushUsers(h: Hub, sid: Sid, user: string)
    ensures FlushPending(h, sid, user).users == h.users
  {}

  /** Nobody's account is ever replaced: over every run a registered name keeps its
      credential, and the key handed out for it stays the one it registered with. */
  lemma {:induction false} AccountsNeverChange(h: Hub, steps: seq<Step>, u: string)
    requires u in h.users
    ensures u in Run(h, steps).users && Run(h, steps).users[u] == h.users[u]
    ensures KeyReply(Run(h, steps), u) == KeyReply(h, u)
  {
    if steps != [] {
      AccountsNeverChange(h, steps[..|steps| - 1], u);
      StepKeepsAccounts(Run(h, steps[..|steps| - 1]), steps[|steps| - 1], u);
    }
  }
}
