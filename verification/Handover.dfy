/** What was accepted is handed over: stored rows outlive every step, and whoever is owed
    a message has been handed it whenever they are online again. */
module Handover {
  import opened Text
  import opened Sorting
  import opened Messages
  import opened Hub
  import opened Replica
  import opened Mail
  import opened Absences
  import opened AbsenceRuns
  import Receipts
  import History

  // ------------------------------------------------------------------ rows persist

  /** Rows are added at the end; those that were there differ in their stamps at most. */
  ghost predicate Grown(t: seq<Row>, t': seq<Row>) {
    |t| <= |t'| && forall i | 0 <= i < |t| :: Receipts.SameButStamps(t'[i], t[i])
  }

  /** A step that lets nobody in: rows grow, the queue grows. */
  ghost predicate OnlyAdds(h: Hub, h': Hub) {
    && Grown(h.store.table, h'.store.table) && h.store.pending <= h'.store.pending
    && forall u | u in h'.online :: u in h.online
  }

  lemma DirectAdds(h: Hub, m: Frame)
    requires m.Msg?
    ensures OnlyAdds(h, ToUser(h, m))
  {
    var h1 := h.(store := Record(h.store, RowOf(m, None)));
    NotingAdds(h1, m.sender, m.to);
    NotingAdds(NoteContact(h1, m.sender, m.to), m.to, m.sender);
  }

  lemma NotingAdds(h: Hub, owner: string, other: string)
    ensures NoteContact(h, owner, other).store == h.store && NoteContact(h, owner, other).online == h.online
  {}

  lemma RoomAdds(h: Hub, m: Frame, shares: Option<map<string, Share>>)
    requires m.Msg?
    ensures OnlyAdds(h, ToRoom(h, m, shares))
  {}

  lemma SendAdds(h: Hub, sid: Sid, me: string, r: Request)
    requires r.Send?
    ensures OnlyAdds(h, DoSend(h, sid, me, r))
  {
    if Refusal(h, me, r.to).Some? {
      IdleSend(h, sid, Error(Refusal(h, me, r.to).value));
    } else if IsRoom(r.to) {
      RoomAdds(h, Accepted(me, r), r.shares);
    } else {
      DirectAdds(h, Accepted(me, r));
    }
  }

  /** Letting a user in: their queue is handed to their session, and nothing else moves. */
  ghost predicate LetsIn(h: Hub, h': Hub, user: string) {
    && user !in h.online && h'.store == Unqueued(h.store, user)
    && h'.online.Keys == h.online.Keys + {user}
    && Inbox(h', h'.online[user]) == Inbox(h, h'.online[user]) + FlushFrames(Flushed(h.store, user), user)
  }

  lemma FlushLetsIn(h: Hub, h3: Hub, sid: Sid, user: string)
    requires user !in h.online && NoMail(h, h3) && h3.store == h.store && h3.online == h.online[user := sid]
    ensures LetsIn(h, FlushPending(h3, sid, user), user)
  {
    MailOfFlush(h3, sid, user, sid);
  }

  lemma WelcomeLetsIn(h: Hub, sid: Sid, user: string)
    requires user !in h.online
    ensures LetsIn(h, FlushPending(Announce(Greet(Claim(h, sid, user), sid, user), user, true), sid, user), user)
  {
    WelcomeHands(h, sid, user);
    FlushLetsIn(h, Announce(Greet(Claim(h, sid, user), sid, user), user, true), sid, user);
  }

  lemma LoginAddsOrLetsIn(h: Hub, sid: Sid, user: string, pass: string)
    ensures OnlyAdds(h, DoLogin(h, sid, user, pass)) || LetsIn(h, DoLogin(h, sid, user, pass), user)
  {
    if LoginRefused(h, sid, user, pass) {
      RefusedLoginIsIdle(h, sid, user, pass);
    } else {
      WelcomeLetsIn(h, sid, user);
    }
  }

  /** Every step but a login adds at most. */
  lemma StepAdds(h: Hub, s: Step)
    requires !(s.Act? && s.request.Login?)
    ensures OnlyAdds(h, Next(h, s))
  {
    if s.Drop? {
      DropIsIdle(h, s.sid);
    } else if s.sid in h.who && s.request.Send? {
      SendAdds(h, s.sid, h.who[s.sid], s.request);
    } else {
      OtherStepIsIdle(h, s);
    }
  }

  lemma StepGrows(h: Hub, s: Step)
    ensures Grown(h.store.table, Next(h, s).store.table)
  {
    if s.Act? && s.request.Login? {
      LoginAddsOrLetsIn(h, s.sid, s.request.user, s.request.pass);
    } else {
      StepAdds(h, s);
    }
  }

  /** Stored rows persist over every run, where they are, up to their stamps. */
  lemma {:induction false} RowsPersist(h: Hub, steps: seq<Step>)
    ensures Grown(h.store.table, Run(h, steps).store.table)
  {
    if steps != [] {
      RowsPersist(h, steps[..|steps| - 1]);
      StepGrows(Run(h, steps[..|steps| - 1]), steps[|steps| - 1]);
    }
  }

  // --------------------------------------------------------- nobody is passed over

  /** A message waits for a user who is away: its row, and their place in the queue. */
  ghost predicate Waits(h: Hub, u: string, i: nat, f: Frame) {
    && i < |h.store.table| && FlushFrame(h.store.table[i], u) == Some(f)
    && (h.store.table[i].id, u) in h.store.pending && u !in h.online
  }

  lemma AddingWaits(h: Hub, h': Hub, u: string, i: nat, f: Frame)
    requires Waits(h, u, i, f) && OnlyAdds(h, h')
    ensures Waits(h', u, i, f)
  {
    StampsChangeNoFrame(h'.store.table[i], h.store.table[i], u);
  }

  lemma {:induction false} FlushHolds(rows: seq<Row>, u: string, k: nat, f: Frame)
    requires k < |rows| && FlushFrame(rows[k], u) == Some(f)
    ensures f in FlushFrames(rows, u)
  {
    if k > 0 { FlushHolds(rows[1..], u, k - 1, f); }
  }

  lemma QueuedIsFlushed(st: Store, u: string, i: nat, f: Frame)
    requires i < |st.table| && FlushFrame(st.table[i], u) == Some(f) && (st.table[i].id, u) in st.pending
    ensures f in FlushFrames(Flushed(st, u), u)
  {
    var keys := FlushKeys(st, u);
    assert (st.table[i].ts, i) in QueuedKeys(st, u);
    assert (st.table[i].ts, i) in Elements(keys);
    var k :| 0 <= k < |keys| && keys[k] == (st.table[i].ts, i);
    assert Flushed(st, u)[k] == st.table[i];
    FlushHolds(Flushed(st, u), u, k, f);
  }

  lemma LettingInWaits(h: Hub, h': Hub, user: string, u: string, i: nat, f: Frame)
    requires Waits(h, u, i, f) && LetsIn(h, h', user)
    ensures Waits(h', u, i, f) || f in NewMail(h, h', u)
  {
    if u == user { QueuedIsFlushed(h.store, u, i, f); }
  }

  lemma StepWaits(h: Hub, s: Step, u: string, i: nat, f: Frame)
    requires Waits(h, u, i, f)
    ensures Waits(Next(h, s), u, i, f) || f in NewMail(h, Next(h, s), u)
  {
    var h' := Next(h, s);
    if s.Act? && s.request.Login? {
      LoginAddsOrLetsIn(h, s.sid, s.request.user, s.request.pass);
      if LetsIn(h, h', s.request.user) { LettingInWaits(h, h', s.request.user, u, i, f); } else { AddingWaits(h, h', u, i, f); }
    } else {
      StepAdds(h, s);
      AddingWaits(h, h', u, i, f);
    }
  }

  /** What waits for somebody waits until they are handed it. */
  lemma {:induction false} WaitsOrIsHanded(h: Hub, steps: seq<Step>, u: string, i: nat, f: Frame)
    requires Waits(h, u, i, f)
    ensures Waits(Run(h, steps), u, i, f) || f in Trail(h, steps, u)
  {
    if steps != [] {
      var front := steps[..|steps| - 1];
      WaitsOrIsHanded(h, front, u, i, f);
      if f !in Trail(h, front, u) { StepWaits(Run(h, front), steps[|steps| - 1], u, i, f); }
    }
  }

  /** The messages a user is handed by an accepted request and by all that follows. */
  function TrailFrom(h: Hub, sid: Sid, r: Request, steps: seq<Step>, u: string): seq<Frame> {
    NewMail(h, Handle(h, sid, r), u) + Trail(Handle(h, sid, r), steps, u)
  }

  /** A message as one user is to get it. */
  function CopyFor(me: string, r: Request, u: string): Option<Frame>
    requires r.Send?
  {
    AddressedTo(Accepted(me, r), SharesOf(r), u)
  }

  /** A request the server accepts, with an id of its own. */
  ghost predicate Accepts(h: Hub, sid: Sid, r: Request) {
    && Registry(h) && sid in h.who && r.Send? && Refusal(h, h.who[sid], r.to).None?
    && !Stored(h.store.table, r.id) && Markless(r.nonce, SharesOf(r))
  }

  lemma HandledIsSent(h: Hub, sid: Sid, r: Request)
    requires sid in h.who && r.Send?
    ensures Handle(h, sid, r) == DoSend(h, sid, h.who[sid], r)
  {}

  lemma HandedNow(h: Hub, h': Hub, u: string, f: Frame)
    requires u in h'.online && Inbox(h', h'.online[u]) == Inbox(h, h'.online[u]) + [f]
    ensures f in NewMail(h, h', u)
  {}

  lemma OnlineIsHanded(h: Hub, sid: Sid, me: string, r: Request, u: string)
    requires Registry(h) && r.Send? && Refusal(h, me, r.to).None? && u in OwedTo(h, me, r) && u in h.online
    ensures CopyFor(me, r, u).Some? && CopyFor(me, r, u).value in NewMail(h, DoSend(h, sid, me, r), u)
  {
    SendStores(h, sid, me, r);
    SendHands(h, sid, me, r, h.online[u]);
    HandedNow(h, DoSend(h, sid, me, r), u, CopyFor(me, r, u).value);
  }

  lemma AwayIsQueued(h: Hub, sid: Sid, me: string, r: Request, u: string)
    requires Registry(h) && r.Send? && Refusal(h, me, r.to).None? && u in OwedTo(h, me, r) && u !in h.online
    requires !Stored(h.store.table, r.id) && Markless(r.nonce, SharesOf(r))
    ensures CopyFor(me, r, u).Some? && Waits(DoSend(h, sid, me, r), u, |h.store.table|, CopyFor(me, r, u).value)
  {
    SendStores(h, sid, me, r);
    LiveIsFlushed(Accepted(me, r), SharesOf(r), u);
  }

  lemma AcceptedWaitsOrIsHanded(h: Hub, sid: Sid, r: Request, u: string)
    requires Accepts(h, sid, r) && u in OwedTo(h, h.who[sid], r)
    ensures var h', copy := Handle(h, sid, r), CopyFor(h.who[sid], r, u);
      copy.Some? && (copy.value in NewMail(h, h', u) || Waits(h', u, |h.store.table|, copy.value))
  {
    HandledIsSent(h, sid, r);
    if u in h.online { OnlineIsHanded(h, sid, h.who[sid], r, u); } else { AwayIsQueued(h, sid, h.who[sid], r, u); }
  }

  /** Nobody is passed over: whoever is owed an accepted message has been handed their
      copy whenever they are online, at whatever moment of whatever run that follows, and
      however often they and others came and went. */
  lemma OwedIsHanded(h: Hub, sid: Sid, r: Request, steps: seq<Step>, u: string)
    requires Accepts(h, sid, r) && u in OwedTo(h, h.who[sid], r)
    ensures CopyFor(h.who[sid], r, u).Some?
    ensures u in Run(Handle(h, sid, r), steps).online ==> CopyFor(h.who[sid], r, u).value in TrailFrom(h, sid, r, steps, u)
  {
    var h', copy := Handle(h, sid, r), CopyFor(h.who[sid], r, u);
    AcceptedWaitsOrIsHanded(h, sid, r, u);
    if copy.value !in NewMail(h, h', u) { WaitsOrIsHanded(h', steps, u, |h.store.table|, copy.value); }
  }

  // ------------------------------------------------------------ from history

  /** The row of an accepted message, after whatever followed. */
  lemma AcceptedRowPersists(h: Hub, sid: Sid, r: Request, steps: seq<Step>)
    requires Accepts(h, sid, r)
    ensures var i, table := |h.store.table|, Run(Handle(h, sid, r), steps).store.table;
      i < |table| && Receipts.SameButStamps(table[i], RowOf(Accepted(h.who[sid], r), SharesOf(r)))
  {
    SendStores(h, sid, h.who[sid], r);
    HandledIsSent(h, sid, r);
    RowsPersist(Handle(h, sid, r), steps);
  }

  lemma {:induction false} EntriesHold(rows: seq<Row>, reader: string, k: nat)
    requires k < |rows| && HistoryEntry(rows[k], reader).Some?
    ensures HistoryEntry(rows[k], reader).value in Entries(rows, reader)
  {
    if k > 0 { EntriesHold(rows[1..], reader, k - 1); }
  }

  /** The rows a reader can see, of some. */
  function Visible(rows: seq<Row>, reader: string): nat {
    if rows == [] then 0 else Visible(rows[1..], reader) + if HistoryEntry(rows[0], reader).Some? then 1 else 0
  }

  /** Where the k-th row is in an answer: after as many entries as rows before it can be
      seen. So an answer holds one entry for each row the reader can see, in order. */
  lemma {:induction false} EntryStands(rows: seq<Row>, reader: string, k: nat)
    requires k < |rows| && HistoryEntry(rows[k], reader).Some?
    ensures |Entries(rows, reader)| == Visible(rows, reader)
    ensures Visible(rows[..k], reader) < |Entries(rows, reader)|
    ensures Entries(rows, reader)[Visible(rows[..k], reader)] == HistoryEntry(rows[k], reader).value
  {
    EntriesCount(rows, reader);
    if k > 0 {
      EntryStands(rows[1..], reader, k - 1);
      assert rows[..k][1..] == rows[1..][..k - 1];
    }
  }

  lemma {:induction false} EntriesCount(rows: seq<Row>, reader: string)
    ensures |Entries(rows, reader)| == Visible(rows, reader)
  {
    if rows != [] { EntriesCount(rows[1..], reader); }
  }

  /** The time a request for scrollback asks from; zero means now. */
  function From(before: int): Option<int> {
    if before == 0 then None else Some(before)
  }

  function PageSize(limit: int): int {
    if limit == 0 then DEFAULT_LIMIT else limit
  }

  /** A row close enough to the end of what a reader asks for is in the answer. */
  lemma RecentIsAnswered(h: Hub, reader: string, target: string, before: int, limit: int, i: nat)
    requires target != "" && (IsRoom(target) ==> reader in Members(h, target))
    requires i < |h.store.table| && HistoryEntry(h.store.table[i], reader).Some?
    requires History.Recent(h.store.table, ConversationFor(reader, target), From(before), PageSize(limit), i)
    ensures var reply := HistoryReply(h, reader, target, before, limit);
      reply.HistoryResult? && HistoryEntry(h.store.table[i], reader).value in reply.entries
  {
    var key := ConversationFor(reader, target);
    History.ShownIffRecent(h.store.table, key, From(before), PageSize(limit), i);
    var keys := HistoryKeys(h.store.table, key, From(before), PageSize(limit));
    var k :| 0 <= k < |keys| && keys[k] == (h.store.table[i].ts, i);
    var rows := Messages.History(h.store.table, key, From(before), PageSize(limit));
    assert rows[k] == h.store.table[i];
    EntriesHold(rows, reader, k);
  }
}
