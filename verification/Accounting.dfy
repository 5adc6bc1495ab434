/** Exactly-once accounting over every interleaved run: who is owed each stored message,
    and that each of them gets it once, on a session that held their name. */
module Accounting {
  import opened Text
  import opened Messages
  import opened Hub
  import opened Absences
  import opened Ledgers
  import opened I = Interleaving
  import G = GlobalInvariants
  import Rooms

  // -------------------------------------------------------- who is owed a message

  /** The next event makes a thread read the membership of its message's room. */
  predicate Reads(s: Net, e: Event, id: string) {
    e.Go? && e.sid in s.pcs && s.pcs[e.sid].RoomMembers? && s.pcs[e.sid].m.id == id
  }

  function MembersRead(s: Net, e: Event, id: string, before: set<string>): set<string> {
    if Reads(s, e, id) then Rooms.MembersOf(s.rooms, s.pcs[e.sid].m.to) else before
  }

  /** The members of its room at the moment the membership was read for a message. */
  function ReadFor(events: seq<Event>, id: string): set<string> {
    if events == [] then {} else
      var front := events[..|events| - 1];
      MembersRead(I.Run(QUIET_NET, front), events[|events| - 1], id, ReadFor(front, id))
  }

  /** A row sealed for each member holds a well-formed share for this one. */
  predicate HasShare(row: Row, u: string) {
    row.nonce == Some(ENVELOPES) ==>
      row.body.Envelopes? && u in row.body.shares && row.body.shares[u].Share?
  }

  /** Whom a stored row must reach: its recipient, or the members of its room but for
      its sender. */
  predicate Reaches(row: Row, members: set<string>, u: string) {
    if IsRoom(row.recipient) then u in members && u != row.sender && HasShare(row, u) else u == row.recipient
  }

  ghost predicate Due(table: seq<Row>, members: set<string>, id: string, u: string) {
    exists row | row in table :: row.id == id && Reaches(row, members, u)
  }

  /** What is owed of a message is what its stored row makes due, and a thread about to
      store one holds the membership read for it. */
  ghost predicate Dues(s: Net, members: set<string>, id: string) {
    && (forall u :: (id, u) in s.owed <==> Due(s.store.table, members, id, u))
    && forall t | t in s.pcs && s.pcs[t].RoomRecord? && s.pcs[t].m.id == id :: s.pcs[t].left == members - {s.pcs[t].m.sender}
  }

  lemma DuesStay(s: Net, s': Net, sid: Sid, members: set<string>, id: string)
    requires Dues(s, members, id) && sid in s'.pcs && s'.pcs == s.pcs[sid := s'.pcs[sid]] && !s'.pcs[sid].RoomRecord?
    requires s'.store.table == s.store.table && s'.owed == s.owed
    ensures Dues(s', members, id)
  {}

  /** The membership is read: nothing of the message is stored or owed yet. */
  lemma DuesRead(s: Net, sid: Sid, pick: string, before: set<string>, id: string)
    requires Dues(s, before, id) && Posted(s) && sid in s.pcs && s.pcs[sid].RoomMembers?
    ensures Dues(GoRoom(s, sid, s.pcs[sid], pick), MembersRead(s, Go(sid, pick), id, before), id)
  {
    var pc, s' := s.pcs[sid], GoRoom(s, sid, s.pcs[sid], pick);
    var members := MembersRead(s, Go(sid, pick), id, before);
    assert MessageHeld(s, pc);
    if pc.m.id == id {
      forall u ensures !Due(s.store.table, members, id, u) {
        if row :| row in s.store.table && row.id == id { assert Stored(s.store.table, id); }
      }
      forall t | t in s'.pcs && s'.pcs[t].RoomRecord? && s'.pcs[t].m.id == id
        ensures s'.pcs[t].left == members - {s'.pcs[t].m.sender} {
        if t != sid { assert false; }
      }
    }
  }

  lemma DueGrows(table: seq<Row>, row: Row, members: set<string>, id: string, u: string)
    ensures Due(table + [row], members, id, u) <==> Due(table, members, id, u) || (row.id == id && Reaches(row, members, u))
  {
    if r :| r in table && r.id == id && Reaches(r, members, u) { assert r in table + [row]; }
    if row.id == id && Reaches(row, members, u) { assert row in table + [row]; }
  }

  /** A row stored, with what it owes. */
  lemma DuesRecord(s: Net, s': Net, sid: Sid, row: Row, names: set<string>, members: set<string>, id: string)
    requires Dues(s, members, id) && !Stored(s.store.table, row.id)
    requires sid in s'.pcs && s'.pcs == s.pcs[sid := s'.pcs[sid]] && !s'.pcs[sid].RoomRecord?
    requires s'.store.table == s.store.table + [row]
    requires forall i, u :: (i, u) in s'.owed <==> (i, u) in s.owed || (i == row.id && u in names)
    requires row.id == id ==> forall u :: u in names <==> Reaches(row, members, u)
    ensures Dues(s', members, id)
  {
    forall u ensures (id, u) in s'.owed <==> Due(s'.store.table, members, id, u) {
      DueGrows(s.store.table, row, members, id, u);
    }
  }

  lemma DuesDirect(s: Net, sid: Sid, members: set<string>, id: string)
    requires Dues(s, members, id) && Posted(s) && sid in s.pcs && s.pcs[sid].UserRecord?
    ensures Dues(RecordDirect(s, sid, s.pcs[sid].m, s.pcs[sid].found), members, id)
  {
    var pc := s.pcs[sid];
    assert MessageHeld(s, pc);
    DuesRecord(s, RecordDirect(s, sid, pc.m, pc.found), sid, RowOf(pc.m, None), {pc.m.to}, members, id);
  }

  lemma DuesRoom(s: Net, sid: Sid, members: set<string>, id: string)
    requires Dues(s, members, id) && Posted(s) && sid in s.pcs && s.pcs[sid].RoomRecord?
    ensures Dues(RecordRoom(s, sid, s.pcs[sid].m, s.pcs[sid].shares, s.pcs[sid].left), members, id)
  {
    var RoomRecord(m, shares, left) := s.pcs[sid];
    assert MessageHeld(s, s.pcs[sid]);
    var row := RowOf(m, shares);
    var names := set u | u in left && AddressedTo(m, shares, u).Some?;
    forall u ensures AddressedTo(m, shares, u).Some? <==> HasShare(row, u) {}
    DuesRecord(s, RecordRoom(s, sid, m, shares, left), sid, row, names, members, id);
  }

  lemma DuesHeard(s: Net, sid: Sid, r: Request, members: set<string>, id: string)
    requires Dues(s, members, id) && Enabled(s, Hear(sid, r))
    ensures Dues(Hearing(s, sid, r), members, id)
  {
    var s' := Hearing(s, sid, r);
    if r.Send? && sid in s.who {
      assert s' == Asking(s, sid, s.who[sid], r);
    } else {
      HearingMoves(s, sid, r);
    }
    DuesStay(s, s', sid, members, id);
  }

  lemma DuesLogin(s: Net, sid: Sid, members: set<string>, id: string)
    requires Dues(s, members, id) && sid in s.pcs && AtLogin(s.pcs[sid])
    ensures Dues(GoLogin(s, sid, s.pcs[sid]), members, id)
  {
    DuesStay(s, GoLogin(s, sid, s.pcs[sid]), sid, members, id);
  }

  lemma DuesUser(s: Net, sid: Sid, members: set<string>, id: string)
    requires Dues(s, members, id) && sid in s.pcs && AtUser(s.pcs[sid]) && !s.pcs[sid].UserRecord?
    ensures Dues(GoUser(s, sid, s.pcs[sid]), members, id)
  {
    DuesStay(s, GoUser(s, sid, s.pcs[sid]), sid, members, id);
  }

  lemma DuesFanOut(s: Net, sid: Sid, pick: string, members: set<string>, id: string)
    requires Dues(s, members, id) && sid in s.pcs && (s.pcs[sid].RoomExists? || s.pcs[sid].RoomNext? || s.pcs[sid].RoomGot?)
    ensures Dues(GoRoom(s, sid, s.pcs[sid], pick), members, id)
  {
    FanOutMoves(s, sid, pick);
    DuesStay(s, GoRoom(s, sid, s.pcs[sid], pick), sid, members, id);
  }

  /** Rows and debts stay, and only thread sid moves. */
  ghost predicate OwesTheSame(s: Net, s': Net, sid: Sid) {
    && sid in s'.pcs && s'.pcs == s.pcs[sid := s'.pcs[sid]] && !s'.pcs[sid].RoomRecord?
    && s'.store.table == s.store.table && s'.owed == s.owed
  }

  lemma StandingOwes(s: Net, sid: Sid, pc: Pc)
    requires !pc.RoomRecord?
    ensures OwesTheSame(s, At(s, sid, pc), sid)
  {}

  lemma DeliveryOwes(s: Net, sid: Sid, name: string, found: Option<Sid>, f: Message, pc: Pc)
    requires !pc.RoomRecord?
    ensures OwesTheSame(s, At(DeliverOne(s, name, found, f), sid, pc), sid)
  {}

  lemma FanOutMoves(s: Net, sid: Sid, pick: string)
    requires sid in s.pcs && (s.pcs[sid].RoomExists? || s.pcs[sid].RoomNext? || s.pcs[sid].RoomGot?)
    ensures OwesTheSame(s, GoRoom(s, sid, s.pcs[sid], pick), sid)
  {
    match s.pcs[sid]
    case RoomExists(m, shares) => StandingOwes(s, sid, if m.to in s.rooms then RoomMembers(m, shares) else Idle);
    case RoomNext(m, shares, left) =>
      StandingOwes(s, sid, if left == {} then Idle
        else if pick in left then RoomGot(m, shares, pick, Lookup(s, pick), left - {pick}) else RoomNext(m, shares, left));
    case RoomGot(m, shares, name, found, left) =>
      StandingOwes(s, sid, RoomNext(m, shares, left));
      var copy := AddressedTo(m, shares, name);
      if copy.Some? { DeliveryOwes(s, sid, name, found, copy.value, RoomNext(m, shares, left)); }
  }

  predicate AtKeeping(pc: Pc) {
    !AtLogin(pc) && !AtUser(pc) && !AtRoom(pc) && !pc.Idle? && !pc.Closed?
  }

  /** A thread keeping rooms or contacts has no message, before or after. */
  lemma KeepingMoves(s: Net, s': Net, sid: Sid, pick: string)
    requires sid in s.pcs && AtKeeping(s.pcs[sid]) && s' == Going(s, sid, pick)
    ensures sid in s'.pcs && s'.pcs == s.pcs[sid := s'.pcs[sid]] && MessageOf(s'.pcs[sid]).None?
    ensures s'.store == s.store && s'.sent == s.sent && s'.owed == s.owed
  {
    Ledgers.GoingMoves(s, sid, pick);
  }

  lemma DuesGoing(s: Net, sid: Sid, pick: string, members: set<string>, id: string)
    requires Dues(s, members, id) && Posted(s) && Enabled(s, Go(sid, pick))
    ensures Dues(Going(s, sid, pick), MembersRead(s, Go(sid, pick), id, members), id)
  {
    var pc := s.pcs[sid];
    if AtLogin(pc) {
      DuesLogin(s, sid, members, id);
    } else if pc.RoomMembers? {
      DuesRead(s, sid, pick, members, id);
    } else if pc.RoomRecord? {
      DuesRoom(s, sid, members, id);
    } else if AtRoom(pc) {
      DuesFanOut(s, sid, pick, members, id);
    } else if pc.UserRecord? {
      DuesDirect(s, sid, members, id);
    } else if AtUser(pc) {
      DuesUser(s, sid, members, id);
    } else {
      KeepingMoves(s, Going(s, sid, pick), sid, pick);
      DuesStay(s, Going(s, sid, pick), sid, members, id);
    }
  }

  lemma DuesStep(s: Net, e: Event, members: set<string>, id: string)
    requires Dues(s, members, id) && Posted(s)
    ensures Dues(I.Next(s, e), MembersRead(s, e, id, members), id)
  {
    if Enabled(s, e) {
      match e
      case Connect(sid) => DuesStay(s, I.Next(s, e), sid, members, id);
      case Hear(sid, r) => DuesHeard(s, sid, r, members, id);
      case Hang(sid) => DuesStay(s, I.Next(s, e), sid, members, id);
      case Go(sid, pick) => DuesGoing(s, sid, pick, members, id);
    }
  }

  lemma {:induction false} DuesHold(events: seq<Event>, id: string)
    ensures Dues(I.Run(QUIET_NET, events), ReadFor(events, id), id)
  {
    if events != [] {
      var front := events[..|events| - 1];
      DuesHold(front, id);
      RunsAreSound(front);
      DuesStep(I.Run(QUIET_NET, front), events[|events| - 1], ReadFor(front, id), id);
    }
  }

  // ------------------------------------------------------ which session it went to

  /** A session, the name it holds, and a message the server has heard. */
  type Chance = (Sid, string, string)

  function Chances(s: Net): set<Chance> {
    set u, id | u in s.online && id in s.used :: (s.online[u], u, id)
  }

  /** Every session that held a name at some moment of the run, with the messages heard
      by that moment. */
  function AllChances(events: seq<Event>): set<Chance> {
    if events == [] then {} else AllChances(events[..|events| - 1]) + Chances(I.Run(QUIET_NET, events[..|events| - 1]))
  }

  /** What a thread found when it looked its recipient up. */
  function FoundBy(pc: Pc): Option<Chance> {
    match pc
    case UserRecord(m, Some(t)) => Some((t, m.to, m.id))
    case UserNote(m, Some(t)) => Some((t, m.to, m.id))
    case UserNoteBack(m, Some(t)) => Some((t, m.to, m.id))
    case UserDeliver(m, Some(t)) => Some((t, m.to, m.id))
    case RoomGot(m, _, name, Some(t), _) => Some((t, name, m.id))
    case _ => None
  }

  function ChanceOf(x: Sent): Chance {
    (x.sid, x.name, x.frame.id)
  }

  /** Every message sent, or about to be, goes to a session that held its name. */
  ghost predicate Placed(s: Net, past: set<Chance>) {
    && (forall i | 0 <= i < |s.sent| :: ChanceOf(s.sent[i]) in past)
    && (forall t | t in s.pcs && FoundBy(s.pcs[t]).Some? :: FoundBy(s.pcs[t]).value in past)
  }

  /** Thread sid moves, sending at most one more message. */
  lemma PlacedMoves(s: Net, s': Net, sid: Sid, more: seq<Sent>, past: set<Chance>)
    requires Placed(s, past) && sid in s'.pcs && s'.pcs == s.pcs[sid := s'.pcs[sid]] && s'.sent == s.sent + more
    requires forall x | x in more :: ChanceOf(x) in past
    requires FoundBy(s'.pcs[sid]).Some? ==> FoundBy(s'.pcs[sid]).value in past
    ensures Placed(s', past)
  {
    forall i | 0 <= i < |s'.sent| ensures ChanceOf(s'.sent[i]) in past {
      if i >= |s.sent| { assert s'.sent[i] in more; }
    }
  }

  lemma PlacedStays(s: Net, s': Net, sid: Sid, past: set<Chance>)
    requires Placed(s, past) && sid in s'.pcs && s'.pcs == s.pcs[sid := s'.pcs[sid]] && s'.sent == s.sent
    requires FoundBy(s'.pcs[sid]).Some? ==> FoundBy(s'.pcs[sid]).value in past
    ensures Placed(s', past)
  {}

  lemma ChanceIsIn(s: Net, u: string, id: string)
    requires u in s.online && id in s.used
    ensures (s.online[u], u, id) in Chances(s)
  {}

  lemma PlacedLogin(s: Net, sid: Sid, past: set<Chance>)
    requires Placed(s, past) && Chances(s) <= past && Posted(s) && G.Sessions(s)
    requires sid in s.pcs && AtLogin(s.pcs[sid])
    ensures Placed(GoLogin(s, sid, s.pcs[sid]), past)
  {
    var pc, s' := s.pcs[sid], GoLogin(s, sid, s.pcs[sid]);
    if pc.LoginHand? && pc.rows != [] {
      var u, row := pc.user, pc.rows[0];
      assert G.SessionHolds(s, sid, pc) && RowsHeld(s, pc);
      ChanceIsIn(s, u, row.id);
      PlacedMoves(s, s', sid, [Sent(sid, u, FlushFrame(row, u).value)], past);
    } else {
      PlacedStays(s, s', sid, past);
    }
  }

  lemma PlacedUser(s: Net, sid: Sid, past: set<Chance>)
    requires Placed(s, past) && Chances(s) <= past && Posted(s) && sid in s.pcs && AtUser(s.pcs[sid]) && !s.pcs[sid].UserDeliver?
    ensures Placed(GoUser(s, sid, s.pcs[sid]), past)
  {
    var pc := s.pcs[sid];
    assert MessageHeld(s, pc);
    if pc.UserLookup? && pc.m.to in s.online { ChanceIsIn(s, pc.m.to, pc.m.id); }
    PlacedStays(s, GoUser(s, sid, pc), sid, past);
  }

  lemma PlacedDelivery(s: Net, sid: Sid, past: set<Chance>)
    requires Placed(s, past) && sid in s.pcs && s.pcs[sid].UserDeliver?
    ensures Placed(GoUser(s, sid, s.pcs[sid]), past)
  {
    var UserDeliver(m, found) := s.pcs[sid];
    PlacedMoves(s, GoUser(s, sid, s.pcs[sid]), sid, if found.Some? then [Sent(found.value, m.to, m)] else [], past);
  }

  lemma PlacedNext(s: Net, sid: Sid, pick: string, past: set<Chance>)
    requires Placed(s, past) && Chances(s) <= past && sid in s.pcs && s.pcs[sid].RoomNext? && s.pcs[sid].m.id in s.used
    ensures Placed(GoRoom(s, sid, s.pcs[sid], pick), past)
  {
    if pick in s.online { ChanceIsIn(s, pick, s.pcs[sid].m.id); }
    PlacedStays(s, GoRoom(s, sid, s.pcs[sid], pick), sid, past);
  }

  lemma PlacedRoom(s: Net, sid: Sid, pick: string, past: set<Chance>)
    requires Placed(s, past) && sid in s.pcs && (s.pcs[sid].RoomExists? || s.pcs[sid].RoomMembers? || s.pcs[sid].RoomRecord?)
    ensures Placed(GoRoom(s, sid, s.pcs[sid], pick), past)
  {
    PlacedStays(s, GoRoom(s, sid, s.pcs[sid], pick), sid, past);
  }

  lemma PlacedGot(s: Net, sid: Sid, pick: string, past: set<Chance>)
    requires Placed(s, past) && sid in s.pcs && s.pcs[sid].RoomGot?
    ensures Placed(GoRoom(s, sid, s.pcs[sid], pick), past)
  {
    var RoomGot(m, shares, name, found, left) := s.pcs[sid];
    var copy := AddressedTo(m, shares, name);
    PlacedMoves(s, GoRoom(s, sid, s.pcs[sid], pick), sid,
      if found.Some? && copy.Some? then [Sent(found.value, name, copy.value)] else [], past);
  }

  lemma PlacedHeard(s: Net, sid: Sid, r: Request, past: set<Chance>)
    requires Placed(s, past) && Enabled(s, Hear(sid, r))
    ensures Placed(Hearing(s, sid, r), past)
  {
    if !(r.Send? && sid in s.who) { HearingMoves(s, sid, r); }
    PlacedStays(s, Hearing(s, sid, r), sid, past);
  }

  lemma PlacedGoing(s: Net, sid: Sid, pick: string, past: set<Chance>)
    requires Placed(s, past) && Chances(s) <= past && Posted(s) && G.Sessions(s) && Enabled(s, Go(sid, pick))
    ensures Placed(Going(s, sid, pick), past)
  {
    var pc := s.pcs[sid];
    assert MessageHeld(s, pc);
    if AtLogin(pc) {
      PlacedLogin(s, sid, past);
    } else if pc.UserDeliver? {
      PlacedDelivery(s, sid, past);
    } else if AtUser(pc) {
      PlacedUser(s, sid, past);
    } else if pc.RoomGot? {
      PlacedGot(s, sid, pick, past);
    } else if pc.RoomNext? {
      PlacedNext(s, sid, pick, past);
    } else if AtRoom(pc) {
      PlacedRoom(s, sid, pick, past);
    } else {
      KeepingMoves(s, Going(s, sid, pick), sid, pick);
      PlacedStays(s, Going(s, sid, pick), sid, past);
    }
  }

  lemma PlacedStep(s: Net, e: Event, past: set<Chance>)
    requires Placed(s, past) && Chances(s) <= past && Posted(s) && G.Sessions(s)
    ensures Placed(I.Next(s, e), past)
  {
    if Enabled(s, e) {
      match e
      case Connect(sid) => PlacedStays(s, I.Next(s, e), sid, past);
      case Hear(sid, r) => PlacedHeard(s, sid, r, past);
      case Hang(sid) => PlacedStays(s, I.Next(s, e), sid, past);
      case Go(sid, pick) => PlacedGoing(s, sid, pick, past);
    }
  }

  lemma {:induction false} PlacedHolds(events: seq<Event>)
    ensures Placed(I.Run(QUIET_NET, events), AllChances(events))
  {
    if events != [] {
      var front := events[..|events| - 1];
      PlacedHolds(front);
      RunsAreSound(front);
      G.RunHolds(front);
      PlacedStep(I.Run(QUIET_NET, front), events[|events| - 1], AllChances(events));
    }
  }

  /** At the n-th moment of a run a session held a name, and the server had heard a
      message. */
  ghost predicate HeldAt(events: seq<Event>, n: nat, x: Sent) {
    n <= |events| &&
      var s := I.Run(QUIET_NET, events[..n]);
      x.frame.id in s.used && x.name in s.online && s.online[x.name] == x.sid
  }

  lemma {:induction false} ChanceWasHeld(events: seq<Event>, x: Sent)
    requires ChanceOf(x) in AllChances(events)
    ensures exists n: nat :: HeldAt(events, n, x)
  {
    var last := |events| - 1;
    if ChanceOf(x) in Chances(I.Run(QUIET_NET, events[..last])) {
      assert HeldAt(events, last, x);
    } else {
      ChanceWasHeld(events[..last], x);
      var n: nat :| HeldAt(events[..last], n, x);
      assert events[..last][..n] == events[..n];
      assert HeldAt(events, n, x);
    }
  }

  // ------------------------------------------------------------------ the theorem

  /** Where a delivery can be. */
  datatype Place = WithThread(sid: Sid) | InQueue | SentAs(index: nat)

  ghost predicate IsAt(s: Net, k: (string, string), p: Place) {
    match p
    case WithThread(t) => k in CarriedAt(s, t)
    case InQueue => k in s.store.pending
    case SentAs(i) => i < |s.sent| && (s.sent[i].frame.id, s.sent[i].name) == k
  }

  lemma {:induction false} CountSees(sent: seq<Sent>, k: (string, string), i: nat)
    requires i < |sent| && (sent[i].frame.id, sent[i].name) == k
    ensures Count(sent, k) >= 1
    ensures forall j | 0 <= j < |sent| && j != i && (sent[j].frame.id, sent[j].name) == k :: Count(sent, k) >= 2
  {
    var last := |sent| - 1;
    if i < last { CountSees(sent[..last], k, i); }
    forall j | 0 <= j < last && i == last && (sent[j].frame.id, sent[j].name) == k ensures Count(sent[..last], k) >= 1 {
      CountSees(sent[..last], k, j);
    }
  }

  lemma {:induction false} CountFinds(sent: seq<Sent>, k: (string, string))
    requires Count(sent, k) > 0
    ensures exists i | 0 <= i < |sent| :: (sent[i].frame.id, sent[i].name) == k
  {
    var last := |sent| - 1;
    if (sent[last].frame.id, sent[last].name) != k {
      CountFinds(sent[..last], k);
      var i :| 0 <= i < last && (sent[..last][i].frame.id, sent[..last][i].name) == k;
      assert (sent[i].frame.id, sent[i].name) == k;
    }
  }

  lemma PlacesAgree(s: Net, k: (string, string), p: Place, q: Place)
    requires Balanced(s, k) && IsAt(s, k, p) && IsAt(s, k, q)
    ensures p == q && k in s.owed
  {
    if p.SentAs? { CountSees(s.sent, k, p.index); }
    if q.SentAs? { CountSees(s.sent, k, q.index); }
    if p.WithThread? { assert Held(s, k); }
    if q.WithThread? { assert Held(s, k); }
  }

  /** Exactly-once accounting over every interleaved run. A delivery is owed exactly when
      a stored row makes it due: to the recipient of a direct message, or to each member
      its sender's thread read, other than the sender, who has a well-formed share. Each
      owed delivery is in exactly one place: still with the thread that accepted or
      flushed it, in the queue, or sent once; nothing else is anywhere. Whatever was sent
      is what the stored row makes for its recipient, and went to a session that held the
      recipient's name at a moment after the message was heard. */
  lemma ExactlyOnce(events: seq<Event>, k: (string, string))
    ensures var s := I.Run(QUIET_NET, events);
      && ((exists p :: IsAt(s, k, p)) <==> Due(s.store.table, ReadFor(events, k.0), k.0, k.1))
      && (forall p, q | IsAt(s, k, p) && IsAt(s, k, q) :: p == q)
      && (forall i | 0 <= i < |s.sent| :: Stands(s.store.table, s.sent[i]) && exists n: nat :: HeldAt(events, n, s.sent[i]))
      && (forall t | t in s.pcs :: RowsHeld(s, s.pcs[t]))
  {
    RunsAreSound(events);
    DuesHold(events, k.0);
    var s := I.Run(QUIET_NET, events);
    assert Balanced(s, k);
    forall p, q | IsAt(s, k, p) && IsAt(s, k, q) ensures p == q && k in s.owed { PlacesAgree(s, k, p, q); }
    if k in s.owed { OwedIsSomewhere(s, k); }
    PlacedHolds(events);
    forall i | 0 <= i < |s.sent| ensures exists n: nat :: HeldAt(events, n, s.sent[i]) { ChanceWasHeld(events, s.sent[i]); }
  }

  lemma OwedIsSomewhere(s: Net, k: (string, string))
    requires Balanced(s, k) && k in s.owed
    ensures exists p :: IsAt(s, k, p)
  {
    if Held(s, k) {
      var t :| k in CarriedAt(s, t);
      assert IsAt(s, k, WithThread(t));
    } else if k in s.store.pending {
      assert IsAt(s, k, InQueue);
    } else {
      CountFinds(s.sent, k);
      var i :| 0 <= i < |s.sent| && (s.sent[i].frame.id, s.sent[i].name) == k;
      assert IsAt(s, k, SentAs(i));
    }
  }
}
