/** The ledger behind exactly-once accounting: what threads, the queue and the outboxes
    hold of each delivery, over every interleaved run. */
module Ledgers {
  import opened Text
  import opened Sorting
  import opened Messages
  import opened Hub
  import opened Absences
  import Mail
  import opened I = Interleaving

  // ------------------------------------------------------------------ the ledger

  /** The deliveries a thread has still to make: (message id, recipient). */
  function Carried(pc: Pc): set<(string, string)> {
    match pc
    case UserNote(m, _) => {(m.id, m.to)}
    case UserNoteBack(m, _) => {(m.id, m.to)}
    case UserDeliver(m, _) => {(m.id, m.to)}
    case RoomNext(m, shares, left) => Duties(m, shares, left)
    case RoomGot(m, shares, name, _, left) => Duties(m, shares, left + {name})
    case LoginHand(u, rows) => set i | 0 <= i < |rows| :: (rows[i].id, u)
    case _ => {}
  }

  function CarriedAt(s: Net, t: Sid): set<(string, string)> {
    if t in s.pcs then Carried(s.pcs[t]) else {}
  }

  /** How often a delivery was made. */
  function Count(sent: seq<Sent>, k: (string, string)): nat {
    if sent == [] then 0 else
      Count(sent[..|sent| - 1], k) + Num((sent[|sent| - 1].frame.id, sent[|sent| - 1].name) == k)
  }

  function Num(b: bool): nat { if b then 1 else 0 }

  ghost predicate Held(s: Net, k: (string, string)) {
    exists t :: k in CarriedAt(s, t)
  }

  /** An owed delivery is in exactly one place: with one thread, in the queue, or sent
      once; and nothing is anywhere that is not owed. */
  ghost predicate Balanced(s: Net, k: (string, string)) {
    && (forall t1, t2 | k in CarriedAt(s, t1) && k in CarriedAt(s, t2) :: t1 == t2)
    && Num(Held(s, k)) + Num(k in s.store.pending) + Count(s.sent, k) == Num(k in s.owed)
  }

  ghost predicate Ledger(s: Net) {
    forall k :: Balanced(s, k)
  }

  /** What one thread, the queue and the outboxes hold of one delivery. */
  function Local(s: Net, t: Sid, k: (string, string)): nat {
    Num(k in CarriedAt(s, t)) + Num(k in s.store.pending) + Count(s.sent, k)
  }

  /** Only thread t moved. */
  ghost predicate OnlyMoved(s: Net, s': Net, t: Sid) {
    forall t2 | t2 != t :: CarriedAt(s', t2) == CarriedAt(s, t2)
  }

  lemma BalanceMoves(s: Net, s': Net, t: Sid, k: (string, string))
    requires Balanced(s, k) && OnlyMoved(s, s', t)
    requires Local(s', t, k) + Num(k in s.owed) == Local(s, t, k) + Num(k in s'.owed)
    requires k in s.owed ==> k in s'.owed
    ensures Balanced(s', k)
  {
    if t2 :| t2 != t && k in CarriedAt(s, t2) {
      assert Held(s, k);
      assert k !in CarriedAt(s, t);
      assert k in CarriedAt(s', t2);
    } else {
      assert Held(s, k) <==> k in CarriedAt(s, t);
      assert Held(s', k) <==> k in CarriedAt(s', t);
    }
  }

  lemma LedgerStep(s: Net, s': Net, t: Sid)
    requires Ledger(s) && OnlyMoved(s, s', t) && s.owed <= s'.owed
    requires forall k :: Local(s', t, k) + Num(k in s.owed) == Local(s, t, k) + Num(k in s'.owed)
    ensures Ledger(s')
  {
    forall k ensures Balanced(s', k) {
      assert Balanced(s, k);
      BalanceMoves(s, s', t, k);
    }
  }

  lemma CountOneMore(sent: seq<Sent>, x: Sent, k: (string, string))
    ensures Count(sent + [x], k) == Count(sent, k) + Num((x.frame.id, x.name) == k)
  {
    assert (sent + [x])[..|sent|] == sent;
  }

  // -------------------------------------------------------------- messages in hand

  function MessageOf(pc: Pc): Option<Message> {
    match pc
    case UserLookup(m) => Some(m)
    case UserExists(m) => Some(m)
    case UserRecord(m, _) => Some(m)
    case UserNote(m, _) => Some(m)
    case UserNoteBack(m, _) => Some(m)
    case UserDeliver(m, _) => Some(m)
    case RoomExists(m, _) => Some(m)
    case RoomMembers(m, _) => Some(m)
    case RoomRecord(m, _, _) => Some(m)
    case RoomNext(m, _, _) => Some(m)
    case RoomGot(m, _, _, _, _) => Some(m)
    case _ => None
  }

  function SharesIn(pc: Pc): Option<map<string, Share>> {
    match pc
    case RoomExists(_, shares) => shares
    case RoomMembers(_, shares) => shares
    case RoomRecord(_, shares, _) => shares
    case RoomNext(_, shares, _) => shares
    case RoomGot(_, shares, _, _, _) => shares
    case _ => None
  }

  predicate Recorded(pc: Pc) {
    pc.UserNote? || pc.UserNoteBack? || pc.UserDeliver? || pc.RoomNext? || pc.RoomGot?
  }

  /** A stored row that makes this frame for this reader. */
  ghost predicate Makes(table: seq<Row>, id: string, reader: string) {
    exists i | 0 <= i < |table| :: table[i].id == id && FlushFrame(table[i], reader).Some?
  }

  /** What a thread holding a message may rely on. */
  ghost predicate MessageHeld(s: Net, pc: Pc) {
    MessageOf(pc).Some? ==>
      var m := MessageOf(pc).value;
      && m.id in s.used && Markless(m.nonce, SharesIn(pc)) && (AtRoom(pc) <==> IsRoom(m.to))
      && (if Recorded(pc) then RowOf(m, SharesIn(pc)) in s.store.table
          else !Stored(s.store.table, m.id) && forall u :: (m.id, u) !in s.owed)
      && (pc.RoomGot? ==> pc.name !in pc.left)
  }

  /** What a flush took: readable rows of the table, no two alike. */
  ghost predicate RowsHeld(s: Net, pc: Pc) {
    pc.LoginHand? ==>
      && (forall i | 0 <= i < |pc.rows| :: pc.rows[i] in s.store.table && FlushFrame(pc.rows[i], pc.user).Some?)
      && UniqueIds(pc.rows)
  }

  ghost predicate OwnMessages(s: Net) {
    forall t1, t2 | t1 in s.pcs && t2 in s.pcs && MessageOf(s.pcs[t1]).Some? && MessageOf(s.pcs[t2]).Some?
                    && MessageOf(s.pcs[t1]).value.id == MessageOf(s.pcs[t2]).value.id :: t1 == t2
  }

  ghost predicate ThreadsHold(s: Net) {
    forall t | t in s.pcs :: MessageHeld(s, s.pcs[t]) && RowsHeld(s, s.pcs[t])
  }

  ghost predicate StoreHolds(s: Net) {
    && UniqueIds(s.store.table)
    && (forall i | 0 <= i < |s.store.table| :: s.store.table[i].id in s.used)
    && (forall k | k in s.owed :: k.0 in s.used)
    && (forall k | k in s.store.pending :: Makes(s.store.table, k.0, k.1))
  }

  /** Every MSG ever sent is what its stored row makes for whom it was sent to. */
  ghost predicate SentHolds(s: Net) {
    forall i | 0 <= i < |s.sent| :: Stands(s.store.table, s.sent[i])
  }

  ghost predicate Stands(table: seq<Row>, x: Sent) {
    exists row | row in table :: row.id == x.frame.id && FlushFrame(row, x.name) == Some(x.frame)
  }

  ghost predicate Posted(s: Net) {
    OwnMessages(s) && ThreadsHold(s) && StoreHolds(s) && SentHolds(s)
  }

  // ---------------------------------------------------------- steps of the ledger

  lemma LedgerSame(s: Net, s': Net, t: Sid)
    requires Ledger(s) && OnlyMoved(s, s', t) && CarriedAt(s', t) == CarriedAt(s, t)
    requires s'.store.pending == s.store.pending && s'.sent == s.sent && s'.owed == s.owed
    ensures Ledger(s')
  {
    LedgerStep(s, s', t);
  }

  lemma RecordDirectLedger(s: Net, t: Sid, m: Message, found: Option<Sid>)
    requires Ledger(s) && t in s.pcs && Carried(s.pcs[t]) == {} && (m.id, m.to) !in s.owed
    ensures Ledger(RecordDirect(s, t, m, found))
  {
    var s' := RecordDirect(s, t, m, found);
    LedgerStep(s, s', t);
  }

  lemma RecordRoomLedger(s: Net, t: Sid, m: Message, shares: Option<map<string, Share>>, left: set<string>)
    requires Ledger(s) && t in s.pcs && Carried(s.pcs[t]) == {} && forall u :: (m.id, u) !in s.owed
    ensures Ledger(RecordRoom(s, t, m, shares, left))
  {
    var s' := RecordRoom(s, t, m, shares, left);
    LedgerStep(s, s', t);
  }

  /** A thread makes one of its deliveries: to the session it found, or to the queue. */
  lemma DeliverLedger(s: Net, t: Sid, name: string, found: Option<Sid>, f: Message, pc: Pc)
    requires Ledger(s) && t in s.pcs
    requires (f.id, name) in Carried(s.pcs[t]) && Carried(pc) == Carried(s.pcs[t]) - {(f.id, name)}
    ensures Ledger(At(DeliverOne(s, name, found, f), t, pc))
  {
    var s' := At(DeliverOne(s, name, found, f), t, pc);
    forall k ensures Local(s', t, k) == Local(s, t, k) {
      assert Balanced(s, k);
      if found.Some? { CountOneMore(s.sent, Sent(found.value, name, f), k); }
      if k in CarriedAt(s, t) { assert Held(s, k); }
    }
    LedgerStep(s, s', t);
  }

  lemma HandLedger(s: Net, t: Sid, u: string, rows: seq<Row>)
    requires Ledger(s) && t in s.pcs && s.pcs[t] == LoginHand(u, rows) && RowsHeld(s, s.pcs[t])
    ensures Ledger(Handing(s, t, u, rows))
  {
    var s' := Handing(s, t, u, rows);
    if rows == [] {
      LedgerSame(s, s', t);
    } else {
      var f := FlushFrame(rows[0], u).value;
      var k0 := (rows[0].id, u);
      assert rows == [rows[0]] + rows[1..];
      assert Carried(LoginHand(u, rows[1..])) == Carried(LoginHand(u, rows)) - {k0} by {
        forall k ensures k in Carried(LoginHand(u, rows[1..])) <==> k in Carried(LoginHand(u, rows)) && k != k0 {
          if k in Carried(LoginHand(u, rows)) && k != k0 {
            var i :| 0 <= i < |rows| && (rows[i].id, u) == k;
            assert rows[1..][i - 1] == rows[i];
          }
          if k in Carried(LoginHand(u, rows[1..])) {
            var i :| 0 <= i < |rows| - 1 && (rows[1..][i].id, u) == k;
            assert rows[i + 1] == rows[1..][i];
          }
        }
      }
      assert k0 in Carried(LoginHand(u, rows));
      DeliverLedger(s, t, u, Some(t), f, LoginHand(u, rows[1..]));
    }
  }

  /** What a flush takes is what was queued. */
  lemma FlushTakesQueue(s: Net, u: string, k: (string, string))
    requires StoreHolds(s)
    ensures k in Carried(LoginHand(u, Flushed(s.store, u))) <==> k.1 == u && k in s.store.pending
  {
    var rows, keys := Flushed(s.store, u), FlushKeys(s.store, u);
    if k.1 == u && k in s.store.pending {
      var i :| 0 <= i < |s.store.table| && s.store.table[i].id == k.0;
      assert (s.store.table[i].ts, i) in QueuedKeys(s.store, u) && (s.store.table[i].ts, i) in Elements(keys);
      var j :| 0 <= j < |keys| && keys[j] == (s.store.table[i].ts, i);
      assert rows[j].id == k.0;
    }
    if k in Carried(LoginHand(u, rows)) {
      var j :| 0 <= j < |rows| && (rows[j].id, u) == k;
      assert keys[j] in Elements(keys);
    }
  }

  lemma FlushLedger(s: Net, t: Sid, u: string)
    requires Ledger(s) && StoreHolds(s) && t in s.pcs && s.pcs[t] == LoginFlush(u)
    ensures Ledger(Going(s, t, ""))
  {
    var s' := Going(s, t, "");
    forall k ensures Local(s', t, k) == Local(s, t, k) { FlushTakesQueue(s, u, k); }
    LedgerStep(s, s', t);
  }

  // ------------------------------------------------------ steps of what is posted

  /** A thread moves on, keeping its message or dropping it. */
  lemma PostedMove(s: Net, s': Net, t: Sid, pc: Pc)
    requires Posted(s) && s'.pcs == s.pcs[t := pc]
    requires s'.store == s.store && s'.sent == s.sent && s'.owed == s.owed && s'.used == s.used
    requires MessageOf(pc).Some? ==> t in s.pcs && MessageOf(pc) == MessageOf(s.pcs[t])
    requires MessageHeld(s, pc) && RowsHeld(s, pc)
    ensures Posted(s')
  {
    forall x | x in s'.pcs ensures MessageHeld(s', s'.pcs[x]) && RowsHeld(s', s'.pcs[x]) {}
  }

  /** A client's next message: its id is new everywhere. */
  lemma PostedNew(s: Net, s': Net, t: Sid, pc: Pc)
    requires Posted(s) && s'.pcs == s.pcs[t := pc] && MessageOf(pc).Some? && !Recorded(pc)
    requires var m := MessageOf(pc).value;
      m.id !in s.used && s'.used == s.used + {m.id} && Markless(m.nonce, SharesIn(pc)) && (AtRoom(pc) <==> IsRoom(m.to))
    requires s'.store == s.store && s'.sent == s.sent && s'.owed == s.owed
    ensures Posted(s')
  {
    forall x | x in s'.pcs ensures MessageHeld(s', s'.pcs[x]) && RowsHeld(s', s'.pcs[x]) {
      if x != t { assert MessageHeld(s, s.pcs[x]) && RowsHeld(s, s.pcs[x]); }
    }
  }

  /** Recording a message: its row, and who is owed it. */
  lemma PostedRecord(s: Net, s': Net, t: Sid, pc: Pc, names: set<(string, string)>)
    requires Posted(s) && t in s.pcs && MessageOf(s.pcs[t]).Some? && !Recorded(s.pcs[t])
    requires Recorded(pc) && !pc.RoomGot? && MessageOf(pc) == MessageOf(s.pcs[t])
    requires SharesIn(pc) == SharesIn(s.pcs[t]) && (AtRoom(pc) <==> AtRoom(s.pcs[t]))
    requires s'.pcs == s.pcs[t := pc] && s'.used == s.used && s'.sent == s.sent
    requires s'.store == Record(s.store, RowOf(MessageOf(pc).value, SharesIn(pc)))
    requires s'.owed == s.owed + names && forall k | k in names :: k.0 == MessageOf(pc).value.id
    ensures Posted(s')
  {
    var m := MessageOf(pc).value;
    var row := RowOf(m, SharesIn(pc));
    assert MessageHeld(s, s.pcs[t]);
    assert s'.store.table == s.store.table + [row];
    forall x | x in s'.pcs ensures MessageHeld(s', s'.pcs[x]) && RowsHeld(s', s'.pcs[x]) {
      if x != t {
        assert MessageHeld(s, s.pcs[x]) && RowsHeld(s, s.pcs[x]);
        StoredGrows(s.store.table, row);
      }
    }
    forall k | k in s'.store.pending ensures Makes(s'.store.table, k.0, k.1) {
      MakesGrows(s.store.table, row, k.0, k.1);
    }
    forall i | 0 <= i < |s'.sent| ensures Stands(s'.store.table, s'.sent[i]) {
      assert Stands(s.store.table, s.sent[i]);
      var r :| r in s.store.table && r.id == s.sent[i].frame.id && FlushFrame(r, s.sent[i].name) == Some(s.sent[i].frame);
      assert r in s'.store.table;
    }
  }

  lemma StoredGrows(table: seq<Row>, row: Row)
    ensures forall id :: Stored(table + [row], id) ==> Stored(table, id) || id == row.id
    ensures forall r | r in table :: r in table + [row]
  {
    var table' := table + [row];
    forall id | Stored(table', id) ensures Stored(table, id) || id == row.id {
      var i :| 0 <= i < |table'| && table'[i].id == id;
      assert i < |table| ==> table[i].id == id;
    }
  }

  lemma MakesGrows(table: seq<Row>, row: Row, id: string, reader: string)
    requires Makes(table, id, reader)
    ensures Makes(table + [row], id, reader)
  {
    var i :| 0 <= i < |table| && table[i].id == id && FlushFrame(table[i], reader).Some?;
    assert (table + [row])[i] == table[i];
  }

  /** One delivery made: the frame is what the stored row makes. */
  lemma PostedDeliver(s: Net, s': Net, t: Sid, pc: Pc, name: string, found: Option<Sid>, f: Message, row: Row)
    requires Posted(s) && row in s.store.table && row.id == f.id && FlushFrame(row, name) == Some(f)
    requires s' == At(DeliverOne(s, name, found, f), t, pc)
    requires MessageOf(pc).Some? ==> t in s.pcs && MessageOf(pc) == MessageOf(s.pcs[t])
    requires MessageHeld(s, pc) && RowsHeld(s, pc)
    ensures Posted(s')
  {
    assert s'.store.table == s.store.table && s'.used == s.used && s'.owed == s.owed;
    forall x | x in s'.pcs ensures MessageHeld(s', s'.pcs[x]) && RowsHeld(s', s'.pcs[x]) {
      assert x != t ==> MessageHeld(s, s.pcs[x]) && RowsHeld(s, s.pcs[x]);
    }
    assert Makes(s.store.table, f.id, name) by {
      var i :| 0 <= i < |s.store.table| && s.store.table[i] == row;
    }
    if found.Some? {
      assert Stands(s.store.table, Sent(found.value, name, f));
    }
  }

  lemma PostedFlush(s: Net, t: Sid, u: string)
    requires Posted(s) && t in s.pcs && s.pcs[t] == LoginFlush(u)
    ensures Posted(Going(s, t, ""))
  {
    var s', rows, keys := Going(s, t, ""), Flushed(s.store, u), FlushKeys(s.store, u);
    FlushTakes(s, u);
    forall x | x in s'.pcs ensures MessageHeld(s', s'.pcs[x]) && RowsHeld(s', s'.pcs[x]) {
      assert x != t ==> MessageHeld(s, s.pcs[x]) && RowsHeld(s, s.pcs[x]);
    }
  }

  /** No flushed row is unreadable, and none is taken twice. */
  lemma FlushTakes(s: Net, u: string)
    requires StoreHolds(s)
    ensures RowsHeld(s, LoginHand(u, Flushed(s.store, u)))
  {
    var rows, keys := Flushed(s.store, u), FlushKeys(s.store, u);
    forall j | 0 <= j < |rows| ensures rows[j] in s.store.table && FlushFrame(rows[j], u).Some? {
      assert keys[j] in Elements(keys);
      assert Makes(s.store.table, rows[j].id, u);
    }
    forall i, j | 0 <= i < j < |rows| ensures rows[i].id != rows[j].id {
      assert keys[i] in Elements(keys) && keys[j] in Elements(keys) && keys[i] != keys[j];
    }
  }

  // ----------------------------------------------------------------- every step

  ghost predicate Sound(s: Net) {
    Ledger(s) && Posted(s)
  }

  /** A step that moves one thread between places where it carries the same duties. */
  lemma MoveIsSound(s: Net, s': Net, t: Sid, pc: Pc)
    requires Sound(s) && s'.pcs == s.pcs[t := pc]
    requires s'.store == s.store && s'.sent == s.sent && s'.owed == s.owed && s'.used == s.used
    requires Carried(pc) == CarriedAt(s, t)
    requires MessageOf(pc).Some? ==> t in s.pcs && MessageOf(pc) == MessageOf(s.pcs[t])
    requires MessageHeld(s, pc) && RowsHeld(s, pc)
    ensures Sound(s')
  {
    LedgerSame(s, s', t);
    PostedMove(s, s', t, pc);
  }

  lemma HearingIsSound(s: Net, sid: Sid, r: Request)
    requires Sound(s) && Enabled(s, Hear(sid, r))
    ensures Sound(Hearing(s, sid, r))
  {
    var s' := Hearing(s, sid, r);
    if r.Send? && sid in s.who {
      SendIsHeard(s, sid, s.who[sid], r);
    } else {
      HearingMoves(s, sid, r);
      MoveIsSound(s, s', sid, s'.pcs[sid]);
    }
  }

  /** Every other request at most moves its own thread, empty-handed. */
  lemma HearingMoves(s: Net, sid: Sid, r: Request)
    requires Enabled(s, Hear(sid, r)) && !(r.Send? && sid in s.who)
    ensures var s' := Hearing(s, sid, r);
      && sid in s'.pcs && s'.pcs == s.pcs[sid := s'.pcs[sid]]
      && s'.store == s.store && s'.sent == s.sent && s'.owed == s.owed && s'.used == s.used
      && Carried(s'.pcs[sid]) == {} && MessageOf(s'.pcs[sid]).None? && !s'.pcs[sid].LoginHand?
  {}

  lemma SendIsHeard(s: Net, sid: Sid, me: string, r: Request)
    requires Sound(s) && Enabled(s, Hear(sid, r)) && r.Send?
    ensures Sound(Asking(s, sid, me, r))
  {
    var s' := Asking(s, sid, me, r);
    if r.to == "" {
      IdUsed(s, r.id, sid);
    } else {
      var pc := if IsRoom(r.to) then RoomExists(Mail.Accepted(me, r), r.shares) else UserLookup(Mail.Accepted(me, r));
      MessageTaken(s, sid, r.id, pc);
    }
  }

  lemma MessageTaken(s: Net, sid: Sid, id: string, pc: Pc)
    requires Sound(s) && sid in s.pcs && Carried(s.pcs[sid]) == {}
    requires id !in s.used && (pc.RoomExists? || pc.UserLookup?)
    requires var m := MessageOf(pc).value; m.id == id && Markless(m.nonce, SharesIn(pc)) && (AtRoom(pc) <==> IsRoom(m.to))
    ensures Sound(At(s.(used := s.used + {id}), sid, pc))
  {
    var s' := At(s.(used := s.used + {id}), sid, pc);
    LedgerSame(s, s', sid);
    PostedNew(s, s', sid, pc);
  }

  /** A refused message still uses up its id. */
  lemma IdUsed(s: Net, id: string, t: Sid)
    requires Sound(s)
    ensures Sound(s.(used := s.used + {id}))
  {
    var s' := s.(used := s.used + {id});
    LedgerSame(s, s', t);
    forall x | x in s'.pcs ensures MessageHeld(s', s'.pcs[x]) && RowsHeld(s', s'.pcs[x]) {
      assert MessageHeld(s, s.pcs[x]) && RowsHeld(s, s.pcs[x]);
    }
  }

  lemma GoingIsSound(s: Net, sid: Sid, pick: string)
    requires Sound(s) && Enabled(s, Go(sid, pick))
    ensures Sound(Going(s, sid, pick))
  {
    var pc := s.pcs[sid];
    assert MessageHeld(s, pc);
    if pc.LoginFlush? {
      FlushLedger(s, sid, pc.user);
      PostedFlush(s, sid, pc.user);
    } else if pc.LoginHand? {
      HandIsSound(s, sid, pc.user, pc.rows);
    } else if pc.UserRecord? || pc.RoomRecord? {
      RecordIsSound(s, sid, pick);
    } else if pc.UserDeliver? {
      DeliverIsSound(s, sid, pick);
    } else if pc.RoomGot? {
      GotIsSound(s, sid, pick);
    } else {
      var s' := Going(s, sid, pick);
      GoingMoves(s, sid, pick);
      MoveIsSound(s, s', sid, s'.pcs[sid]);
    }
  }

  lemma RecordIsSound(s: Net, sid: Sid, pick: string)
    requires Sound(s) && sid in s.pcs && (s.pcs[sid].UserRecord? || s.pcs[sid].RoomRecord?)
    ensures Sound(Going(s, sid, pick))
  {
    var pc := s.pcs[sid];
    assert MessageHeld(s, pc);
    if pc.UserRecord? {
      RecordDirectLedger(s, sid, pc.m, pc.found);
      PostedRecord(s, RecordDirect(s, sid, pc.m, pc.found), sid, UserNote(pc.m, pc.found), {(pc.m.id, pc.m.to)});
    } else {
      RecordRoomLedger(s, sid, pc.m, pc.shares, pc.left);
      PostedRecord(s, RecordRoom(s, sid, pc.m, pc.shares, pc.left), sid, RoomNext(pc.m, pc.shares, pc.left),
                   Duties(pc.m, pc.shares, pc.left));
    }
  }

  lemma DeliverIsSound(s: Net, sid: Sid, pick: string)
    requires Sound(s) && sid in s.pcs && s.pcs[sid].UserDeliver?
    ensures Sound(Going(s, sid, pick))
  {
    var pc := s.pcs[sid];
    assert MessageHeld(s, pc);
    DeliverLedger(s, sid, pc.m.to, pc.found, pc.m, Idle);
    LiveIsFlushed(pc.m, None, pc.m.to);
    PostedDeliver(s, Going(s, sid, pick), sid, Idle, pc.m.to, pc.found, pc.m, RowOf(pc.m, None));
  }

  lemma HandIsSound(s: Net, sid: Sid, u: string, rows: seq<Row>)
    requires Sound(s) && sid in s.pcs && s.pcs[sid] == LoginHand(u, rows)
    ensures Sound(Handing(s, sid, u, rows))
  {
    assert RowsHeld(s, s.pcs[sid]);
    HandLedger(s, sid, u, rows);
    if rows == [] {
      PostedMove(s, Handing(s, sid, u, rows), sid, Idle);
    } else {
      assert forall i | 0 <= i < |rows| - 1 :: rows[1..][i] == rows[i + 1];
      PostedDeliver(s, Handing(s, sid, u, rows), sid, LoginHand(u, rows[1..]), u, Some(sid), FlushFrame(rows[0], u).value, rows[0]);
    }
  }

  lemma GotIsSound(s: Net, sid: Sid, pick: string)
    requires Sound(s) && sid in s.pcs && s.pcs[sid].RoomGot?
    ensures Sound(Going(s, sid, pick))
  {
    var pc, s' := s.pcs[sid], Going(s, sid, pick);
    var RoomGot(m, shares, name, found, left) := pc;
    var next := RoomNext(m, shares, left);
    assert MessageHeld(s, pc);
    if AddressedTo(m, shares, name).None? {
      assert Carried(next) == Carried(pc);
      MoveIsSound(s, s', sid, next);
    } else {
      assert Carried(next) == Carried(pc) - {(m.id, name)};
      var f := AddressedTo(m, shares, name).value;
      DeliverLedger(s, sid, name, found, f, next);
      LiveIsFlushed(m, shares, name);
      PostedDeliver(s, s', sid, next, name, found, f, RowOf(m, shares));
    }
  }

  /** Only thread sid moved, with its duties and its message unchanged. */
  ghost predicate Moved(s: Net, s': Net, sid: Sid)
    requires sid in s.pcs
  {
    && sid in s'.pcs && s'.pcs == s.pcs[sid := s'.pcs[sid]]
    && s'.store == s.store && s'.sent == s.sent && s'.owed == s.owed && s'.used == s.used
    && Carried(s'.pcs[sid]) == Carried(s.pcs[sid]) && !s'.pcs[sid].LoginHand?
    && (MessageOf(s'.pcs[sid]).Some? ==> MessageOf(s'.pcs[sid]) == MessageOf(s.pcs[sid]))
    && MessageHeld(s, s'.pcs[sid])
  }

  /** A thread that goes on to a place where it holds the same message and duties. */
  lemma MovedTo(s: Net, s': Net, sid: Sid, pc: Pc)
    requires sid in s.pcs && s'.pcs == s.pcs[sid := pc]
    requires s'.store == s.store && s'.sent == s.sent && s'.owed == s.owed && s'.used == s.used
    requires Carried(pc) == Carried(s.pcs[sid]) && !pc.LoginHand?
    requires MessageOf(pc).None? || (SameMessage(s.pcs[sid], pc) && MessageHeld(s, s.pcs[sid]))
    ensures Moved(s, s', sid)
  {}

  predicate SameMessage(pc: Pc, pc': Pc) {
    && MessageOf(pc') == MessageOf(pc) && SharesIn(pc') == SharesIn(pc)
    && Recorded(pc') == Recorded(pc) && AtRoom(pc') == AtRoom(pc) && (pc'.RoomGot? ==> pc'.name !in pc'.left)
  }

  lemma RoomGoingMoves(s: Net, sid: Sid, pick: string)
    requires sid in s.pcs && MessageHeld(s, s.pcs[sid])
    requires s.pcs[sid].RoomExists? || s.pcs[sid].RoomMembers?
    ensures Moved(s, GoRoom(s, sid, s.pcs[sid], pick), sid)
  {
    var s' := GoRoom(s, sid, s.pcs[sid], pick);
    MovedTo(s, s', sid, s'.pcs[sid]);
  }

  lemma FanOutGoingMoves(s: Net, sid: Sid, pick: string)
    requires sid in s.pcs && MessageHeld(s, s.pcs[sid]) && s.pcs[sid].RoomNext?
    ensures Moved(s, GoRoom(s, sid, s.pcs[sid], pick), sid)
  {
    var RoomNext(m, shares, left) := s.pcs[sid];
    var s' := GoRoom(s, sid, s.pcs[sid], pick);
    if pick in left {
      assert left - {pick} + {pick} == left;
      MovedTo(s, s', sid, RoomGot(m, shares, pick, Lookup(s, pick), left - {pick}));
    } else {
      assert left == {} ==> Duties(m, shares, left) == {};
      MovedTo(s, s', sid, if left == {} then Idle else RoomNext(m, shares, left));
    }
  }

  lemma UserGoingMoves(s: Net, sid: Sid)
    requires sid in s.pcs && MessageHeld(s, s.pcs[sid])
    requires s.pcs[sid].UserLookup? || s.pcs[sid].UserExists?
    ensures Moved(s, GoUser(s, sid, s.pcs[sid]), sid)
  {
    var s' := GoUser(s, sid, s.pcs[sid]);
    MovedTo(s, s', sid, s'.pcs[sid]);
  }

  lemma NoteGoingMoves(s: Net, sid: Sid)
    requires sid in s.pcs && MessageHeld(s, s.pcs[sid])
    requires s.pcs[sid].UserNote? || s.pcs[sid].UserNoteBack?
    ensures Moved(s, GoUser(s, sid, s.pcs[sid]), sid)
  {
    var s' := GoUser(s, sid, s.pcs[sid]);
    MovedTo(s, s', sid, s'.pcs[sid]);
  }

  lemma LoginGoingMoves(s: Net, sid: Sid)
    requires sid in s.pcs && (s.pcs[sid].LoginClaim? || s.pcs[sid].LoginName? || s.pcs[sid].DropLogout? || s.pcs[sid].DropName?)
    ensures Moved(s, GoLogin(s, sid, s.pcs[sid]), sid)
  {}

  lemma MemberGoingMoves(s: Net, sid: Sid)
    requires sid in s.pcs
    requires s.pcs[sid].JoinJoin? || s.pcs[sid].LeaveLeave? || s.pcs[sid].ContactAdd? || s.pcs[sid].InviteCheck?
    ensures Moved(s, GoKeeping(s, sid, s.pcs[sid]), sid)
  {
    var s' := GoKeeping(s, sid, s.pcs[sid]);
    MovedTo(s, s', sid, s'.pcs[sid]);
  }

  lemma AddGoingMoves(s: Net, sid: Sid)
    requires sid in s.pcs
    requires s.pcs[sid].CreateJoin? || s.pcs[sid].AddJoin?
    ensures Moved(s, GoKeeping(s, sid, s.pcs[sid]), sid)
  {
    var s' := GoKeeping(s, sid, s.pcs[sid]);
    MovedTo(s, s', sid, s'.pcs[sid]);
  }

  lemma CheckGoingMoves(s: Net, sid: Sid)
    requires sid in s.pcs && s.pcs[sid].AddCheck?
    ensures Moved(s, GoKeeping(s, sid, s.pcs[sid]), sid)
  {
    CheckIs(s, sid);
    MovedTo(s, GoKeeping(s, sid, s.pcs[sid]), sid, AfterCheck(s, s.pcs[sid]));
  }

  /** Every other step moves only its own thread. */
  lemma GoingMoves(s: Net, sid: Sid, pick: string)
    requires sid in s.pcs && MessageHeld(s, s.pcs[sid]) && !s.pcs[sid].Idle? && !s.pcs[sid].Closed?
    requires var pc := s.pcs[sid];
      !pc.LoginFlush? && !pc.LoginHand? && !pc.UserRecord? && !pc.RoomRecord? && !pc.UserDeliver? && !pc.RoomGot?
    ensures Moved(s, Going(s, sid, pick), sid)
  {
    var pc := s.pcs[sid];
    if pc.RoomNext? {
      FanOutGoingMoves(s, sid, pick);
    } else if pc.RoomExists? || pc.RoomMembers? {
      RoomGoingMoves(s, sid, pick);
    } else if pc.UserLookup? || pc.UserExists? {
      UserGoingMoves(s, sid);
    } else if pc.UserNote? || pc.UserNoteBack? {
      NoteGoingMoves(s, sid);
    } else if pc.LoginClaim? || pc.LoginName? || pc.DropLogout? || pc.DropName? {
      LoginGoingMoves(s, sid);
    } else if pc.AddCheck? {
      CheckGoingMoves(s, sid);
    } else if pc.CreateJoin? || pc.AddJoin? {
      AddGoingMoves(s, sid);
    } else {
      MemberGoingMoves(s, sid);
    }
  }

  lemma StepIsSound(s: Net, e: Event)
    requires Sound(s)
    ensures Sound(I.Next(s, e))
  {
    if Enabled(s, e) {
      match e
      case Connect(sid) => MoveIsSound(s, I.Next(s, e), sid, Idle);
      case Hear(sid, r) => HearingIsSound(s, sid, r);
      case Hang(sid) => MoveIsSound(s, I.Next(s, e), sid, I.Next(s, e).pcs[sid]);
      case Go(sid, pick) => GoingIsSound(s, sid, pick);
    }
  }

  lemma {:induction false} RunsAreSound(events: seq<Event>)
    ensures Sound(I.Run(QUIET_NET, events))
  {
    if events != [] {
      RunsAreSound(events[..|events| - 1]);
      StepIsSound(I.Run(QUIET_NET, events[..|events| - 1]), events[|events| - 1]);
    }
  }
}
