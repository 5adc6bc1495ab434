/** Messages across disconnects and logins: the three delivery paths agree, and one
    sender's messages in one conversation arrive in the order they were accepted. */
module Absences {
  import opened Text
  import opened Sorting
  import opened Messages
  import opened Hub
  import opened Replica
  import opened Mail
  import Crypto
  import Receipts

  // ------------------------------------------------------------ three paths

  /** No client-supplied nonce is the marker of a sealed map. */
  predicate PlainNonce(nonce: Option<string>) {
    nonce != Some(ENVELOPES)
  }

  /** A message stored under its own nonce must not bear the marker; a sealed one is
      stored under the marker, whatever nonce its frame carries. */
  predicate Markless(nonce: Option<string>, shares: Option<map<string, Share>>) {
    shares.Some? || PlainNonce(nonce)
  }

  /** For every message and member, the frame sent live is the frame a login flush
      rebuilds from the stored row, exactly when the message is sealed for each member
      or its nonce is not the marker; and a member with no well-formed share gets
      nothing on either path. */
  lemma LiveIsFlushed(m: Frame, shares: Option<map<string, Share>>, member: string)
    requires m.Msg? && (shares.Some? ==> IsRoom(m.to))
    ensures FlushFrame(RowOf(m, shares), member) == AddressedTo(m, shares, member) <==> Markless(m.nonce, shares)
  {}

  /** The history entry carries the same id, sender, recipient, body, nonce and time. */
  lemma FlushedIsRemembered(row: Row, reader: string)
    ensures FlushFrame(row, reader).Some? <==> HistoryEntry(row, reader).Some?
    ensures HistoryEntry(row, reader).Some? ==>
      var e := HistoryEntry(row, reader).value;
      FlushFrame(row, reader) == Some(Msg(e.sender, e.to, e.body, e.nonce, e.id, e.ts))
  {}

  /** Receipts stamped on a row change no path. */
  lemma StampsChangeNoFrame(a: Row, b: Row, reader: string)
    requires Receipts.SameButStamps(a, b)
    ensures FlushFrame(a, reader) == FlushFrame(b, reader)
  {}

  /** The hypothesis on nonces is needed: a direct message whose nonce is the marker is
      delivered live, yet a flush would discard it (or, when its text is JSON but no
      object, raise while the queue is already cleared). */
  lemma MarkerNonceIsDiscarded(sender: string, to: string, body: Crypto.Payload, id: string, ts: int)
    requires !IsRoom(to)
    ensures var m := Msg(sender, to, Text(body), Some(ENVELOPES), id, ts);
      AddressedTo(m, None, to) == Some(m) && FlushFrame(RowOf(m, None), to) == None
  {}

  // ------------------------------------------------------------ finding a row

  function Locate(table: seq<Row>, id: string): (i: nat)
    ensures i <= |table|
    ensures i < |table| ==> table[i].id == id
    ensures forall j | 0 <= j < i :: table[j].id != id
  {
    if table == [] || table[0].id == id then 0 else
      var i := Locate(table[1..], id);
      assert forall j | 1 <= j < |table| :: table[j] == table[1..][j - 1];
      i + 1
  }

  lemma LocateIs(table: seq<Row>, i: nat)
    requires i < |table| && UniqueIds(table)
    ensures Locate(table, table[i].id) == i
  {}

  // ------------------------------------------------------- one user's desk

  /** What the hub holds for one user: the rows, the ids still owed, whether they are
      here, and every MSG ever handed to a session of theirs. */
  datatype Desk = Desk(table: seq<Row>, owed: set<string>, here: bool, trail: seq<Frame>)

  /** A row of a sender in a conversation. */
  predicate IsFrom(row: Row, sender: string, conversation: string) {
    row.sender == sender && row.conversation == conversation
  }

  /** In one conversation, a sender's timestamps never decrease. */
  ghost predicate NeverBack(table: seq<Row>, sender: string, conversation: string) {
    forall i, j | 0 <= i < j < |table| && IsFrom(table[i], sender, conversation) && IsFrom(table[j], sender, conversation) ::
      table[i].ts <= table[j].ts
  }

  ghost predicate Traced(d: Desk, u: string, f: Frame) {
    f.Msg? && Locate(d.table, f.id) < |d.table| && FlushFrame(d.table[Locate(d.table, f.id)], u) == Some(f)
  }

  ghost predicate Owing(d: Desk, u: string, id: string) {
    Locate(d.table, id) < |d.table| && FlushFrame(d.table[Locate(d.table, id)], u).Some?
  }

  /** Two messages handed over in the order they were accepted. */
  ghost predicate InOrder(table: seq<Row>, f: Frame, g: Frame)
    requires f.Msg? && g.Msg?
  {
    var i, j := Locate(table, f.id), Locate(table, g.id);
    && i < |table| && j < |table|
    && (IsFrom(table[j], table[i].sender, table[i].conversation) ==>
          NeverBack(table, table[i].sender, table[i].conversation) ==> i < j)
  }

  ghost predicate AllTraced(d: Desk, u: string) {
    forall k | 0 <= k < |d.trail| :: Traced(d, u, d.trail[k])
  }

  ghost predicate AllOwing(d: Desk, u: string) {
    forall id | id in d.owed :: Owing(d, u, id)
  }

  /** Whatever is still owed was accepted after everything handed over. */
  ghost predicate OwedIsNewer(d: Desk) {
    forall k, id | 0 <= k < |d.trail| && d.trail[k].Msg? && id in d.owed :: Locate(d.table, d.trail[k].id) < Locate(d.table, id)
  }

  ghost predicate Ordered(d: Desk)
    requires forall k | 0 <= k < |d.trail| :: d.trail[k].Msg?
  {
    forall a, b | 0 <= a < b < |d.trail| :: InOrder(d.table, d.trail[a], d.trail[b])
  }

  ghost predicate Kept(d: Desk, u: string) {
    UniqueIds(d.table) && (d.here ==> d.owed == {}) && AllOwing(d, u) && AllTraced(d, u) && OwedIsNewer(d) && Ordered(d)
  }

  ghost predicate SameRows(t: seq<Row>, t': seq<Row>) {
    |t'| == |t| && forall i | 0 <= i < |t| :: Receipts.SameButStamps(t'[i], t[i])
  }

  lemma SameRowsLocate(t: seq<Row>, t': seq<Row>, id: string)
    requires SameRows(t, t')
    ensures Locate(t', id) == Locate(t, id)
  {
    var i, j := Locate(t, id), Locate(t', id);
    assert i < |t| ==> t'[i].id == t[i].id;
    assert j < |t'| ==> t[j].id == t'[j].id;
  }

  /** Nothing for this user; they may have left. */
  lemma StandingKeeps(d: Desk, d': Desk, u: string)
    requires Kept(d, u) && SameRows(d.table, d'.table)
    requires d'.owed == d.owed && d'.trail == d.trail && (d'.here ==> d.here)
    ensures Kept(d', u)
  {
    forall id ensures Locate(d'.table, id) == Locate(d.table, id) { SameRowsLocate(d.table, d'.table, id); }
    forall i | 0 <= i < |d.table| ensures FlushFrame(d'.table[i], u) == FlushFrame(d.table[i], u) {
      StampsChangeNoFrame(d'.table[i], d.table[i], u);
    }
    forall a, b | 0 <= a < b < |d.trail| ensures InOrder(d'.table, d.trail[a], d.trail[b]) {
      assert InOrder(d.table, d.trail[a], d.trail[b]) && Traced(d, u, d.trail[a]) && Traced(d, u, d.trail[b]);
      var i := Locate(d.table, d.trail[a].id);
      NeverBackSame(d.table, d'.table, d.table[i].sender, d.table[i].conversation);
    }
  }

  lemma NeverBackSame(t: seq<Row>, t': seq<Row>, sender: string, conversation: string)
    requires SameRows(t, t')
    ensures NeverBack(t', sender, conversation) ==> NeverBack(t, sender, conversation)
  {
    assert forall i | 0 <= i < |t| :: IsFrom(t'[i], sender, conversation) <==> IsFrom(t[i], sender, conversation);
  }

  lemma AppendLocate(t: seq<Row>, row: Row, id: string)
    requires !Stored(t, row.id)
    ensures Locate(t + [row], id) == if id == row.id then |t| else if Locate(t, id) == |t| then |t| + 1 else Locate(t, id)
  {
    var t' := t + [row];
    var i, j := Locate(t, id), Locate(t', id);
    assert forall k | 0 <= k < |t| :: t'[k] == t[k];
    assert t'[|t|] == row;
  }

  /** A new row, for this user or not: sent now, or owed. */
  ghost predicate Arrival(d: Desk, d': Desk, u: string, row: Row, mine: bool) {
    && !Stored(d.table, row.id) && d'.table == d.table + [row] && d'.here == d.here
    && (mine ==> FlushFrame(row, u).Some?)
    && d'.owed == d.owed + (if mine && !d.here then {row.id} else {})
    && d'.trail == d.trail + (if mine && d.here then [FlushFrame(row, u).value] else [])
  }

  lemma ArrivalLocates(d: Desk, d': Desk, u: string, row: Row, mine: bool)
    requires Arrival(d, d', u, row, mine)
    ensures Locate(d'.table, row.id) == |d.table| && d'.table[|d.table|] == row
    ensures forall id | Locate(d.table, id) < |d.table| ::
      Locate(d'.table, id) == Locate(d.table, id) && d'.table[Locate(d.table, id)] == d.table[Locate(d.table, id)]
  {
    AppendLocate(d.table, row, row.id);
    forall id | Locate(d.table, id) < |d.table| ensures Locate(d'.table, id) == Locate(d.table, id) {
      AppendLocate(d.table, row, id);
    }
  }

  lemma ArrivalTraced(d: Desk, d': Desk, u: string, row: Row, mine: bool)
    requires Kept(d, u) && Arrival(d, d', u, row, mine)
    ensures AllTraced(d', u) && AllOwing(d', u)
  {
    ArrivalLocates(d, d', u, row, mine);
    forall k | 0 <= k < |d'.trail| ensures Traced(d', u, d'.trail[k]) {
      if k < |d.trail| { assert Traced(d, u, d.trail[k]); }
    }
    forall id | id in d'.owed ensures Owing(d', u, id) {
      if id in d.owed { assert Owing(d, u, id); }
    }
  }

  lemma ArrivalOrdered(d: Desk, d': Desk, u: string, row: Row, mine: bool)
    requires Kept(d, u) && Arrival(d, d', u, row, mine) && AllTraced(d', u)
    ensures Ordered(d')
  {
    ArrivalLocates(d, d', u, row, mine);
    forall a, b | 0 <= a < b < |d'.trail| ensures InOrder(d'.table, d'.trail[a], d'.trail[b]) {
      assert Traced(d', u, d'.trail[a]) && Traced(d', u, d'.trail[b]) && Traced(d, u, d.trail[a]);
      if b < |d.trail| {
        assert InOrder(d.table, d.trail[a], d.trail[b]) && Traced(d, u, d.trail[b]);
        var i := Locate(d.table, d.trail[a].id);
        NeverBackPrefix(d.table, row, d.table[i].sender, d.table[i].conversation);
      }
    }
  }

  lemma ArrivalKeeps(d: Desk, d': Desk, u: string, row: Row, mine: bool)
    requires Kept(d, u) && Arrival(d, d', u, row, mine)
    ensures Kept(d', u)
  {
    ArrivalLocates(d, d', u, row, mine);
    ArrivalTraced(d, d', u, row, mine);
    ArrivalOrdered(d, d', u, row, mine);
    forall k, id | 0 <= k < |d'.trail| && id in d'.owed ensures Locate(d'.table, d'.trail[k].id) < Locate(d'.table, id) {
      assert d'.owed != {} ==> !d.here && d'.trail == d.trail;
      assert Traced(d, u, d.trail[k]);
      if id in d.owed { assert Owing(d, u, id); }
    }
  }

  lemma NeverBackPrefix(t: seq<Row>, row: Row, sender: string, conversation: string)
    ensures NeverBack(t + [row], sender, conversation) ==> NeverBack(t, sender, conversation)
  {
    assert forall i | 0 <= i < |t| :: (t + [row])[i] == t[i];
  }

  /** The rows a flush hands over, when none of them is unreadable. */
  lemma {:induction false} FlushShape(rows: seq<Row>, u: string)
    requires forall k | 0 <= k < |rows| :: FlushFrame(rows[k], u).Some?
    ensures |FlushFrames(rows, u)| == |rows|
    ensures forall k | 0 <= k < |rows| :: FlushFrames(rows, u)[k] == FlushFrame(rows[k], u).value
  {
    if rows != [] {
      assert forall k | 0 <= k < |rows| - 1 :: rows[1..][k] == rows[k + 1];
      FlushShape(rows[1..], u);
    }
  }

  /** The queue is handed over oldest first: one sender's messages stay in order. */
  lemma FlushInOrder(st: Store, u: string, a: nat, b: nat)
    requires UniqueIds(st.table) && a < b < |FlushKeys(st, u)|
    requires FlushFrame(Flushed(st, u)[a], u).Some? && FlushFrame(Flushed(st, u)[b], u).Some?
    ensures var rows := Flushed(st, u);
      InOrder(st.table, FlushFrame(rows[a], u).value, FlushFrame(rows[b], u).value)
  {
    var keys := FlushKeys(st, u);
    var i, j := keys[a].1, keys[b].1;
    assert keys[a] in Elements(keys) && keys[b] in Elements(keys);
    assert keys[a] != keys[b] && KeyLeq(keys[a], keys[b]);
    LocateIs(st.table, i);
    LocateIs(st.table, j);
  }

  /** The user is back: the queue is emptied into their session. */
  ghost predicate Return(d: Desk, d': Desk, u: string, st: Store) {
    && !d.here && st.table == d.table
    && (forall id :: id in d.owed <==> (id, u) in st.pending)
    && d'.table == d.table && d'.owed == {} && d'.trail == d.trail + FlushFrames(Flushed(st, u), u)
  }

  /** No row of the queue is discarded: each is readable, and found where it is owed. */
  lemma FlushedAreOwed(d: Desk, u: string, st: Store)
    requires Kept(d, u) && st.table == d.table && (forall id :: id in d.owed <==> (id, u) in st.pending)
    ensures var rows := Flushed(st, u);
      forall k | 0 <= k < |rows| :: rows[k].id in d.owed && FlushFrame(rows[k], u).Some?
        && Locate(d.table, rows[k].id) == FlushKeys(st, u)[k].1 && rows[k] == d.table[FlushKeys(st, u)[k].1]
  {
    var keys, rows := FlushKeys(st, u), Flushed(st, u);
    forall k | 0 <= k < |rows| ensures rows[k].id in d.owed && FlushFrame(rows[k], u).Some?
        && Locate(d.table, rows[k].id) == keys[k].1 && rows[k] == d.table[keys[k].1] {
      assert keys[k] in Elements(keys);
      LocateIs(d.table, keys[k].1);
      assert Owing(d, u, rows[k].id);
    }
  }

  lemma ReturnKeeps(d: Desk, d': Desk, u: string, st: Store)
    requires Kept(d, u) && Return(d, d', u, st)
    ensures Kept(d', u)
  {
    var rows, n := Flushed(st, u), |d.trail|;
    FlushedAreOwed(d, u, st);
    FlushShape(rows, u);
    forall k | 0 <= k < |d'.trail| ensures Traced(d', u, d'.trail[k]) {
      if k < n { assert Traced(d, u, d.trail[k]); }
      else { assert d'.trail[k] == FlushFrame(rows[k - n], u).value; }
    }
    ReturnOrdered(d, d', u, st);
  }

  lemma FlushedComeLater(d: Desk, u: string, st: Store, a: nat, k: nat)
    requires Kept(d, u) && st.table == d.table && (forall id :: id in d.owed <==> (id, u) in st.pending)
    requires a < |d.trail| && k < |Flushed(st, u)| && FlushFrame(Flushed(st, u)[k], u).Some?
    ensures d.trail[a].Msg? && InOrder(d.table, d.trail[a], FlushFrame(Flushed(st, u)[k], u).value)
  {
    FlushedAreOwed(d, u, st);
    assert Flushed(st, u)[k].id in d.owed;
    assert Traced(d, u, d.trail[a]) && Owing(d, u, Flushed(st, u)[k].id);
  }

  /** Where a message handed over at a return comes from. */
  lemma ReturnedFrom(d: Desk, d': Desk, u: string, st: Store, b: nat)
    requires Kept(d, u) && Return(d, d', u, st) && |d.trail| <= b < |d'.trail|
    ensures var k := b - |d.trail|;
      k < |FlushKeys(st, u)| == |Flushed(st, u)| && FlushFrame(Flushed(st, u)[k], u) == Some(d'.trail[b])
  {
    FlushedAreOwed(d, u, st);
    FlushShape(Flushed(st, u), u);
  }

  lemma ReturnedPair(d: Desk, d': Desk, u: string, st: Store, a: nat, b: nat)
    requires Kept(d, u) && Return(d, d', u, st) && |d.trail| <= a < b < |d'.trail| && d'.trail[a].Msg? && d'.trail[b].Msg?
    ensures InOrder(d'.table, d'.trail[a], d'.trail[b])
  {
    ReturnedFrom(d, d', u, st, a);
    ReturnedFrom(d, d', u, st, b);
    FlushInOrder(st, u, a - |d.trail|, b - |d.trail|);
  }

  lemma ReturnPair(d: Desk, d': Desk, u: string, st: Store, a: nat, b: nat)
    requires Kept(d, u) && Return(d, d', u, st) && AllTraced(d', u) && a < b < |d'.trail|
    ensures InOrder(d'.table, d'.trail[a], d'.trail[b])
  {
    var n := |d.trail|;
    if b < n {
      assert InOrder(d.table, d.trail[a], d.trail[b]);
    } else {
      ReturnedFrom(d, d', u, st, b);
      if a < n {
        FlushedComeLater(d, u, st, a, b - n);
      } else {
        ReturnedPair(d, d', u, st, a, b);
      }
    }
  }

  lemma ReturnOrdered(d: Desk, d': Desk, u: string, st: Store)
    requires Kept(d, u) && Return(d, d', u, st) && AllTraced(d', u)
    ensures Ordered(d')
  {
    forall a, b | 0 <= a < b < |d'.trail| ensures InOrder(d'.table, d'.trail[a], d'.trail[b]) {
      ReturnPair(d, d', u, st, a, b);
    }
  }
}
