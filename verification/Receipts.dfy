/** Receipts on the server: a message's state is a join, and its stamps are final. */
module Receipts {
  import opened Text
  import opened Messages

  /** What one client reported: DELIVERED or READ, and when. */
  datatype Report = Report(state: Label, when: int)

  function Rank(l: Label): nat {
    match l case SENT => 0 case DELIVERED => 1 case READ => 2
  }

  function Join(a: Label, b: Label): Label {
    if Rank(a) < Rank(b) then b else a
  }

  function StateOf(table: seq<Row>, id: string): Label {
    if table == [] then SENT
    else if table[0].id == id then RowLabel(table[0])
    else StateOf(table[1..], id)
  }

  function MarkAll(st: Store, id: string, reports: seq<Report>): Store {
    if reports == [] then st
    else Mark(MarkAll(st, id, reports[..|reports| - 1]), id, reports[|reports| - 1].state, reports[|reports| - 1].when)
  }

  /** The highest state among a start and a set of reports: order and repeats are gone. */
  ghost predicate IsHighest(l: Label, start: Label, reported: set<Label>) {
    && (l == start || l in reported)
    && Rank(start) <= Rank(l)
    && forall r | r in reported :: Rank(r) <= Rank(l)
  }

  function Reported(reports: seq<Report>): set<Label> {
    set r | r in reports :: r.state
  }

  /** Read implies delivered, for every row. */
  ghost predicate ReadImpliesDelivered(table: seq<Row>) {
    forall i | 0 <= i < |table| :: table[i].readAt.Some? ==> table[i].deliveredAt.Some?
  }

  ghost predicate SameButStamps(a: Row, b: Row) {
    a == b.(deliveredAt := a.deliveredAt, readAt := a.readAt)
  }

  /** The time of the first report that sets a stamp: any report for `delivered_at`,
      the first READ for `read_at`. */
  function FirstStamp(old_: Option<int>, reports: seq<Report>, readOnly: bool): Option<int> {
    if old_.Some? then old_
    else if reports == [] then None
    else if !readOnly || reports[0].state == READ then Some(reports[0].when)
    else FirstStamp(None, reports[1..], readOnly)
  }

  lemma {:induction false} FirstStampExtends(old_: Option<int>, reports: seq<Report>, r: Report, readOnly: bool)
    ensures FirstStamp(old_, reports + [r], readOnly)
         == (var s := FirstStamp(old_, reports, readOnly);
             if s.Some? then s else if !readOnly || r.state == READ then Some(r.when) else None)
  {
    if old_.None? && reports != [] {
      assert (reports + [r])[1..] == reports[1..] + [r];
      FirstStampExtends(old_, reports[1..], r, readOnly);
    }
  }

  /** Exactly what any sequence of receipts does to each row: the row it names gets
      the first stamps reported and keeps those it had; every other row is untouched. */
  lemma {:induction false} MarkAllRows(st: Store, id: string, reports: seq<Report>)
    requires forall r | r in reports :: r.state != SENT
    ensures var after := MarkAll(st, id, reports);
      && after.pending == st.pending && |after.table| == |st.table|
      && forall i | 0 <= i < |st.table| :: RowMarked(st.table[i], after.table[i], id, reports)
  {
    if reports != [] {
      var front, r := reports[..|reports| - 1], reports[|reports| - 1];
      assert reports == front + [r];
      assert forall x | x in front :: x in reports;
      MarkAllRows(st, id, front);
      var before, after := MarkAll(st, id, front).table, MarkAll(st, id, reports).table;
      forall i | 0 <= i < |st.table| ensures RowMarked(st.table[i], after[i], id, reports) {
        assert RowMarked(st.table[i], before[i], id, front);
        OneMark(st.table[i], before[i], id, front, r);
      }
    }
  }

  /** What reports for an id do to one row. */
  ghost predicate RowMarked(row: Row, after: Row, id: string, reports: seq<Report>) {
    && SameButStamps(after, row)
    && (row.id != id ==> after == row)
    && (row.id == id ==> after.deliveredAt == FirstStamp(row.deliveredAt, reports, false)
                         && after.readAt == FirstStamp(row.readAt, reports, true))
  }

  lemma {:induction false} OneMark(row: Row, before: Row, id: string, reports: seq<Report>, r: Report)
    requires RowMarked(row, before, id, reports) && r.state != SENT
    ensures RowMarked(row, if before.id == id then Stamped(before, r.state, r.when) else before, id, reports + [r])
  {
    FirstStampExtends(row.deliveredAt, reports, r, false);
    FirstStampExtends(row.readAt, reports, r, true);
  }

  lemma {:induction false} FirstStampSet(old_: Option<int>, reports: seq<Report>, readOnly: bool)
    requires forall r | r in reports :: r.state != SENT
    ensures FirstStamp(old_, reports, readOnly).Some?
       <==> old_.Some? || (if readOnly then READ in Reported(reports) else reports != [])
  {
    if old_.None? && reports != [] {
      assert reports == [reports[0]] + reports[1..];
      assert Reported(reports) == {reports[0].state} + Reported(reports[1..]);
      FirstStampSet(old_, reports[1..], readOnly);
    }
  }

  lemma {:induction false} StateOfRow(table: seq<Row>, id: string, i: nat)
    requires i < |table| && UniqueIds(table) && table[i].id == id
    ensures StateOf(table, id) == RowLabel(table[i])
  {
    if i > 0 {
      assert forall j | 0 <= j < |table| - 1 :: table[1..][j] == table[j + 1];
      StateOfRow(table[1..], id, i - 1);
    }
  }

  /** The state is the maximum of where it stood and everything reported, in any
      order and with repeats; and a row that is read is delivered. */
  lemma ReceiptsFormAJoin(st: Store, id: string, reports: seq<Report>)
    requires UniqueIds(st.table) && Stored(st.table, id) && ReadImpliesDelivered(st.table)
    requires forall r | r in reports :: r.state != SENT
    ensures IsHighest(StateOf(MarkAll(st, id, reports).table, id), StateOf(st.table, id), Reported(reports))
    ensures ReadImpliesDelivered(MarkAll(st, id, reports).table)
    ensures UniqueIds(MarkAll(st, id, reports).table)
  {
    MarkAllRows(st, id, reports);
    var after := MarkAll(st, id, reports).table;
    forall k | 0 <= k < |st.table| ensures after[k].id == st.table[k].id && (after[k].readAt.Some? ==> after[k].deliveredAt.Some?) {
      RowJoins(st.table[k], after[k], id, reports);
    }
    var i :| 0 <= i < |st.table| && st.table[i].id == id;
    RowJoins(st.table[i], after[i], id, reports);
    StateOfRow(st.table, id, i);
    StateOfRow(after, id, i);
  }

  /** What the reports do to one row. */
  lemma {:induction false} RowJoins(row: Row, after: Row, id: string, reports: seq<Report>)
    requires row.readAt.Some? ==> row.deliveredAt.Some?
    requires forall r | r in reports :: r.state != SENT
    requires RowMarked(row, after, id, reports)
    ensures after.id == row.id && (after.readAt.Some? ==> after.deliveredAt.Some?)
    ensures row.id == id ==> IsHighest(RowLabel(after), RowLabel(row), Reported(reports))
  {
    FirstStampSet(row.deliveredAt, reports, false);
    FirstStampSet(row.readAt, reports, true);
    assert forall r | r in Reported(reports) :: r == DELIVERED || r == READ;
    if reports != [] { assert reports[0].state in Reported(reports); }
  }

  /** The label a history entry shows is the state, exactly when no stamp that
      decides it is zero. */
  lemma HistoryLabelIsState(row: Row)
    ensures HistoryLabel(row) == RowLabel(row)
       <==> (row.readAt.Some? ==> row.readAt.value != 0)
            && (row.readAt.None? && row.deliveredAt.Some? ==> row.deliveredAt.value != 0)
  {}
}
