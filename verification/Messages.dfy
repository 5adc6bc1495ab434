/** im/server/store/messages.py: the message table, the offline queue and the
    receipts stamped on a row. The table is a sequence whose index is the rowid. */
module Messages {
  import opened Text
  import opened Sorting
  import opened Crypto

  /** One member's share of a room message: `[ciphertext, nonce]`, or anything else. */
  datatype Share = Share(body: Payload, nonce: string) | Malformed

  /** A body column. `Envelopes(m)` is the JSON text of the map m; `Text(p)` is any
      text that is not a JSON object. A text that is JSON but no object ("[]", "null")
      counts as not JSON at all: read under the marker nonce it makes the source raise
      (im/server/router.py:639-648) where this model leaves the row out. Only a row that
      was stored with the marker as its own nonce can hold such a text. */
  datatype Body = Absent | Text(payload: Payload) | Envelopes(shares: map<string, Share>)

  datatype Label = SENT | DELIVERED | READ

  datatype Row = Row(
    id: string, conversation: string, sender: string, recipient: string,
    body: Body, nonce: Option<string>, ts: int,
    deliveredAt: Option<int>, readAt: Option<int>)

  datatype Store = Store(table: seq<Row>, pending: set<(string, string)>)

  const PAIR_SEPARATOR: char := '\U{1F}'
  const ENVELOPES := "*"
  const DEFAULT_LIMIT := 50
  const MAX_LIMIT := 200

  predicate Stored(table: seq<Row>, id: string) {
    exists i | 0 <= i < |table| :: table[i].id == id
  }

  /** The primary key: no id is stored twice. */
  ghost predicate UniqueIds(table: seq<Row>) {
    forall i, j | 0 <= i < j < |table| :: table[i].id != table[j].id
  }

  // ------------------------------------------------------- conversation keys

  /** The canonical key of a direct conversation: both names, sorted and joined. */
  function DirectConversation(a: string, b: string): string {
    if LexLeq(a, b) then a + [PAIR_SEPARATOR] + b else b + [PAIR_SEPARATOR] + a
  }

  lemma SeparatorSplitsOnce(a: string, b: string, c: string, d: string)
    requires PAIR_SEPARATOR !in a && PAIR_SEPARATOR !in b
    requires a + [PAIR_SEPARATOR] + b == c + [PAIR_SEPARATOR] + d
    ensures a == c && b == d
  {
    var left, right := a + [PAIR_SEPARATOR] + b, c + [PAIR_SEPARATOR] + d;
    assert forall i | 0 <= i < |a| :: left[i] == a[i];
    assert forall i | 0 <= i < |b| :: left[|a| + 1 + i] == b[i];
    assert forall i | |a| < i < |left| :: left[i] == b[i - |a| - 1];
    assert right[|c|] == PAIR_SEPARATOR == left[|c|];
    assert a == left[..|a|] && c == right[..|c|];
    assert b == left[|a| + 1..] && d == right[|c| + 1..];
  }

  /** The key is injective on unordered pairs, as soon as one of the two pairs is
      free of the separator: a request may name any string as the other party. */
  lemma DirectConversationInjective(a: string, b: string, c: string, d: string)
    requires PAIR_SEPARATOR !in a && PAIR_SEPARATOR !in b
    ensures DirectConversation(a, b) == DirectConversation(c, d) <==> {a, b} == {c, d}
  {
    LexTotal(a, b);
    LexTotal(c, d);
    if DirectConversation(a, b) == DirectConversation(c, d) {
      var (p, q) := if LexLeq(a, b) then (a, b) else (b, a);
      var (r, s) := if LexLeq(c, d) then (c, d) else (d, c);
      SeparatorSplitsOnce(p, q, r, s);
    }
    assert {a, b} == {c, d} ==> a in {c, d} && b in {c, d} && c in {a, b} && d in {a, b};
  }

  lemma KeyIsSymmetric(a: string, b: string)
    ensures DirectConversation(a, b) == DirectConversation(b, a)
  {
    LexTotal(a, b);
  }

  /** Without that condition two different pairs can share one key. */
  lemma SeparatorInANameCollides()
    ensures DirectConversation("a", "b\U{1F}c") == DirectConversation("a\U{1F}b", "c")
    ensures {"a", "b\U{1F}c"} != {"a\U{1F}b", "c"}
  {
    var a, b, c, d := "a", "b\U{1F}c", "a\U{1F}b", "c";
    assert a[0] < b[0] && c[0] < d[0];
    assert DirectConversation(a, b) == "a\U{1F}b\U{1F}c" == DirectConversation(c, d);
    assert |a| == 1 && |c| == 3 && |d| == 1 && a[0] != d[0];
    assert a in {a, b} && a !in {c, d};
  }

  /** A direct key never looks like a room name. */
  lemma DirectKeyIsNoRoom(a: string, b: string)
    requires !IsRoom(a) && !IsRoom(b)
    ensures !IsRoom(DirectConversation(a, b))
  {
    var key := DirectConversation(a, b);
    assert key[0] == PAIR_SEPARATOR || key[0] == a[0] || key[0] == b[0];
  }

  // ------------------------------------------------------------------ writing

  /** INSERT OR IGNORE: a repeat of a stored id changes nothing. */
  function Record(st: Store, row: Row): Store {
    if Stored(st.table, row.id) then st else st.(table := st.table + [row])
  }

  function QueueFor(st: Store, user: string, id: string): Store {
    st.(pending := st.pending + {(id, user)})
  }

  /** A later receipt never overwrites an earlier stamp. */
  function Stamp(at: Option<int>, when: int): Option<int> {
    if at.Some? then at else Some(when)
  }

  function Stamped(row: Row, state: Label, when: int): Row {
    if state == READ then
      row.(readAt := Stamp(row.readAt, when), deliveredAt := Stamp(row.deliveredAt, when))
    else
      row.(deliveredAt := Stamp(row.deliveredAt, when))
  }

  function Mark(st: Store, id: string, state: Label, when: int): Store {
    st.(table := seq(|st.table|, i requires 0 <= i < |st.table| =>
      if st.table[i].id == id then Stamped(st.table[i], state, when) else st.table[i]))
  }

  function SenderOf(table: seq<Row>, id: string): (r: Option<string>)
    ensures r.Some? <==> Stored(table, id)
    ensures r.Some? ==> exists i | 0 <= i < |table| :: table[i].id == id && table[i].sender == r.value
  {
    if table == [] then None
    else if table[0].id == id then Some(table[0].sender)
    else
      var r := SenderOf(table[1..], id);
      assert forall i | 0 <= i < |table| - 1 :: table[1..][i] == table[i + 1];
      assert forall i | 1 <= i < |table| :: table[i] == table[1..][i - 1];
      r
  }

  function RowLabel(row: Row): Label {
    if row.readAt.Some? then READ else if row.deliveredAt.Some? then DELIVERED else SENT
  }

  /** What a history entry shows; a stamp of zero reads as no stamp. */
  function HistoryLabel(row: Row): Label {
    if row.readAt.Some? && row.readAt.value != 0 then READ
    else if row.deliveredAt.Some? && row.deliveredAt.value != 0 then DELIVERED
    else SENT
  }

  // ------------------------------------------------------------------ reading

  /** Rows are ordered by timestamp, ties by insertion. */
  predicate KeyLeq(a: (int, nat), b: (int, nat)) {
    a.0 < b.0 || (a.0 == b.0 && a.1 <= b.1)
  }

  predicate KeyGeq(a: (int, nat), b: (int, nat)) {
    KeyLeq(b, a)
  }

  lemma KeysTotallyOrdered()
    ensures TotalOrder(KeyLeq) && TotalOrder(KeyGeq)
  {}

  function RowsAt(table: seq<Row>, keys: seq<(int, nat)>): (rows: seq<Row>)
    requires forall k | k in keys :: k.1 < |table|
    ensures |rows| == |keys|
  {
    seq(|keys|, i requires 0 <= i < |keys| => table[keys[i].1])
  }

  function QueuedKeys(st: Store, user: string): set<(int, nat)> {
    set i | 0 <= i < |st.table| && (st.table[i].id, user) in st.pending :: (st.table[i].ts, i)
  }

  /** Those of the first n rows that are queued for a user. */
  function QueuedAmong(st: Store, user: string, n: nat): set<(int, nat)>
    requires n <= |st.table|
  {
    set i | 0 <= i < n && (st.table[i].id, user) in st.pending :: (st.table[i].ts, i)
  }

  lemma QueuedMore(st: Store, user: string, n: nat)
    requires n < |st.table|
    ensures QueuedAmong(st, user, n + 1)
         == QueuedAmong(st, user, n) + if (st.table[n].id, user) in st.pending then {(st.table[n].ts, n)} else {}
  {}

  lemma QueuedAmongAll(st: Store, user: string)
    ensures QueuedAmong(st, user, |st.table|) == QueuedKeys(st, user)
  {}

  function Inserted(keys: seq<(int, nat)>, at: nat, k: (int, nat)): seq<(int, nat)>
    requires at <= |keys|
  {
    keys[..at] + [k] + keys[at..]
  }

  lemma InsertedElements(keys: seq<(int, nat)>, at: nat, k: (int, nat))
    requires at <= |keys|
    ensures Elements(Inserted(keys, at, k)) == Elements(keys) + {k}
  {
    assert keys == keys[..at] + keys[at..];
  }

  lemma InsertedInOrder(keys: seq<(int, nat)>, at: nat, k: (int, nat))
    requires Ascending(keys, KeyLeq) && at <= |keys|
    requires forall j | 0 <= j < at :: keys[j] != k && KeyLeq(keys[j], k)
    requires forall j | at <= j < |keys| :: k != keys[j] && KeyLeq(k, keys[j])
    ensures Ascending(Inserted(keys, at, k), KeyLeq)
  {
    var front, rest, r := keys[..at], keys[at..], Inserted(keys, at, k);
    forall i, j | 0 <= i < j < |r| ensures r[i] != r[j] && KeyLeq(r[i], r[j]) {
      assert r[i] == if i < at then keys[i] else if i == at then k else keys[i - 1];
      assert r[j] == if j < at then keys[j] else if j == at then k else keys[j - 1];
    }
  }

  /** A new key goes after everything as early as itself. */
  method Insert(keys: seq<(int, nat)>, k: (int, nat)) returns (r: seq<(int, nat)>)
    requires Ascending(keys, KeyLeq) && forall x | x in Elements(keys) :: x.1 < k.1
    ensures Ascending(r, KeyLeq) && Elements(r) == Elements(keys) + {k}
  {
    assert forall j | 0 <= j < |keys| :: keys[j] in Elements(keys);
    var at := |keys|;
    while at > 0 && keys[at - 1].0 > k.0
      invariant 0 <= at <= |keys| && forall j | at <= j < |keys| :: keys[j].0 > k.0
    {
      at := at - 1;
    }
    assert forall j | 0 <= j < at - 1 :: KeyLeq(keys[j], keys[at - 1]);
    InsertedInOrder(keys, at, k);
    InsertedElements(keys, at, k);
    r := Inserted(keys, at, k);
  }

  /** Everything queued for a user, oldest first. */
  function FlushKeys(st: Store, user: string): (keys: seq<(int, nat)>)
    ensures Elements(keys) == QueuedKeys(st, user) && Ascending(keys, KeyLeq)
  {
    KeysTotallyOrdered();
    Sort(QueuedKeys(st, user), KeyLeq)
  }

  function Flushed(st: Store, user: string): (rows: seq<Row>)
    ensures |rows| == |FlushKeys(st, user)|
  {
    var keys := FlushKeys(st, user);
    assert forall k | k in keys :: k in Elements(keys);
    RowsAt(st.table, keys)
  }

  function Unqueued(st: Store, user: string): Store {
    st.(pending := set p | p in st.pending && p.1 != user)
  }

  function ClampLimit(limit: int): nat {
    if limit > MAX_LIMIT then MAX_LIMIT else if limit < 1 then 1 else limit
  }

  function ConversationKeys(table: seq<Row>, conversation: string, before: Option<int>): set<(int, nat)> {
    set i | 0 <= i < |table| && table[i].conversation == conversation
            && (before.Some? ==> table[i].ts < before.value) :: (table[i].ts, i)
  }

  /** The query: newest first, limited, then reversed for display. */
  function HistoryKeys(table: seq<Row>, conversation: string, before: Option<int>, limit: int): (keys: seq<(int, nat)>)
    ensures forall k | k in keys :: k in ConversationKeys(table, conversation, before)
  {
    KeysTotallyOrdered();
    var newest := Sort(ConversationKeys(table, conversation, before), KeyGeq);
    var n := ClampLimit(limit);
    assert forall k | k in newest :: k in Elements(newest);
    Reverse(if |newest| <= n then newest else newest[..n])
  }

  function History(table: seq<Row>, conversation: string, before: Option<int>, limit: int): seq<Row> {
    RowsAt(table, HistoryKeys(table, conversation, before, limit))
  }

  /** im/server/store/messages.py:49-188 as an object over the two tables. */
  class MessageStore {
    var table: seq<Row>
    var pending: set<(string, string)>

    ghost function Contents(): Store reads this {
      Store(table, pending)
    }

    constructor ()
      ensures Contents() == Store([], {})
    {
      table, pending := [], {};
    }

    method RecordMessage(row: Row)
      modifies this
      ensures Contents() == Record(old(Contents()), row)
      ensures old(UniqueIds(table)) ==> UniqueIds(table)
    {
      if !Stored(table, row.id) {
        table := table + [row];
      }
    }

    method Queue(user: string, id: string)
      modifies this`pending
      ensures Contents() == QueueFor(old(Contents()), user, id)
    {
      pending := pending + {(id, user)};
    }

    /** Returns the sender, or None when no such message is stored. */
    method MarkMessage(id: string, state: Label, when: int) returns (sender: Option<string>)
      modifies this`table
      ensures Contents() == Mark(old(Contents()), id, state, when)
      ensures sender == SenderOf(old(table), id)
    {
      sender := SenderOf(table, id);
      if sender.None? {
        assert table == Mark(Contents(), id, state, when).table;
        return;
      }
      var marked := table;
      for i := 0 to |table|
        invariant |marked| == |table|
        invariant forall j | 0 <= j < i ::
          marked[j] == if table[j].id == id then Stamped(table[j], state, when) else table[j]
        invariant forall j | i <= j < |table| :: marked[j] == table[j]
      {
        if marked[i].id == id {
          if state == READ {
            marked := marked[i := marked[i].(readAt := Stamp(marked[i].readAt, when))];
            marked := marked[i := marked[i].(deliveredAt := Stamp(marked[i].deliveredAt, when))];
          } else {
            marked := marked[i := marked[i].(deliveredAt := Stamp(marked[i].deliveredAt, when))];
          }
        }
      }
      table := marked;
    }

    /** Read and delete in one transaction. */
    method Flush(user: string) returns (rows: seq<Row>)
      modifies this`pending
      ensures rows == Flushed(old(Contents()), user)
      ensures Contents() == Unqueued(old(Contents()), user)
    {
      ghost var st := Contents();
      var keys: seq<(int, nat)> := [];
      for i := 0 to |table|
        invariant Contents() == st && Ascending(keys, KeyLeq) && Elements(keys) == QueuedAmong(st, user, i)
      {
        QueuedMore(st, user, i);
        if (table[i].id, user) in pending {
          keys := Insert(keys, (table[i].ts, i));
        }
      }
      KeysTotallyOrdered();
      QueuedAmongAll(st, user);
      AscendingIsUnique(keys, FlushKeys(st, user), KeyLeq);
      assert forall k | k in keys :: k in Elements(keys);
      rows := RowsAt(table, keys);
      pending := set p | p in pending && p.1 != user;
    }
  }
}
