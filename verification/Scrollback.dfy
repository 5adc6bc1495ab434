/** What a client makes of an answer to a request for scrollback. */
module Scrollback {
  import opened Text
  import opened Crypto
  import opened Messages
  import opened Keyrings
  import opened Controller
  import opened Conversations
  import C = ChatModel
  import H = Hub

  /** The name under which a client is logged in, or none. */
  function Me(c: Client): string {
    if c.model.username.Some? then c.model.username.value else ""
  }

  /** Whose key opens a row of a conversation: its author's; of an own row, one's own in a
      room and the other party's otherwise. */
  function Opener(c: Client, author: string, key: string): string {
    if author != Me(c) then author else if IsRoom(key) then Me(c) else key
  }

  /** A row as it stands in a conversation once loaded: its id, author and time (or that of
      its arrival, if it has none), one's own exactly if one is its author; readable text
      as it is; and a sealed text, exactly if the client resolves the key it was sealed
      under. */
  ghost predicate Recalls(w: World, c: Client, key: string, e: H.Entry, x: C.Message) {
    && x.id == e.id && x.sender == e.sender && x.state == "SENT"
    && (if e.ts != 0 then x.ts == e.ts else exists n: nat :: x.ts == w.now(n))
    && (x.mine <==> c.model.username == Some(e.sender))
    && (if c.sealing && e.nonce.Some? && e.nonce.value != ""
        then forall k, t :: e.body == Text(Seal(k, t, e.sender, e.nonce.value)) ==>
               (x.body == t <==> KeyOf(c.ring, Opener(c, e.sender, key)) == Some(k) || t == UNREADABLE)
        else (forall t :: e.body == Text(Clear(t)) ==> x.body == t) && (e.body.Absent? ==> x.body == ""))
  }

  lemma RowIsRecalled(w: World, c: Client, key: string, e: H.Entry)
    ensures Recalls(w, c, key, e, StoredMessage(w, c, e, key))
  {
    var x := StoredMessage(w, c, e, key);
    assert e.ts == 0 ==> x.ts == w.now(|c.wire|);
    forall k, t | c.sealing && EncryptedRow(e) && e.body == Text(Seal(k, t, e.sender, e.nonce.value))
      ensures x.body == t <==> KeyOf(c.ring, Opener(c, e.sender, key)) == Some(k) || t == UNREADABLE {}
  }

  /** A conversation whose history is heard holds exactly one message for each row, in the
      server's order. */
  lemma HistoryIsLoaded(w: World, c: Client, key: string, entries: seq<H.Entry>)
    requires key != ""
    ensures var ms := Talk(OnFrame(w, c, H.HistoryResult(key, entries)), key);
      |ms| == |entries| && forall i | 0 <= i < |entries| :: Recalls(w, c, key, entries[i], ms[i])
  {
    LoadedIs(w, c, key, entries);
    forall i | 0 <= i < |entries| ensures Recalls(w, c, key, entries[i], StoredMessage(w, c, entries[i], key)) {
      RowIsRecalled(w, c, key, entries[i]);
    }
  }

  lemma LoadedIs(w: World, c: Client, key: string, entries: seq<H.Entry>)
    requires key != ""
    ensures Talk(OnFrame(w, c, H.HistoryResult(key, entries)), key)
         == seq(|entries|, i requires 0 <= i < |entries| => StoredMessage(w, c, entries[i], key))
  {
    OnFrameIs(w, c, H.HistoryResult(key, entries));
  }

  /** A row of the answer is among the messages of its conversation once the answer is
      heard. */
  lemma RowIsShown(w: World, c: Client, key: string, entries: seq<H.Entry>, e: H.Entry)
    requires key != "" && e in entries
    ensures exists x | x in Talk(OnFrame(w, c, H.HistoryResult(key, entries)), key) :: Recalls(w, c, key, e, x)
  {
    HistoryIsLoaded(w, c, key, entries);
    var i :| 0 <= i < |entries| && entries[i] == e;
    assert Recalls(w, c, key, e, Talk(OnFrame(w, c, H.HistoryResult(key, entries)), key)[i]);
  }
}
