/** Text survives end to end, whatever happens afterwards: a typed text is handed over
    when its recipient is back, and is in the answers to requests for scrollback. */
module Afterwards {
  import opened Text
  import opened Messages
  import opened Hub
  import opened Keyrings
  import opened Handover
  import opened EndToEnd
  import K = Controller
  import C = ChatModel
  import M = Mail
  import History
  import Replica
  import V = Conversations
  import Scrollback

  /** One of some frames reads as this text; and once the client hears it, its
      conversation ends in a message of that text, unless its sender's key is unknown. */
  ghost predicate SomeReads(w: K.World, c: K.Client, frames: seq<Frame>, key: string, text: string) {
    exists f | f in frames :: Reads(w, c, Some(f), text) && (V.MustBeKept(c, f) || Displays(w, c, f, key, text))
  }

  ghost predicate Displays(w: K.World, c: K.Client, f: K.Mail, key: string, text: string) {
    var ms, ms' := V.Talk(c, key), V.Talk(K.OnFrame(w, c, f), key);
    && |ms'| == |ms| + 1 && ms <= ms' && !ms'[|ms|].mine
    && ms'[|ms|].id == f.id && ms'[|ms|].sender == f.sender && ms'[|ms|].body == text
  }

  /** What a client reads of a message it hears is what its conversation then shows. */
  lemma ReadIsDisplayed(w: K.World, c: K.Client, f: K.Mail, key: string, text: string)
    requires Reads(w, c, Some(f), text) && V.BelongsTo(f, key) && !V.MustBeKept(c, f) && f.sender != ""
    ensures Displays(w, c, f, key, text)
  {
    V.AttributionIs(f, key);
    V.KeptIs(c, f);
    K.OnFrameIs(w, c, f);
    var x := C.Message(f.id, f.sender, K.Plaintext(w, c, f), if f.ts != 0 then f.ts else w.now(|c.wire|), false, "SENT");
    V.AddedTalk(c.model, key, x, key);
  }

  ghost predicate AnswerReads(w: K.World, c: K.Client, reply: Frame, key: string, me: string, text: string) {
    reply.HistoryResult? && exists e | e in reply.entries :: ReadsBack(w, c, Some(e), key, me, text)
  }

  /** Once the client hears the answer, its conversation holds the message. */
  ghost predicate AnswerShows(w: K.World, c: K.Client, reply: Frame, key: string, id: string, author: string, text: string) {
    exists x | x in V.Talk(K.OnFrame(w, c, reply), key) ::
      x.id == id && x.sender == author && x.body == text && (x.mine <==> c.model.username == Some(author))
  }

  /** A client's next frame reaches a server that has no message of its id. */
  ghost predicate Connected(w: K.World, h: Hub, sid: Sid, c: K.Client) {
    && RealNonces(w) && c.sealing && Replica.Registry(h) && sid in h.who && h.who[sid] == K.MyName(c) && K.MyName(c) != ""
    && !Stored(h.store.table, w.id(|c.wire|))
  }

  /** One typed text and anything at all afterwards: the recipient may be away, come and
      go, and others too; whenever they are online, one of the messages they have been
      handed since reads as what was typed. */
  lemma TypedTextIsReadAfterAbsence(w: K.World, w': K.World, h: Hub, sid: Sid, sender: K.Client, reader: K.Client, to: string, text: string,
                                    steps: seq<Step>)
    requires Connected(w, h, sid, sender) && reader.sealing && Refusal(h, K.MyName(sender), to).None?
    requires sender.model.active == Some(to) && !IsRoom(to) && !IsBlank(text)
    requires Acquainted(sender.ring, reader.ring, K.MyName(sender), to)
    ensures var r := DirectRequest(w, sender, to, text);
      to in Run(Handle(h, sid, r), steps).online ==> SomeReads(w', reader, TrailFrom(h, sid, r, steps, to), K.MyName(sender), text)
  {
    var r, me := DirectRequest(w, sender, to, text), K.MyName(sender);
    DirectTextSurvives(w, w', sender, sender, reader, to, text, RowOf(M.Accepted(me, r), None));
    OwedIsHanded(h, sid, r, steps, to);
    var f := CopyFor(me, r, to).value;
    if !V.MustBeKept(reader, f) { ReadIsDisplayed(w', reader, f, me, text); }
  }

  /** The same for a room and each member of it the sender knew of. */
  lemma TypedRoomTextIsReadAfterAbsence(w: K.World, w': K.World, h: Hub, sid: Sid, sender: K.Client, reader: K.Client, room: string,
                                        member: string, text: string, steps: seq<Step>)
    requires Connected(w, h, sid, sender) && reader.sealing && K.MyName(sender) in Members(h, room)
    requires sender.model.active == Some(room) && IsRoom(room) && !IsBlank(text)
    requires Missing(sender.ring, C.RoomMembers(sender.model, room) - {K.MyName(sender)}) == {}
    requires member in Members(h, room) && member in C.RoomMembers(sender.model, room) && member != K.MyName(sender)
    requires Acquainted(As(sender.ring, K.MyName(sender)), reader.ring, K.MyName(sender), member)
    ensures var r := RoomRequest(w, sender, room, text);
      member in Run(Handle(h, sid, r), steps).online ==> SomeReads(w', reader, TrailFrom(h, sid, r, steps, member), room, text)
  {
    var r, me := RoomRequest(w, sender, room, text), K.MyName(sender);
    RoomGoesOut(w, sender, room, text);
    RoomTextSurvives(w, w', sender, reader, room, member, text, RowOf(M.Accepted(me, r), RoomShares(w, sender, room, text)));
    RoomIsOwed(w, h, sid, sender, room, member, text);
    OwedIsHanded(h, sid, r, steps, member);
    var f := CopyFor(me, r, member).value;
    if !V.MustBeKept(reader, f) { ReadIsDisplayed(w', reader, f, room, text); }
  }

  lemma RoomIsOwed(w: K.World, h: Hub, sid: Sid, sender: K.Client, room: string, member: string, text: string)
    requires Connected(w, h, sid, sender) && IsRoom(room) && K.MyName(sender) in Members(h, room)
    requires RoomShares(w, sender, room, text).Some? && member in Members(h, room)
    requires member in C.RoomMembers(sender.model, room) && member != K.MyName(sender)
    ensures var r := RoomRequest(w, sender, room, text); Accepts(h, sid, r) && member in M.OwedTo(h, K.MyName(sender), r)
  {
    RoomCopies(w, sender, room, text, member);
  }

  lemma AnswerHolds(w: K.World, c: K.Client, h: Hub, me: string, target: string, before: int, limit: int, i: nat, text: string)
    requires target != "" && (IsRoom(target) ==> me in Members(h, target)) && i < |h.store.table|
    requires History.Recent(h.store.table, ConversationFor(me, target), From(before), PageSize(limit), i)
    requires ReadsBack(w, c, HistoryEntry(h.store.table[i], me), target, me, text)
    ensures var reply, row := HistoryReply(h, me, target, before, limit), h.store.table[i];
      && AnswerReads(w, c, reply, target, me, text)
      && (c.model.username == Some(me) ==> AnswerShows(w, c, reply, target, row.id, row.sender, text))
  {
    RecentIsAnswered(h, me, target, before, limit, i);
    if c.model.username == Some(me) {
      var reply := HistoryReply(h, me, target, before, limit);
      EntryIsShown(w, c, target, reply.entries, HistoryEntry(h.store.table[i], me).value, me, text);
    }
  }

  lemma EntryIsShown(w: K.World, c: K.Client, key: string, entries: seq<Entry>, e: Entry, me: string, text: string)
    requires key != "" && e in entries && c.model.username == Some(me) && ReadsBack(w, c, Some(e), key, me, text)
    ensures AnswerShows(w, c, HistoryResult(key, entries), key, e.id, e.sender, text)
  {
    Scrollback.LoadedIs(w, c, key, entries);
    var j :| 0 <= j < |entries| && entries[j] == e;
    assert V.Talk(K.OnFrame(w, c, HistoryResult(key, entries)), key)[j] == K.StoredMessage(w, c, e, key);
  }

  /** One typed text and anything at all afterwards: whichever of the two asks for the
      conversation, the answer holds an entry that reads as what was typed, if fewer rows
      than the page holds came after it; and once their client hears the answer, the
      conversation shows that text under the id and the name it was sent with. */
  lemma TypedTextIsReadFromHistory(w: K.World, w': K.World, h: Hub, sid: Sid, sender: K.Client, later: K.Client, reader: K.Client,
                                   to: string, text: string, steps: seq<Step>, before: int, limit: int)
    requires Connected(w, h, sid, sender) && reader.sealing && later.sealing && Refusal(h, K.MyName(sender), to).None?
    requires sender.model.active == Some(to) && !IsRoom(to) && !IsRoom(K.MyName(sender)) && !IsBlank(text)
    requires Acquainted(sender.ring, reader.ring, K.MyName(sender), to) && KeyOf(later.ring, to) == KeyOf(sender.ring, to)
    ensures var me, i := K.MyName(sender), |h.store.table|;
      var now := Run(Handle(h, sid, DirectRequest(w, sender, to, text)), steps);
      && i < |now.store.table|
      && (History.Recent(now.store.table, DirectConversation(me, to), From(before), PageSize(limit), i) ==>
        && var theirs, mine := HistoryReply(now, to, me, before, limit), HistoryReply(now, me, to, before, limit);
           var id := DirectRequest(w, sender, to, text).id;
           && AnswerReads(w', reader, theirs, me, to, text) && AnswerReads(w', later, mine, to, me, text)
           && (reader.model.username == Some(to) ==> AnswerShows(w', reader, theirs, me, id, me, text))
           && (later.model.username == Some(me) ==> AnswerShows(w', later, mine, to, id, me, text)))
  {
    var r, me, i := DirectRequest(w, sender, to, text), K.MyName(sender), |h.store.table|;
    var now := Run(Handle(h, sid, r), steps);
    AcceptedRowPersists(h, sid, r, steps);
    DirectTextSurvives(w, w', sender, later, reader, to, text, now.store.table[i]);
    KeyIsSymmetric(me, to);
    if History.Recent(now.store.table, DirectConversation(me, to), From(before), PageSize(limit), i) {
      AnswerHolds(w', reader, now, to, me, before, limit, i, text);
      AnswerHolds(w', later, now, me, to, before, limit, i, text);
    }
  }

  /** The same for a room, for each member who is still one when they ask. */
  lemma TypedRoomTextIsReadFromHistory(w: K.World, w': K.World, h: Hub, sid: Sid, sender: K.Client, reader: K.Client, room: string,
                                       member: string, text: string, steps: seq<Step>, before: int, limit: int)
    requires Connected(w, h, sid, sender) && reader.sealing && K.MyName(sender) in Members(h, room)
    requires sender.model.active == Some(room) && IsRoom(room) && !IsBlank(text)
    requires Missing(sender.ring, C.RoomMembers(sender.model, room) - {K.MyName(sender)}) == {}
    requires member in C.RoomMembers(sender.model, room) && member != K.MyName(sender)
    requires Acquainted(As(sender.ring, K.MyName(sender)), reader.ring, K.MyName(sender), member)
    ensures var i, now := |h.store.table|, Run(Handle(h, sid, RoomRequest(w, sender, room, text)), steps);
      && i < |now.store.table|
      && (member in Members(now, room) && History.Recent(now.store.table, room, From(before), PageSize(limit), i) ==>
           var reply := HistoryReply(now, member, room, before, limit);
           && AnswerReads(w', reader, reply, room, member, text)
           && (reader.model.username == Some(member) ==>
                 AnswerShows(w', reader, reply, room, RoomRequest(w, sender, room, text).id, K.MyName(sender), text)))
  {
    var r, i := RoomRequest(w, sender, room, text), |h.store.table|;
    var now := Run(Handle(h, sid, r), steps);
    RoomGoesOut(w, sender, room, text);
    AcceptedRowPersists(h, sid, r, steps);
    RoomTextSurvives(w, w', sender, reader, room, member, text, now.store.table[i]);
    if member in Members(now, room) && History.Recent(now.store.table, room, From(before), PageSize(limit), i) {
      AnswerHolds(w', reader, now, member, room, before, limit, i, text);
    }
  }
}
