/** im/client/controller/chat.py as an object over a keyring and a model: each method does
    to them, and puts on the connection, what `Controller` says. */
module ControllerObject {
  import opened Text
  import opened Crypto
  import opened Messages
  import opened Keyrings
  import opened Controller
  import C = ChatModel
  import M = ModelObject
  import H = Hub

  lemma FetchMore(c: Client, names: seq<string>, i: nat)
    requires i < |names|
    ensures Fetch(c, names[..i + 1]) == Post(Fetch(c, names[..i]), H.GetKey(names[i]))
  {
    var a, b := Fetch(c, names[..i + 1]), Post(Fetch(c, names[..i]), H.GetKey(names[i]));
    assert a.wire == b.wire;
  }

  lemma FetchNone(c: Client, names: seq<string>)
    ensures Fetch(c, names[..0]) == c
  {
    assert Fetch(c, names[..0]).wire == c.wire;
  }

  /** Asking for one's own key files it, and changes no answer. */
  lemma AskedAnswersSame(r: Ring, user: string, other: string)
    ensures KeyOf(Asked(r, user), other) == KeyOf(r, other)
  {}

  lemma {:induction false} OpenedAnswersSame(c: Client, entries: seq<H.Entry>, key: string, me: string, user: string)
    ensures KeyOf(RingAfter(c, entries, key, me), user) == KeyOf(c.ring, user)
  {
    if entries != [] {
      var front, e := entries[..|entries| - 1], entries[|entries| - 1];
      OpenedAnswersSame(c, front, key, me, user);
      AskedAnswersSame(RingAfter(c, front, key, me), StoredPeer(e.sender, key, me), user);
    }
  }

  lemma StoredSame(w: World, c: Client, entries: seq<H.Entry>, key: string, me: string, e: H.Entry)
    requires me == if c.model.username.Some? then c.model.username.value else ""
    ensures StoredMessage(w, c.(ring := RingAfter(c, entries, key, me)), e, key) == StoredMessage(w, c, e, key)
  {
    OpenedAnswersSame(c, entries, key, me, StoredPeer(e.sender, key, me));
  }

  class ChatController {
    const sealing: bool
    const ring: Keyring
    const model: M.ChatModel
    var held: map<string, seq<string>>
    var awaiting: map<string, seq<Mail>>
    var pendingUser: Option<string>
    var pendingRoom: Option<(string, seq<string>)>
    var wire: seq<H.Request>
    ghost var filed: seq<Filed>

    ghost function Contents(): Client
      reads this, ring, model
    {
      Client(sealing, ring.Contents(), model.Contents(), held, awaiting, pendingUser, pendingRoom, wire, filed, model.emitted)
    }

    constructor (sealing: bool, ring: Keyring, model: M.ChatModel)
      requires ring.Valid()
      ensures this.sealing == sealing && this.ring == ring && this.model == model
      ensures Contents() == Client(sealing, ring.Contents(), model.Contents(), map[], map[], None, None, [], [], model.emitted)
    {
      this.sealing, this.ring, this.model := sealing, ring, model;
      held, awaiting, pendingUser, pendingRoom, wire, filed := map[], map[], None, None, [], [];
    }

    function MyName(): (name: string)
      reads this, model
      ensures name == Controller.MyName(Contents())
    {
      if model.username.Some? && model.username.value != "" then model.username.value else "me"
    }

    method Post(r: H.Request)
      modifies this`wire
      ensures Contents() == Controller.Post(old(Contents()), r)
    {
      wire := wire + [r];
    }

    // --------------------------------------------------------------- sending

    method HoldText(target: string, text: string, fetch: seq<string>)
      modifies this`held, this`wire
      ensures Contents() == Hold(old(Contents()), target, text, fetch)
    {
      var first := target !in held;
      held := held[target := (if first then [] else held[target]) + [text]];
      if first {
        ghost var c := Contents();
        FetchNone(c, fetch);
        for i := 0 to |fetch|
          invariant Contents() == Fetch(c, fetch[..i])
        {
          FetchMore(c, fetch, i);
          Post(H.GetKey(fetch[i]));
        }
        assert fetch[..|fetch|] == fetch;
      }
    }

    /** Put a message on the connection and, as readable text, in the model. */
    method PutMessage(w: World, target: string, body: Payload, nonce: Option<string>, shares: Option<map<string, Share>>, text: string)
      modifies this`wire, model
      ensures Contents() == Put(w, old(Contents()), target, body, nonce, shares, text)
    {
      var n, me := |wire|, MyName();
      Post(H.Send(target, Text(body), nonce, shares, w.id(n), w.now(n)));
      model.AddMessage(target, C.Message(w.id(n), me, text, w.now(n), true, "SENT"));
    }

    method ToPerson(w: World, target: string, text: string)
      requires ring.Valid()
      modifies this, ring, model
      ensures ring.Valid() && Contents() == SendToPerson(w, old(Contents()), target, text)
    {
      var nonce := w.nonces(|wire|)(target);
      var sealed := ring.SealOne(target, text, MyName(), nonce);
      if sealed.None? {
        HoldText(target, text, [target]);
      } else {
        PutMessage(w, target, sealed.value, Some(nonce), None, text);
      }
    }

    /** Every member or none: seal once per member, or hold until that can be done. */
    method ToRoom(w: World, room: string, text: string)
      requires ring.Valid()
      modifies this, ring, model
      ensures ring.Valid() && Contents() == SendToRoom(w, old(Contents()), room, text)
    {
      var me, members := MyName(), if room in model.rooms then model.rooms[room] else {};
      var missing := set name | name in members - {me} && name !in ring.pubkeys;
      if missing != {} {
        assert missing == Missing(ring.Contents(), members - {me});
        HoldText(room, text, SortNames(missing));
        return;
      }
      var shares := ring.SealRoom(members, text, me, w.nonces(|wire|));
      if shares.None? {
        HoldText(room, text, SortNames(members));
      } else {
        PutMessage(w, room, Clear(""), None, shares, text);
      }
    }

    method SendText(w: World, text: string)
      requires ring.Valid()
      modifies this, ring, model
      ensures ring.Valid() && Contents() == Send(w, old(Contents()), text)
    {
      if model.active.None? || IsBlank(text) {
        return;
      }
      var target := model.active.value;
      if !sealing {
        PutMessage(w, target, Clear(text), None, None, text);
      } else if IsRoom(target) {
        ToRoom(w, target, text);
      } else {
        ToPerson(w, target, text);
      }
    }

    /** Send what was waiting, with its conversation on screen for the moment. */
    method ReleaseHeld(w: World, target: string)
      requires ring.Valid()
      modifies this, ring, model
      ensures ring.Valid() && Contents() == Release(w, old(Contents()), target)
    {
      var waiting := if target in held then held[target] else [];
      held := held - {target};
      if waiting == [] {
        return;
      }
      var previous := model.active;
      model.active := Some(target);
      ghost var c := Contents();
      for i := 0 to |waiting|
        invariant ring.Valid() && SendEach(w, Contents(), waiting[i..]) == SendEach(w, c, waiting)
      {
        assert waiting[i..][0] == waiting[i] && waiting[i..][1..] == waiting[i + 1..];
        SendText(w, waiting[i]);
      }
      model.active := previous;
    }

    // ------------------------------------------------------------- receiving

    /** What a body opens to with the key held for a person. */
    method OpenBody(peer: string, body: Body, nonce: string, sender: string) returns (text: string)
      requires ring.Valid()
      modifies ring
      ensures ring.Valid() && ring.Contents() == Asked(old(ring.Contents()), peer)
      ensures text == Unsealed(old(ring.Contents()), peer, body, nonce, sender)
    {
      var found := ring.OpenOne(peer, if body.Text? then body.payload else Clear(""), nonce, sender);
      text := if found.Some? then found.value else UNREADABLE;
    }

    method FileMessage(w: World, f: Mail, key: string)
      requires ring.Valid()
      modifies this`wire, this`filed, ring, model
      ensures ring.Valid() && Contents() == File(w, old(Contents()), f, key)
    {
      var now := w.now(|wire|);
      if f.sender != "" && !IsRoom(key) {
        Post(H.Receipt(f.id, DELIVERED, now));
      }
      var body;
      if sealing && Encrypted(f) {
        body := OpenBody(PeerOf(f), f.body, f.nonce.value, f.sender);
      } else {
        body := Shown(w, f.body);
      }
      model.AddMessage(key, C.Message(f.id, if f.sender != "" then f.sender else "?", body,
                                      if f.ts != 0 then f.ts else now, false, "SENT"));
      filed := filed + [Filed(key, f, body)];
    }

    method TakeMessage(w: World, f: Mail)
      requires ring.Valid()
      modifies this, ring, model
      ensures ring.Valid() && Contents() == IncomingMessage(w, old(Contents()), f)
    {
      var key, peer := Attribution(f), PeerOf(f);
      if key == "" {
        return;
      }
      if sealing && Encrypted(f) && model.username != Some(peer) && peer !in ring.pubkeys {
        var first := peer !in awaiting;
        awaiting := awaiting[peer := (if first then [] else awaiting[peer]) + [f]];
        if first {
          Post(H.GetKey(peer));
        }
        return;
      }
      FileMessage(w, f, key);
    }

    method FileAwaiting(w: World, user: string)
      requires ring.Valid()
      modifies this, ring, model
      ensures ring.Valid() && Contents() == DeliverAwaiting(w, old(Contents()), user)
    {
      var frames := if user in awaiting then awaiting[user] else [];
      awaiting := awaiting - {user};
      ghost var c := Contents();
      for i := 0 to |frames|
        invariant ring.Valid() && FileEach(w, Contents(), frames[i..], user) == FileEach(w, c, frames, user)
      {
        assert frames[i..][0] == frames[i] && frames[i..][1..] == frames[i + 1..];
        FileMessage(w, frames[i], if IsRoom(frames[i].to) then frames[i].to else user);
      }
    }

    /** Try every room in turn: the last key to arrive is what unblocks one. */
    method TryRooms(w: World, names: seq<string>)
      requires ring.Valid()
      modifies this, ring, model
      ensures ring.Valid() && Contents() == ReleaseRooms(w, old(Contents()), names)
    {
      ghost var c := Contents();
      for i := 0 to |names|
        invariant ring.Valid() && ReleaseRooms(w, Contents(), names[i..]) == ReleaseRooms(w, c, names)
      {
        assert names[i..][0] == names[i] && names[i..][1..] == names[i + 1..];
        var others := (if names[i] in model.rooms then model.rooms[names[i]] else {})
                      - (if model.username.Some? then {model.username.value} else {});
        assert others == OtherMembers(Contents(), names[i]);
        var missing := set name | name in others && name !in ring.pubkeys;
        assert missing == Missing(ring.Contents(), others);
        if missing == {} {
          ReleaseHeld(w, names[i]);
        }
      }
    }

    method TakeKey(w: World, user: string, pubkey: PublicKey)
      requires ring.Valid()
      modifies this, ring, model
      ensures ring.Valid() && Contents() == KeyArrived(w, old(Contents()), user, pubkey)
    {
      if user == "" || !sealing {
        return;
      }
      ring.RememberKey(user, pubkey);
      ReleaseHeld(w, user);
      FileAwaiting(w, user);
      var waiting := set key | key in held && IsRoom(key);
      assert waiting == HeldRooms(Contents());
      TryRooms(w, w.order(|wire|, waiting));
    }

    /** Turn stored rows back into messages a view can draw. */
    method TakeHistory(w: World, key: string, entries: seq<H.Entry>)
      requires ring.Valid()
      modifies ring, model
      ensures ring.Valid() && Contents() == HistoryArrived(w, old(Contents()), key, entries)
    {
      if key == "" {
        return;
      }
      ghost var c := Contents();
      var me := if model.username.Some? then model.username.value else "";
      var messages: seq<C.Message> := [];
      for i := 0 to |entries|
        invariant ring.Valid() && Contents() == c.(ring := RingAfter(c, entries[..i], key, me))
        invariant |messages| == i && forall j | 0 <= j < i :: messages[j] == StoredMessage(w, c, entries[j], key)
      {
        assert entries[..i + 1][..i] == entries[..i];
        StoredSame(w, c, entries[..i], key, me, entries[i]);
        var message := StoredRow(w, entries[i], key, me);
        messages := messages + [message];
      }
      assert entries[..|entries|] == entries;
      assert messages == seq(|entries|, i requires 0 <= i < |entries| => StoredMessage(w, c, entries[i], key));
      model.LoadHistory(key, messages);
    }

    method StoredRow(w: World, e: H.Entry, key: string, me: string) returns (message: C.Message)
      requires ring.Valid() && me == if model.username.Some? then model.username.value else ""
      modifies ring
      ensures ring.Valid()
      ensures ring.Contents() == if sealing && EncryptedRow(e) then Asked(old(ring.Contents()), StoredPeer(e.sender, key, me)) else old(ring.Contents())
      ensures message == StoredMessage(w, old(Contents()), e, key)
    {
      var body := Shown(w, e.body);
      if sealing && EncryptedRow(e) {
        body := OpenBody(StoredPeer(e.sender, key, me), e.body, e.nonce.value, e.sender);
      }
      message := C.Message(e.id, e.sender, body, if e.ts != 0 then e.ts else w.now(|wire|), model.username == Some(e.sender), "SENT");
    }

    // ------------------------------------------------- selecting, rooms, errors

    method ChooseKey(w: World, key: string)
      modifies this`wire, model
      ensures Contents() == Choose(w, old(Contents()), key)
    {
      ghost var c := Contents();
      var conversation := model.ConversationOf(key);
      model.Select(Some(key));
      if IsRoom(key) || conversation.unread == 0 {
        return;
      }
      var now, messages := w.now(|wire|), conversation.messages;
      ghost var sent := wire;
      assert wire + ReadReceipts(w, c, messages) == sent + ReadReceipts(w, c, messages[0..]);
      for i := 0 to |messages|
        invariant wire + ReadReceipts(w, c, messages[i..]) == sent + ReadReceipts(w, c, messages)
        invariant Contents() == Tell(c, C.Select(c.model, Some(key))).(wire := wire)
      {
        assert messages[i..][0] == messages[i] && messages[i..][1..] == messages[i + 1..];
        ghost var rest := ReadReceipts(w, c, messages[i + 1..]);
        if !messages[i].mine {
          assert wire + ([H.Receipt(messages[i].id, READ, now)] + rest) == wire + [H.Receipt(messages[i].id, READ, now)] + rest;
          Post(H.Receipt(messages[i].id, READ, now));
        } else {
          assert [] + rest == rest;
        }
      }
      assert wire + [] == wire;
    }

    method JoinInviting(room: string, members: seq<string>)
      modifies this`wire
      ensures Contents() == JoinAndInvite(old(Contents()), room, members)
    {
      Post(H.Join(room));
      if members != [] {
        Post(H.Invite(room, members));
      }
    }

    /** Make a room, or join it if it is already there. */
    method AskForRoom(room: string, members: seq<string>)
      modifies this`pendingRoom, this`wire
      ensures Contents() == OpenRoom(old(Contents()), room, members)
    {
      pendingRoom := Some((room, members));
      if room in model.rooms {
        JoinInviting(room, members);
      } else {
        Post(H.CreateRoom(room, members));
      }
    }

    /** Open a chat with somebody, once it is known that they exist. */
    method AskForChat(w: World, name: string)
      modifies this`pendingUser, this`pendingRoom, this`wire, model
      ensures Contents() == OpenChat(w, old(Contents()), name)
    {
      var user := Strip(name);
      if user == "" {
        return;
      }
      if IsRoom(user) {
        AskForRoom(user, []);
      } else if model.username == Some(user) {
        model.RaiseError("BAD_CONTACT");
      } else if user in model.contacts || user in model.roster {
        ChooseKey(w, user);
      } else {
        pendingUser := Some(user);
        Post(H.AddContact(user));
      }
    }

    method TakeRoomState(w: World, room: string, members: set<string>)
      modifies this, model
      ensures Contents() == RoomStateArrived(w, old(Contents()), room, members)
    {
      if room == "" {
        return;
      }
      model.SetRoomMembers(room, members);
      if pendingRoom.Some? && pendingRoom.value.0 == room && model.username.Some? && model.username.value in members {
        pendingRoom := None;
        ChooseKey(w, room);
      }
    }

    method TakeContacts(w: World, contacts: map<string, bool>)
      modifies this, model
      ensures Contents() == ContactsArrived(w, old(Contents()), contacts)
    {
      model.ReplaceContacts(contacts);
      if pendingUser.Some? && pendingUser.value in model.contacts {
        var user := pendingUser.value;
        pendingUser := None;
        ChooseKey(w, user);
      }
    }

    method TakeLogin(user: string, roster: set<string>, contacts: map<string, bool>)
      modifies model
      ensures Contents() == LoggedIn(old(Contents()), user, roster, contacts)
    {
      if user != "" {
        model.SetIdentity(user);
      }
      model.ReplaceRoster(SortNames(roster));
      model.ReplaceContacts(contacts);
    }

    method TakeError(code: H.Code)
      modifies this, model
      ensures Contents() == ErrorArrived(old(Contents()), code)
    {
      Correct(code);
      model.RaiseError(CodeName(code));
    }

    method Correct(code: H.Code)
      modifies this
      ensures Contents() == Corrected(old(Contents()), code)
    {
      if code == H.NO_SUCH_USER {
        pendingUser := None;
      } else if code == H.ROOM_EXISTS && pendingRoom.Some? {
        JoinInviting(pendingRoom.value.0, pendingRoom.value.1);
      } else if code == H.NO_SUCH_ROOM || code == H.BAD_ROOM {
        pendingRoom := None;
      }
    }

    method TakeHint(f: H.Frame)
      modifies model
      ensures Contents() == Tell(old(Contents()), ModelHears(old(Contents()).model, f))
    {
      match f
      case Presence(user, online) =>
        if user != "" { model.SetPresence(user, online); }
      case TypingFrom(sender, to, on) =>
        if sender != "" { model.SetTyping(if IsRoom(to) then to else sender, sender, on); }
      case ReceiptFrom(sender, _, ref, state) =>
        if ref != "" && sender != "" { model.SetReceipt(sender, ref, LabelName(state)); }
      case _ =>
    }

    /** Translate one inbound frame into model changes. */
    method TakeFrame(w: World, f: H.Frame)
      requires ring.Valid()
      modifies this, ring, model
      ensures ring.Valid() && Contents() == OnFrame(w, old(Contents()), f)
    {
      OnFrameIs(w, Contents(), f);
      match f
      case Msg(_, _, _, _, _, _) => TakeMessage(w, f);
      case KeyIs(user, pubkey) => TakeKey(w, user, pubkey);
      case HistoryResult(room, entries) => TakeHistory(w, room, entries);
      case ContactList(contacts) => TakeContacts(w, contacts);
      case RoomState(room, members) => TakeRoomState(w, room, members);
      case LoginOk(user, roster, contacts, _) => TakeLogin(user, roster, contacts);
      case Error(code) => TakeError(code);
      case _ => TakeHint(f);
    }
  }
}
