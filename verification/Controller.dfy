/** im/client/controller/chat.py: gestures in, frames out; frames in, model changes out.
    One client is a value; what it put on the connection is `wire`, what it filed from
    others is `filed`, and what its model told the listeners is `events`. Randomness and the clock come from a `World`. */
module Controller {
  import opened Text
  import opened Crypto
  import opened Messages
  import opened Keyrings
  import C = ChatModel
  import H = Hub

  /** What is drawn from outside: the id, the nonces and the time of the n-th frame; the
      order in which a dictionary lists its keys; and how a body that is not readable
      text would print. */
  datatype World = World(
    id: nat -> string,
    nonces: nat -> (string -> string),
    now: nat -> int,
    order: (nat, set<string>) -> seq<string>,
    raw: Body -> string)

  /** An inbound message. */
  type Mail = f: H.Frame | f.Msg? witness H.Msg("", "", Absent, None, "", 0)

  /** One call of `_file`: where a frame was put, and what it reads as. */
  datatype Filed = Filed(key: string, frame: Mail, body: string)

  datatype Client = Client(
    sealing: bool,
    ring: Ring,
    model: C.Model,
    held: map<string, seq<string>>,
    awaiting: map<string, seq<Mail>>,
    pendingUser: Option<string>,
    pendingRoom: Option<(string, seq<string>)>,
    wire: seq<H.Request>,
    filed: seq<Filed>,
    events: seq<C.Event>)

  const UNREADABLE := "[could not decrypt this message]"

  function NewClient(sealing: bool, identity: Identity): Client {
    Client(sealing, Ring(identity, "", map[]), C.NEW_MODEL, map[], map[], None, None, [], [], [])
  }

  function MyName(c: Client): string {
    if c.model.username.Some? && c.model.username.value != "" then c.model.username.value else "me"
  }

  /** One call on the model: what it leaves behind and what it tells the listeners. */
  function Tell(c: Client, out: C.Outcome): Client {
    c.(model := out.model, events := c.events + out.events)
  }

  function Post(c: Client, r: H.Request): Client {
    c.(wire := c.wire + [r])
  }

  // ----------------------------------------------------------------- sending

  function HeldFor(c: Client, target: string): seq<string> {
    if target in c.held then c.held[target] else []
  }

  /** Ask for somebody's public key, one request each. */
  function Fetch(c: Client, names: seq<string>): Client {
    c.(wire := c.wire + seq(|names|, i requires 0 <= i < |names| => H.GetKey(names[i])))
  }

  /** Keep a text until it can be sealed; only the first text of a target asks for keys. */
  function Hold(c: Client, target: string, text: string, fetch: seq<string>): Client {
    var c1 := c.(held := c.held[target := HeldFor(c, target) + [text]]);
    if target in c.held then c1 else Fetch(c1, fetch)
  }

  function OwnMessage(w: World, c: Client, text: string): C.Message {
    C.Message(w.id(|c.wire|), MyName(c), text, w.now(|c.wire|), true, "SENT")
  }

  /** Put a message on the connection and, as readable text, in the model. */
  function Put(w: World, c: Client, target: string, body: Payload, nonce: Option<string>, shares: Option<map<string, Share>>, text: string): Client {
    Tell(Post(c, H.Send(target, Text(body), nonce, shares, w.id(|c.wire|), w.now(|c.wire|))),
         C.AddMessage(c.model, target, OwnMessage(w, c, text)))
  }

  function SendToPerson(w: World, c: Client, target: string, text: string): Client {
    var nonce := w.nonces(|c.wire|)(target);
    var sealed := SealFor(c.ring, target, text, MyName(c), nonce);
    var c1 := c.(ring := Asked(c.ring, target));
    if sealed.None? then Hold(c1, target, text, [target])
    else Put(w, c1, target, sealed.value, Some(nonce), None, text)
  }

  function SendToRoom(w: World, c: Client, room: string, text: string): Client {
    var members, me := C.RoomMembers(c.model, room), MyName(c);
    var missing := Missing(c.ring, members - {me});
    if missing != {} then Hold(c, room, text, SortNames(missing)) else
      var shares := SealForMembers(c.ring, members, text, me, w.nonces(|c.wire|));
      var c1 := c.(ring := As(c.ring, me));
      if shares.None? then Hold(c1, room, text, SortNames(members))
      else Put(w, c1, room, Clear(""), None, shares, text)
  }

  function Send(w: World, c: Client, text: string): Client {
    if c.model.active.None? || IsBlank(text) then c else
      var target := c.model.active.value;
      if !c.sealing then Put(w, c, target, Clear(text), None, None, text)
      else if IsRoom(target) then SendToRoom(w, c, target, text)
      else SendToPerson(w, c, target, text)
  }

  function SendEach(w: World, c: Client, texts: seq<string>): Client
    decreases |texts|
  {
    if texts == [] then c else SendEach(w, Send(w, c, texts[0]), texts[1..])
  }

  function OnScreen(c: Client, key: Option<string>): Client {
    c.(model := c.model.(active := key))
  }

  /** Send what was waiting, with its conversation on screen for the moment. */
  function Release(w: World, c: Client, target: string): Client {
    var waiting := HeldFor(c, target);
    var c1 := c.(held := c.held - {target});
    if waiting == [] then c1 else OnScreen(SendEach(w, OnScreen(c1, Some(target)), waiting), c.model.active)
  }

  // --------------------------------------------------------------- receiving

  predicate Encrypted(f: Mail) {
    f.nonce.Some? && f.nonce.value != ""
  }

  /** The conversation a message belongs to: its room, or the person who sent it. */
  function Attribution(f: Mail): string {
    if IsRoom(f.to) then f.to else if f.sender != "" then f.sender else f.to
  }

  /** Whose key opens it. */
  function PeerOf(f: Mail): string {
    if f.sender != "" then f.sender else Attribution(f)
  }

  function Shown(w: World, body: Body): string {
    match body
    case Absent => ""
    case Text(Clear(text)) => text
    case _ => w.raw(body)
  }

  /** Open a body with the key held for a person. */
  function Unsealed(r: Ring, peer: string, body: Body, nonce: string, sender: string): string {
    var text := if body.Text? then OpenFrom(r, peer, body.payload, nonce, sender) else None;
    if text.Some? then text.value else UNREADABLE
  }

  function Plaintext(w: World, c: Client, f: Mail): string {
    if c.sealing && Encrypted(f) then Unsealed(c.ring, PeerOf(f), f.body, f.nonce.value, f.sender) else Shown(w, f.body)
  }

  /** Put one inbound message into the model, reporting its delivery to its sender. */
  function File(w: World, c: Client, f: Mail, key: string): Client {
    var c1 := if f.sender != "" && !IsRoom(key) then Post(c, H.Receipt(f.id, DELIVERED, w.now(|c.wire|))) else c;
    var body := Plaintext(w, c, f);
    var message := C.Message(f.id, if f.sender != "" then f.sender else "?", body,
                             if f.ts != 0 then f.ts else w.now(|c.wire|), false, "SENT");
    Tell(c1.(ring := if c.sealing && Encrypted(f) then Asked(c.ring, PeerOf(f)) else c.ring,
             filed := c.filed + [Filed(key, f, body)]),
         C.AddMessage(c.model, key, message))
  }

  function AwaitingFrom(c: Client, peer: string): seq<Mail> {
    if peer in c.awaiting then c.awaiting[peer] else []
  }

  predicate MustWait(c: Client, f: Mail) {
    c.sealing && Encrypted(f) && c.model.username != Some(PeerOf(f)) && !Knows(c.ring, PeerOf(f))
  }

  function IncomingMessage(w: World, c: Client, f: Mail): Client {
    if Attribution(f) == "" then c
    else if MustWait(c, f) then
      var peer := PeerOf(f);
      var c1 := c.(awaiting := c.awaiting[peer := AwaitingFrom(c, peer) + [f]]);
      if peer in c.awaiting then c1 else Post(c1, H.GetKey(peer))
    else File(w, c, f, Attribution(f))
  }

  function FileEach(w: World, c: Client, frames: seq<Mail>, user: string): Client
    decreases |frames|
  {
    if frames == [] then c
    else FileEach(w, File(w, c, frames[0], if IsRoom(frames[0].to) then frames[0].to else user), frames[1..], user)
  }

  /** Show what arrived before this person's key did. */
  function DeliverAwaiting(w: World, c: Client, user: string): Client {
    FileEach(w, c.(awaiting := c.awaiting - {user}), AwaitingFrom(c, user), user)
  }

  // -------------------------------------------------------------------- keys

  function HeldRooms(c: Client): set<string> {
    set key | key in c.held && IsRoom(key)
  }

  function OtherMembers(c: Client, room: string): set<string> {
    C.RoomMembers(c.model, room) - (if c.model.username.Some? then {c.model.username.value} else {})
  }

  function ReleaseRooms(w: World, c: Client, rooms: seq<string>): Client
    decreases |rooms|
  {
    if rooms == [] then c
    else if Missing(c.ring, OtherMembers(c, rooms[0])) == {} then ReleaseRooms(w, Release(w, c, rooms[0]), rooms[1..])
    else ReleaseRooms(w, c, rooms[1..])
  }

  /** A key arrived: send what was held for that person, show what they sent, and then
      try every room, since the last key to arrive is what unblocks one. */
  function KeyArrived(w: World, c: Client, user: string, pubkey: PublicKey): Client {
    if user == "" || !c.sealing then c else
      var c1 := Release(w, c.(ring := Remember(c.ring, user, pubkey)), user);
      var c2 := DeliverAwaiting(w, c1, user);
      ReleaseRooms(w, c2, w.order(|c2.wire|, HeldRooms(c2)))
  }

  // ----------------------------------------------------------------- history

  /** Which key opens a stored row: the author's, unless that is us; then our own for a
      room and the other party's for a direct conversation. */
  function StoredPeer(author: string, key: string, me: string): string {
    if author != me then author else if IsRoom(key) then me else key
  }

  predicate EncryptedRow(e: H.Entry) {
    e.nonce.Some? && e.nonce.value != ""
  }

  function StoredPlaintext(w: World, c: Client, e: H.Entry, key: string, me: string): string {
    if c.sealing && EncryptedRow(e) then Unsealed(c.ring, StoredPeer(e.sender, key, me), e.body, e.nonce.value, e.sender)
    else Shown(w, e.body)
  }

  function StoredMessage(w: World, c: Client, e: H.Entry, key: string): C.Message {
    var me := if c.model.username.Some? then c.model.username.value else "";
    C.Message(e.id, e.sender, StoredPlaintext(w, c, e, key, me), if e.ts != 0 then e.ts else w.now(|c.wire|),
              c.model.username == Some(e.sender), "SENT")
  }

  /** The ring after opening every row. */
  function RingAfter(c: Client, entries: seq<H.Entry>, key: string, me: string): Ring {
    if entries == [] then c.ring else
      var ring, e := RingAfter(c, entries[..|entries| - 1], key, me), entries[|entries| - 1];
      if c.sealing && EncryptedRow(e) then Asked(ring, StoredPeer(e.sender, key, me)) else ring
  }

  function HistoryArrived(w: World, c: Client, key: string, entries: seq<H.Entry>): Client {
    if key == "" then c else
      Tell(c.(ring := RingAfter(c, entries, key, if c.model.username.Some? then c.model.username.value else "")),
           C.LoadHistory(c.model, key,
             seq(|entries|, i requires 0 <= i < |entries| => StoredMessage(w, c, entries[i], key))))
  }

  // ------------------------------------------------- selecting, rooms, errors

  /** A read receipt for every message of the other side, if any is unread. */
  function ReadReceipts(w: World, c: Client, messages: seq<C.Message>): seq<H.Request> {
    if messages == [] then [] else
      (if messages[0].mine then [] else [H.Receipt(messages[0].id, READ, w.now(|c.wire|))])
      + ReadReceipts(w, c, messages[1..])
  }

  function Choose(w: World, c: Client, key: string): Client {
    var conversation := C.ConversationOf(c.model, key);
    var c1 := Tell(c, C.Select(c.model, Some(key)));
    if IsRoom(key) || conversation.unread == 0 then c1
    else c1.(wire := c.wire + ReadReceipts(w, c, conversation.messages))
  }

  function JoinAndInvite(c: Client, room: string, members: seq<string>): Client {
    if members == [] then Post(c, H.Join(room)) else Post(Post(c, H.Join(room)), H.Invite(room, members))
  }

  function OpenRoom(c: Client, room: string, members: seq<string>): Client {
    var c1 := c.(pendingRoom := Some((room, members)));
    if room in c.model.rooms then JoinAndInvite(c1, room, members) else Post(c1, H.CreateRoom(room, members))
  }

  function OpenChat(w: World, c: Client, name: string): Client {
    var user := Strip(name);
    if user == "" then c
    else if IsRoom(user) then OpenRoom(c, user, [])
    else if c.model.username == Some(user) then Raise(c, "BAD_CONTACT")
    else if user in c.model.contacts || user in c.model.roster then Choose(w, c, user)
    else Post(c.(pendingUser := Some(user)), H.AddContact(user))
  }

  function RoomStateArrived(w: World, c: Client, room: string, members: set<string>): Client {
    if room == "" then c else
      var c1 := Tell(c, C.SetRoomMembers(c.model, room, members));
      if c.pendingRoom.Some? && c.pendingRoom.value.0 == room
         && c.model.username.Some? && c.model.username.value in members
      then Choose(w, c1.(pendingRoom := None), room) else c1
  }

  function ContactsArrived(w: World, c: Client, contacts: map<string, bool>): Client {
    var c1 := Tell(c, C.ReplaceContacts(c.model, contacts));
    if c.pendingUser.Some? && c.pendingUser.value in c1.model.contacts
    then Choose(w, c1.(pendingUser := None), c.pendingUser.value) else c1
  }

  function LoggedIn(c: Client, user: string, roster: set<string>, contacts: map<string, bool>): Client {
    var c1 := if user == "" then c else Tell(c, C.SetIdentity(c.model, user));
    var c2 := Tell(c1, C.ReplaceRoster(c1.model, roster));
    Tell(c2, C.ReplaceContacts(c2.model, contacts))
  }

  /** Undo, or correct, whatever was asked for and refused. */
  function Corrected(c: Client, code: H.Code): Client {
    match code
    case NO_SUCH_USER => c.(pendingUser := None)
    case ROOM_EXISTS =>
      if c.pendingRoom.None? then c else JoinAndInvite(c, c.pendingRoom.value.0, c.pendingRoom.value.1)
    case NO_SUCH_ROOM => c.(pendingRoom := None)
    case BAD_ROOM => c.(pendingRoom := None)
    case _ => c
  }

  /** Show an error; the model keeps none. */
  function Raise(c: Client, code: string): Client {
    Tell(c, C.Apply(c.model, C.Refused(code)))
  }

  function ErrorArrived(c: Client, code: H.Code): Client {
    Raise(Corrected(c, code), CodeName(code))
  }

  function CodeName(code: H.Code): string {
    match code
    case BAD_REGISTER => "BAD_REGISTER" case BAD_USERNAME => "BAD_USERNAME" case USER_EXISTS => "USER_EXISTS"
    case ALREADY_LOGGED_IN => "ALREADY_LOGGED_IN" case BAD_LOGIN => "BAD_LOGIN" case BAD_CREDENTIALS => "BAD_CREDENTIALS"
    case ALREADY_ONLINE => "ALREADY_ONLINE" case NO_RECIPIENT => "NO_RECIPIENT" case BAD_CONTACT => "BAD_CONTACT"
    case NO_SUCH_USER => "NO_SUCH_USER" case BAD_ROOM => "BAD_ROOM" case ROOM_EXISTS => "ROOM_EXISTS"
    case NO_SUCH_ROOM => "NO_SUCH_ROOM" case NOT_A_MEMBER => "NOT_A_MEMBER" case BAD_RECEIPT => "BAD_RECEIPT"
    case NO_KEY => "NO_KEY" case NOT_LOGGED_IN => "NOT_LOGGED_IN" case UNSUPPORTED => "UNSUPPORTED"
    case USER_OFFLINE => "USER_OFFLINE"
  }

  function LabelName(state: Label): string {
    match state case SENT => "SENT" case DELIVERED => "DELIVERED" case READ => "READ"
  }

  /** Frames that touch only the model. */
  function ModelHears(m: C.Model, f: H.Frame): C.Outcome {
    match f
    case Presence(user, online) => if user == "" then C.Outcome(m, []) else C.SetPresence(m, user, online)
    case TypingFrom(sender, to, on) =>
      if sender == "" then C.Outcome(m, []) else C.SetTyping(m, if IsRoom(to) then to else sender, sender, on)
    case ReceiptFrom(sender, _, ref, state) =>
      if ref == "" || sender == "" then C.Outcome(m, []) else C.SetReceipt(m, sender, ref, LabelName(state))
    case _ => C.Outcome(m, [])
  }

  function OnFrame(w: World, c: Client, f: H.Frame): Client {
    match f
    case Msg(_, _, _, _, _, _) => IncomingMessage(w, c, f)
    case KeyIs(user, pubkey) => KeyArrived(w, c, user, pubkey)
    case HistoryResult(room, entries) => HistoryArrived(w, c, room, entries)
    case ContactList(contacts) => ContactsArrived(w, c, contacts)
    case RoomState(room, members) => RoomStateArrived(w, c, room, members)
    case LoginOk(user, roster, contacts, _) => LoggedIn(c, user, roster, contacts)
    case Error(code) => ErrorArrived(c, code)
    case _ => Tell(c, ModelHears(c.model, f))
  }

  predicate ForModel(f: H.Frame) {
    !f.Msg? && !f.KeyIs? && !f.HistoryResult? && !f.ContactList? && !f.RoomState? && !f.LoginOk? && !f.Error?
  }

  /** Hearing a frame is one of the handlers. */
  lemma OnFrameIs(w: World, c: Client, f: H.Frame)
    ensures f.Msg? ==> OnFrame(w, c, f) == IncomingMessage(w, c, f)
    ensures f.KeyIs? ==> OnFrame(w, c, f) == KeyArrived(w, c, f.user, f.pubkey)
    ensures f.HistoryResult? ==> OnFrame(w, c, f) == HistoryArrived(w, c, f.room, f.entries)
    ensures f.ContactList? ==> OnFrame(w, c, f) == ContactsArrived(w, c, f.contacts)
    ensures f.RoomState? ==> OnFrame(w, c, f) == RoomStateArrived(w, c, f.room, f.members)
    ensures f.LoginOk? ==> OnFrame(w, c, f) == LoggedIn(c, f.user, f.roster, f.contacts)
    ensures f.Error? ==> OnFrame(w, c, f) == ErrorArrived(c, f.code)
    ensures ForModel(f) ==> OnFrame(w, c, f) == Tell(c, ModelHears(c.model, f))
  {}

  // -------------------------------------------------------------------- runs

  /** A gesture or an inbound frame. `Pass` is any gesture that only forwards a request. */
  datatype Step =
    | Type(text: string)
    | Open(key: string)
    | Chat(user: string)
    | Room(room: string, members: seq<string>)
    | Pass(request: H.Request)
    | Hear(frame: H.Frame)
    | State(state: string)

  function Next(w: World, c: Client, s: Step): Client {
    match s
    case Type(text) => Send(w, c, text)
    case Open(key) => Choose(w, c, key)
    case Chat(user) => OpenChat(w, c, user)
    case Room(room, members) => OpenRoom(c, room, members)
    case Pass(r) => if r.Send? then c else Post(c, r)
    case Hear(f) => OnFrame(w, c, f)
    case State(state) => Tell(c, C.SetConnectionState(c.model, state))
  }

  function Run(w: World, c: Client, steps: seq<Step>): Client {
    if steps == [] then c else Next(w, Run(w, c, steps[..|steps| - 1]), steps[|steps| - 1])
  }
}
