/** im/client/model/chat.py and conversation.py: the client's state and the events each
    call emits. A sorted tuple of distinct names is the set it lists. */
module ChatModel {
  import opened Text
  import opened Sorting

  datatype Message = Message(id: string, sender: string, body: string, ts: int, mine: bool, state: string)

  datatype Conversation = Conversation(messages: seq<Message>, unread: nat) {
    /** Your own messages never count, nor anything that arrives on screen. */
    function Add(message: Message, active: bool): Conversation {
      Conversation(messages + [message], if !active && !message.mine then unread + 1 else unread)
    }
  }

  datatype Event =
    | IdentityEstablished(user: string)
    | ConnectionStateChanged(state: string)
    | RosterReplaced(users: set<string>)
    | ContactsChanged(users: set<string>)
    | PresenceChanged(user: string, online: bool)
    | MessageAdded(key: string, message: Message)
    | UnreadChanged(key: string, unread: nat)
    | HistoryLoaded(key: string, count: nat)
    | ReceiptChanged(key: string, id: string, state: string)
    | ConversationSelected(selected: Option<string>)
    | TypingChanged(key: string, who: set<string>)
    | RoomMembersChanged(room: string, members: set<string>)
    | ErrorRaised(code: string)

  datatype Model = Model(
    username: Option<string>,
    connectionState: string,
    roster: map<string, bool>,
    contacts: map<string, bool>,
    conversations: map<string, Conversation>,
    rooms: map<string, set<string>>,
    typing: map<string, set<string>>,
    active: Option<string>)

  /** What one call leaves behind, and what it tells the listeners. */
  datatype Outcome = Outcome(model: Model, events: seq<Event>)

  const NEW_MODEL := Model(None, "DISCONNECTED", map[], map[], map[], map[], map[], None)

  function ConversationOf(m: Model, key: string): Conversation {
    if key in m.conversations then m.conversations[key] else Conversation([], 0)
  }

  function Unread(m: Model, key: string): nat {
    ConversationOf(m, key).unread
  }

  function TypingIn(m: Model, key: string): set<string> {
    if key in m.typing then m.typing[key] else {}
  }

  function RoomMembers(m: Model, room: string): set<string> {
    if room in m.rooms then m.rooms[room] else {}
  }

  // ----------------------------------------------------------------- roster

  function SetIdentity(m: Model, user: string): Outcome {
    Outcome(m.(username := Some(user)), [IdentityEstablished(user)])
  }

  function SetConnectionState(m: Model, state: string): Outcome {
    if state == m.connectionState then Outcome(m, [])
    else Outcome(m.(connectionState := state), [ConnectionStateChanged(state)])
  }

  /** Everyone online at login; anyone already known but absent is marked offline. */
  function ReplaceRoster(m: Model, users: set<string>): Outcome {
    var roster := map name | name in m.roster.Keys + users :: name in users;
    Outcome(m.(roster := roster), [RosterReplaced(roster.Keys)])
  }

  /** The entries that name somebody. */
  function Named(reported: map<string, bool>): map<string, bool> {
    map name | name in reported && name != "" :: reported[name]
  }

  function ReplaceContacts(m: Model, reported: map<string, bool>): Outcome {
    var contacts := Named(reported);
    if contacts == m.contacts then Outcome(m, []) else
      Outcome(m.(contacts := contacts, roster := contacts + m.roster), [ContactsChanged(contacts.Keys)])
  }

  function SetPresence(m: Model, user: string, online: bool): Outcome {
    var m1 := if user in m.contacts then m.(contacts := m.contacts[user := online]) else m;
    if user in m.roster && m.roster[user] == online then Outcome(m1, [])
    else Outcome(m1.(roster := m.roster[user := online]), [PresenceChanged(user, online)])
  }

  // ---------------------------------------------------------- conversations

  function SetTyping(m: Model, key: string, user: string, on: bool): Outcome {
    var before := TypingIn(m, key);
    var who := if on then before + {user} else before - {user};
    Outcome(m.(typing := m.typing[key := who]), if who == before then [] else [TypingChanged(key, who)])
  }

  function AddMessage(m: Model, key: string, message: Message): Outcome {
    var c := ConversationOf(m, key).Add(message, m.active == Some(key));
    var m1 := m.(conversations := m.conversations[key := c]);
    var typed := if message.mine then Outcome(m1, []) else SetTyping(m1, key, message.sender, false);
    Outcome(typed.model,
      typed.events + [MessageAdded(key, message)]
      + if c.unread == Unread(m, key) then [] else [UnreadChanged(key, c.unread)])
  }

  function LoadHistory(m: Model, key: string, messages: seq<Message>): Outcome {
    Outcome(m.(conversations := m.conversations[key := ConversationOf(m, key).(messages := messages)]),
            [HistoryLoaded(key, |messages|)])
  }

  function Order(state: string): nat {
    if state == "DELIVERED" then 1 else if state == "READ" then 2 else 0
  }

  function FirstWithId(messages: seq<Message>, id: string): (i: nat)
    ensures i <= |messages|
    ensures forall j | 0 <= j < i :: messages[j].id != id
    ensures i < |messages| ==> messages[i].id == id
  {
    if messages == [] || messages[0].id == id then 0 else
      var i := FirstWithId(messages[1..], id);
      assert forall j | 1 <= j < |messages| :: messages[j] == messages[1..][j - 1];
      i + 1
  }

  /** Receipts never move backwards; only the first message of that id is touched. */
  function Receive(messages: seq<Message>, id: string, state: string): seq<Message> {
    var i := FirstWithId(messages, id);
    if i == |messages| || Order(state) <= Order(messages[i].state) then messages
    else messages[i := messages[i].(state := state)]
  }

  function SetReceipt(m: Model, key: string, id: string, state: string): Outcome {
    if key !in m.conversations || Receive(m.conversations[key].messages, id, state) == m.conversations[key].messages
    then Outcome(m, [])
    else
      var c := m.conversations[key];
      Outcome(m.(conversations := m.conversations[key := c.(messages := Receive(c.messages, id, state))]),
              [ReceiptChanged(key, id, state)])
  }

  function Select(m: Model, key: Option<string>): Outcome {
    if key.None? then Outcome(m.(active := key), [ConversationSelected(key)]) else
      var c := ConversationOf(m, key.value);
      Outcome(m.(active := key, conversations := m.conversations[key.value := c.(unread := 0)]),
              [ConversationSelected(key)] + if c.unread == 0 then [] else [UnreadChanged(key.value, 0)])
  }

  function SetRoomMembers(m: Model, room: string, members: set<string>): Outcome {
    if room in m.rooms && m.rooms[room] == members then Outcome(m, []) else
      Outcome(m.(rooms := m.rooms[room := members],
                 conversations := m.conversations[room := ConversationOf(m, room)]),
              [RoomMembersChanged(room, members)])
  }

  // -------------------------------------------------------------------- runs

  datatype Op =
    | Identify(user: string)
    | ConnectionIs(state: string)
    | Roster(users: set<string>)
    | Contacts(contacts: map<string, bool>)
    | Present(user: string, online: bool)
    | Added(key: string, message: Message)
    | Loaded(key: string, messages: seq<Message>)
    | Receipt(key: string, id: string, state: string)
    | Selected(selected: Option<string>)
    | Typed(key: string, user: string, on: bool)
    | RoomIs(room: string, members: set<string>)
    | Released(key: string, messages: seq<Message>)
    | Refused(code: string)

  function AddAll(m: Model, key: string, messages: seq<Message>): Outcome
    decreases |messages|
  {
    if messages == [] then Outcome(m, []) else
      var first := AddMessage(m, key, messages[0]);
      var rest := AddAll(first.model, key, messages[1..]);
      Outcome(rest.model, first.events + rest.events)
  }

  /** Adding touches one conversation, and no selection. */
  lemma AddChanges(m: Model, key: string, message: Message)
    ensures var m' := AddMessage(m, key, message).model;
      && m'.conversations == m.conversations[key := ConversationOf(m, key).Add(message, m.active == Some(key))]
      && m'.active == m.active
  {}

  /** The controller's `_release`: it puts the conversation on screen without saying
      so, adds what it sends, and puts the previous one back. */
  function Release(m: Model, key: string, messages: seq<Message>): Outcome {
    var added := AddAll(m.(active := Some(key)), key, messages);
    Outcome(added.model.(active := m.active), added.events)
  }

  function Apply(m: Model, op: Op): Outcome {
    match op
    case Identify(u) => SetIdentity(m, u)
    case ConnectionIs(s) => SetConnectionState(m, s)
    case Roster(us) => ReplaceRoster(m, us)
    case Contacts(cs) => ReplaceContacts(m, cs)
    case Present(u, on) => SetPresence(m, u, on)
    case Added(k, msg) => AddMessage(m, k, msg)
    case Loaded(k, ms) => LoadHistory(m, k, ms)
    case Receipt(k, id, s) => SetReceipt(m, k, id, s)
    case Selected(k) => Select(m, k)
    case Typed(k, u, on) => SetTyping(m, k, u, on)
    case RoomIs(r, ms) => SetRoomMembers(m, r, ms)
    case Released(k, ms) => Release(m, k, ms)
    case Refused(code) => Outcome(m, [ErrorRaised(code)])
  }

  function Run(m: Model, ops: seq<Op>): Outcome {
    if ops == [] then Outcome(m, []) else
      var before := Run(m, ops[..|ops| - 1]);
      var last := Apply(before.model, ops[|ops| - 1]);
      Outcome(last.model, before.events + last.events)
  }

  /** What a release adds was typed here. */
  ghost predicate OwnReleases(ops: seq<Op>) {
    forall i | 0 <= i < |ops| && ops[i].Released? ::
      forall j | 0 <= j < |ops[i].messages| :: ops[i].messages[j].mine
  }

  /** What was last put on screen. */
  function OnScreen(ops: seq<Op>): Option<string> {
    if ops == [] then None
    else if ops[|ops| - 1].Selected? then ops[|ops| - 1].selected
    else OnScreen(ops[..|ops| - 1])
  }

  /** The other party's messages added while a conversation was off screen, since it
      was last selected: counted from the calls alone. */
  function Missed(ops: seq<Op>, key: string): nat {
    if ops == [] then 0 else
      var front, op := ops[..|ops| - 1], ops[|ops| - 1];
      if op == Selected(Some(key)) then 0
      else if op.Added? && op.key == key && !op.message.mine && OnScreen(front) != Some(key) then Missed(front, key) + 1
      else Missed(front, key)
  }

  /** What concerns people and the connection leaves every conversation alone. */
  lemma PeopleStepStays(m: Model, op: Op)
    requires op.Identify? || op.ConnectionIs? || op.Roster? || op.Contacts? || op.Present? || op.Refused?
    ensures var out := Apply(m, op);
      && out.model.conversations == m.conversations && out.model.typing == m.typing && out.model.active == m.active
      && |out.events| <= 1
  {}
}
