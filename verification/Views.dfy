/** A view that lives on the emitted events alone shows what the model holds. */
module Views {
  import opened Text
  import opened ChatModel

  datatype View = View(
    unread: map<string, nat>, typing: map<string, set<string>>, rooms: map<string, set<string>>,
    connectionState: string, active: Option<string>)

  const NEW_VIEW := View(map[], map[], map[], "DISCONNECTED", None)

  function See(v: View, e: Event): View {
    match e
    case UnreadChanged(k, n) => v.(unread := v.unread[k := n])
    case TypingChanged(k, who) => v.(typing := v.typing[k := who])
    case RoomMembersChanged(r, ms) => v.(rooms := v.rooms[r := ms])
    case ConnectionStateChanged(s) => v.(connectionState := s)
    case ConversationSelected(k) => v.(active := k)
    case _ => v
  }

  function Watch(v: View, events: seq<Event>): View
    decreases |events|
  {
    if events == [] then v else Watch(See(v, events[0]), events[1..])
  }

  lemma {:induction false} WatchOn(v: View, a: seq<Event>, b: seq<Event>)
    ensures Watch(v, a + b) == Watch(Watch(v, a), b)
    decreases |a|
  {
    if a == [] {
      assert a + b == b;
    } else {
      assert (a + b)[1..] == a[1..] + b;
      WatchOn(See(v, a[0]), a[1..], b);
    }
  }

  ghost predicate UnreadAgrees(seen: map<string, nat>, conversations: map<string, Conversation>) {
    forall k :: (if k in seen then seen[k] else 0) == (if k in conversations then conversations[k].unread else 0)
  }

  ghost predicate TypingAgrees(seen: map<string, set<string>>, typing: map<string, set<string>>) {
    forall k, u :: (k in seen && u in seen[k]) <==> (k in typing && u in typing[k])
  }

  ghost predicate Agrees(v: View, m: Model) {
    && UnreadAgrees(v.unread, m.conversations)
    && TypingAgrees(v.typing, m.typing)
    && v.rooms == m.rooms
    && v.connectionState == m.connectionState
  }

  lemma TypingIsSeen(v: View, m: Model, key: string, user: string, on: bool)
    requires TypingAgrees(v.typing, m.typing)
    ensures var out := SetTyping(m, key, user, on);
      var v' := Watch(v, out.events);
      && TypingAgrees(v'.typing, out.model.typing)
      && v'.unread == v.unread && v'.rooms == v.rooms
      && v'.connectionState == v.connectionState && v'.active == v.active
  {
    var before := TypingIn(m, key);
    var who := if on then before + {user} else before - {user};
    var events := SetTyping(m, key, user, on).events;
    if who == before {
      assert Watch(v, events) == v;
    } else {
      assert events[1..] == [] && Watch(v, events) == See(v, TypingChanged(key, who));
    }
  }

  lemma AddIsSeen(v: View, m: Model, key: string, message: Message)
    requires Agrees(v, m)
    ensures var out := AddMessage(m, key, message);
      Agrees(Watch(v, out.events), out.model) && Watch(v, out.events).active == v.active
  {
    var c := ConversationOf(m, key).Add(message, m.active == Some(key));
    var m1 := m.(conversations := m.conversations[key := c]);
    var typed := if message.mine then Outcome(m1, []) else SetTyping(m1, key, message.sender, false);
    TypingIsSeen(v, m1, key, message.sender, false);
    var v1 := Watch(v, typed.events);
    var counted := if c.unread == Unread(m, key) then [] else [UnreadChanged(key, c.unread)];
    WatchOn(v, typed.events, [MessageAdded(key, message)]);
    WatchOn(v, typed.events + [MessageAdded(key, message)], counted);
    assert Watch(v1, [MessageAdded(key, message)]) == v1;
    assert Watch(v1, counted) == if counted == [] then v1 else See(v1, counted[0]);
  }

  lemma SelectIsSeen(v: View, m: Model, key: Option<string>)
    requires Agrees(v, m)
    ensures var out := Select(m, key);
      Agrees(Watch(v, out.events), out.model) && Watch(v, out.events).active == key
  {
    var v1 := See(v, ConversationSelected(key));
    if key.Some? {
      var counted := if Unread(m, key.value) == 0 then [] else [UnreadChanged(key.value, 0)];
      WatchOn(v, [ConversationSelected(key)], counted);
      assert Watch(v1, counted) == if counted == [] then v1 else See(v1, counted[0]);
    }
    assert Watch(v, [ConversationSelected(key)]) == v1;
  }

  lemma {:induction false} ReleaseIsSeen(v: View, m: Model, key: string, messages: seq<Message>)
    requires Agrees(v, m)
    requires forall j | 0 <= j < |messages| :: messages[j].mine
    ensures var out := AddAll(m, key, messages);
      && Agrees(Watch(v, out.events), out.model) && Watch(v, out.events).active == v.active
      && forall k :: Unread(out.model, k) == Unread(m, k)
    decreases |messages|
  {
    if messages != [] {
      var first := AddMessage(m, key, messages[0]);
      AddIsSeen(v, m, key, messages[0]);
      AddChanges(m, key, messages[0]);
      ReleaseIsSeen(Watch(v, first.events), first.model, key, messages[1..]);
      WatchOn(v, first.events, AddAll(first.model, key, messages[1..]).events);
    }
  }

  function UnreadAfter(m: Model, op: Op, key: string): nat {
    if op.Selected? && op.selected == Some(key) then 0
    else if op.Added? && op.key == key && !op.message.mine && m.active != Some(key) then Unread(m, key) + 1
    else Unread(m, key)
  }

  /** A view v told of one call on the model m. */
  ghost predicate SeenStep(v: View, m: Model, op: Op) {
    var out := Apply(m, op);
    && Agrees(Watch(v, out.events), out.model)
    && out.model.active == (if op.Selected? then op.selected else m.active)
    && Watch(v, out.events).active == (if op.Selected? then op.selected else v.active)
    && forall k :: Unread(out.model, k) == UnreadAfter(m, op, k)
  }

  lemma PeopleStepIsSeen(v: View, m: Model, op: Op)
    requires Agrees(v, m)
    requires op.Identify? || op.ConnectionIs? || op.Roster? || op.Contacts? || op.Present? || op.Refused?
    ensures SeenStep(v, m, op)
  {
    var out := Apply(m, op);
    PeopleStepStays(m, op);
    assert out.events != [] ==> Watch(v, out.events) == See(v, out.events[0]);
    assert !op.ConnectionIs? && out.events != [] ==> See(v, out.events[0]) == v;
    assert forall k :: Unread(out.model, k) == Unread(m, k);
  }

  lemma RecordStepIsSeen(v: View, m: Model, op: Op)
    requires Agrees(v, m)
    requires op.Loaded? || op.Receipt? || op.RoomIs?
    ensures SeenStep(v, m, op)
  {
    if op.Loaded? {
      var out := LoadHistory(m, op.key, op.messages);
      assert Watch(v, out.events) == See(v, out.events[0]) == v;
      assert UnreadAgrees(v.unread, out.model.conversations);
    } else if op.Receipt? {
      var out := SetReceipt(m, op.key, op.id, op.state);
      assert out.events != [] ==> Watch(v, out.events) == See(v, out.events[0]) == v;
      assert UnreadAgrees(v.unread, out.model.conversations);
    } else {
      RoomStepIsSeen(v, m, op);
    }
  }

  lemma RoomStepIsSeen(v: View, m: Model, op: Op)
    requires Agrees(v, m) && op.RoomIs?
    ensures SeenStep(v, m, op)
  {
    var out := SetRoomMembers(m, op.room, op.members);
    assert out.events != [] ==> Watch(v, out.events) == See(v, out.events[0]);
    assert UnreadAgrees(v.unread, out.model.conversations);
  }

  lemma TalkStepIsSeen(v: View, m: Model, op: Op)
    requires Agrees(v, m)
    requires op.Added? || op.Selected? || op.Typed?
    ensures SeenStep(v, m, op)
  {
    if op.Added? {
      AddIsSeen(v, m, op.key, op.message);
      AddChanges(m, op.key, op.message);
    } else if op.Typed? {
      TypingIsSeen(v, m, op.key, op.user, op.on);
    } else {
      SelectStepIsSeen(v, m, op);
    }
  }

  lemma SelectStepIsSeen(v: View, m: Model, op: Op)
    requires Agrees(v, m) && op.Selected?
    ensures SeenStep(v, m, op)
  {
    SelectIsSeen(v, m, op.selected);
  }

  lemma ReleaseStepIsSeen(v: View, m: Model, op: Op)
    requires Agrees(v, m)
    requires op.Released? && forall j | 0 <= j < |op.messages| :: op.messages[j].mine
    ensures SeenStep(v, m, op)
  {
    var onScreen := m.(active := Some(op.key));
    ReleaseIsSeen(v, onScreen, op.key, op.messages);
    assert forall k :: Unread(onScreen, k) == Unread(m, k);
  }

  lemma StepIsSeen(v: View, m: Model, op: Op)
    requires Agrees(v, m)
    requires op.Released? ==> forall j | 0 <= j < |op.messages| :: op.messages[j].mine
    ensures SeenStep(v, m, op)
  {
    if op.Released? {
      ReleaseStepIsSeen(v, m, op);
    } else if op.Added? || op.Typed? || op.Selected? {
      TalkStepIsSeen(v, m, op);
    } else if op.Loaded? || op.Receipt? || op.RoomIs? {
      RecordStepIsSeen(v, m, op);
    } else {
      PeopleStepIsSeen(v, m, op);
    }
  }

  /** Views can live on events alone. After every run the fold of the emitted events
      is the model's unread counts, typing sets, room members, connection state and
      active conversation; unread is what was missed; what is on screen has none. */
  lemma {:induction false} ViewsLiveOnEvents(ops: seq<Op>)
    requires OwnReleases(ops)
    ensures var out := Run(NEW_MODEL, ops);
      && Agrees(Watch(NEW_VIEW, out.events), out.model)
      && Watch(NEW_VIEW, out.events).active == out.model.active == OnScreen(ops)
      && (forall k :: Unread(out.model, k) == Missed(ops, k))
      && (out.model.active.Some? ==> Unread(out.model, out.model.active.value) == 0)
  {
    if ops != [] {
      var front, op := ops[..|ops| - 1], ops[|ops| - 1];
      assert forall i | 0 <= i < |front| :: front[i] == ops[i];
      ViewsLiveOnEvents(front);
      var before := Run(NEW_MODEL, front);
      StepIsSeen(Watch(NEW_VIEW, before.events), before.model, op);
      WatchOn(NEW_VIEW, before.events, Apply(before.model, op).events);
    }
  }

  // --------------------------------------------------------------------- typing

  /** Somebody was last said to be typing, and nothing of theirs was added since: told from
      the calls alone. */
  ghost predicate SaidToType(ops: seq<Op>, key: string, u: string) {
    if ops == [] then false else
      var front, op := ops[..|ops| - 1], ops[|ops| - 1];
      if op.Typed? && op.key == key && op.user == u then op.on
      else SaidToType(front, key, u) && !(op.Added? && op.key == key && !op.message.mine && op.message.sender == u)
  }

  lemma {:induction false} ReleaseTyping(m: Model, key: string, messages: seq<Message>)
    requires forall j | 0 <= j < |messages| :: messages[j].mine
    ensures AddAll(m, key, messages).model.typing == m.typing
    decreases |messages|
  {
    if messages != [] { ReleaseTyping(AddMessage(m, key, messages[0]).model, key, messages[1..]); }
  }

  lemma StepTyping(m: Model, op: Op, key: string, u: string)
    requires op.Released? ==> forall j | 0 <= j < |op.messages| :: op.messages[j].mine
    ensures u in TypingIn(Apply(m, op).model, key)
       <==> if op.Typed? && op.key == key && op.user == u then op.on
            else u in TypingIn(m, key) && !(op.Added? && op.key == key && !op.message.mine && op.message.sender == u)
  {
    if op.Released? {
      ReleaseTyping(m.(active := Some(op.key)), op.key, op.messages);
    } else if op.Identify? || op.ConnectionIs? || op.Roster? || op.Contacts? || op.Present? || op.Refused? {
      PeopleStepStays(m, op);
    } else if op.Added? {
      AddTyping(m, op.key, op.message, key, u);
    }
  }

  lemma AddTyping(m: Model, k: string, x: Message, key: string, u: string)
    ensures u in TypingIn(AddMessage(m, k, x).model, key) <==> u in TypingIn(m, key) && !(k == key && !x.mine && x.sender == u)
  {}

  /** After every sequence of calls exactly those are typing who were last said to be, and
      of whom no message was added since. */
  lemma {:induction false} TypingIsSaid(ops: seq<Op>, key: string, u: string)
    requires OwnReleases(ops)
    ensures u in TypingIn(Run(NEW_MODEL, ops).model, key) <==> SaidToType(ops, key, u)
  {
    if ops != [] {
      var front, op := ops[..|ops| - 1], ops[|ops| - 1];
      assert forall i | 0 <= i < |front| :: front[i] == ops[i];
      TypingIsSaid(front, key, u);
      StepTyping(Run(NEW_MODEL, front).model, op, key, u);
    }
  }
}
