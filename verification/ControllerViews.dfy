/** Whatever the controller does to the model, it does through the model's own calls: so
    the views that live on events are right after every controller run. */
module ControllerViews {
  import opened Text
  import opened Crypto
  import opened Keyrings
  import opened Controller
  import C = ChatModel
  import Views
  import H = Hub

  /** Calls on the model that take one client to another: they leave the model it has and
      emit the events it adds; and a release adds own messages only. */
  ghost predicate Reaches(c: Client, ops: seq<C.Op>, c': Client) {
    var out := C.Run(c.model, ops);
    C.OwnReleases(ops) && c'.model == out.model && c'.events == c.events + out.events
  }

  lemma {:induction false} RunOn(m: C.Model, a: seq<C.Op>, b: seq<C.Op>)
    ensures var out, more := C.Run(m, a), C.Run(C.Run(m, a).model, b);
      C.Run(m, a + b) == C.Outcome(more.model, out.events + more.events)
  {
    if b == [] {
      assert a + b == a;
      assert C.Run(m, a).events + [] == C.Run(m, a).events;
    } else {
      var front, op := b[..|b| - 1], b[|b| - 1];
      assert (a + b)[..|a + b| - 1] == a + front;
      RunOn(m, a, front);
      var out, more := C.Run(m, a), C.Run(C.Run(m, a).model, front);
      var last := C.Apply(more.model, op).events;
      assert out.events + more.events + last == out.events + (more.events + last);
    }
  }

  lemma ReachesOn(c: Client, a: seq<C.Op>, c1: Client, b: seq<C.Op>, c2: Client)
    requires Reaches(c, a, c1) && Reaches(c1, b, c2)
    ensures Reaches(c, a + b, c2)
  {
    RunOn(c.model, a, b);
    Regroup(c.events, C.Run(c.model, a).events, C.Run(c1.model, b).events);
    OwnOn(a, b);
  }

  lemma OwnOn(a: seq<C.Op>, b: seq<C.Op>)
    requires C.OwnReleases(a) && C.OwnReleases(b)
    ensures C.OwnReleases(a + b)
  {
    forall i | 0 <= i < |a + b| && (a + b)[i].Released?
      ensures forall j | 0 <= j < |(a + b)[i].messages| :: (a + b)[i].messages[j].mine
    {
      assert (a + b)[i] == if i < |a| then a[i] else b[i - |a|];
    }
  }

  lemma ReachesNone(c: Client, c': Client)
    requires c'.model == c.model && c'.events == c.events
    ensures Reaches(c, [], c')
  {
    assert c.events + [] == c.events;
  }

  lemma ReachesOne(c: Client, op: C.Op, c': Client)
    requires op.Released? ==> forall j | 0 <= j < |op.messages| :: op.messages[j].mine
    requires var out := C.Apply(c.model, op); c'.model == out.model && c'.events == c.events + out.events
    ensures Reaches(c, [op], c')
  {
    assert [op][..0] == [];
    assert [] + C.Apply(c.model, op).events == C.Apply(c.model, op).events;
  }

  // ----------------------------------------------------------------- sending

  /** What sending does to the model and its listeners: nothing, or one own message. */
  ghost predicate AddsOne(w: World, c: Client, target: string, text: string, c': Client) {
    var out := C.AddMessage(c.model, target, OwnMessage(w, c, text));
    || (c'.model == c.model && c'.events == c.events)
    || (c'.model == out.model && c'.events == c.events + out.events)
  }

  lemma SendModel(w: World, c: Client, text: string)
    ensures var c' := Send(w, c, text);
      if c.model.active.None? then c'.model == c.model && c'.events == c.events
      else AddsOne(w, c, c.model.active.value, text, c')
  {
    if c.model.active.Some? && !IsBlank(text) && c.sealing {
      if IsRoom(c.model.active.value) {
        RoomModel(w, c, c.model.active.value, text);
      } else {
        PersonModel(w, c, c.model.active.value, text);
      }
    }
  }

  lemma PersonModel(w: World, c: Client, target: string, text: string)
    ensures AddsOne(w, c, target, text, SendToPerson(w, c, target, text))
  {}

  lemma RoomModel(w: World, c: Client, room: string, text: string)
    ensures AddsOne(w, c, room, text, SendToRoom(w, c, room, text))
  {}

  /** Own messages added to one conversation, on screen all the while. */
  ghost predicate AddsAll(c: Client, key: string, messages: seq<C.Message>, c': Client) {
    var out := C.AddAll(c.model, key, messages);
    && (forall j | 0 <= j < |messages| :: messages[j].mine)
    && c'.model == out.model && c'.events == c.events + out.events
  }

  lemma {:induction false} AddAllOn(m: C.Model, key: string, a: seq<C.Message>, b: seq<C.Message>)
    ensures var out, more := C.AddAll(m, key, a), C.AddAll(C.AddAll(m, key, a).model, key, b);
      C.AddAll(m, key, a + b) == C.Outcome(more.model, out.events + more.events)
    decreases |a|
  {
    if a == [] {
      assert a + b == b;
      assert [] + C.AddAll(m, key, b).events == C.AddAll(m, key, b).events;
    } else {
      assert (a + b)[1..] == a[1..] + b;
      var first := C.AddMessage(m, key, a[0]);
      FirstThenRest(m, key, a);
      FirstThenRest(m, key, a + b);
      AddAllOn(first.model, key, a[1..], b);
      Regroup(first.events, C.AddAll(first.model, key, a[1..]).events, C.AddAll(C.AddAll(m, key, a).model, key, b).events);
    }
  }

  lemma FirstThenRest(m: C.Model, key: string, messages: seq<C.Message>)
    requires messages != []
    ensures var first := C.AddMessage(m, key, messages[0]);
      var rest := C.AddAll(first.model, key, messages[1..]);
      C.AddAll(m, key, messages) == C.Outcome(rest.model, first.events + rest.events)
  {}

  lemma Regroup(a: seq<C.Event>, b: seq<C.Event>, c: seq<C.Event>)
    ensures a + (b + c) == a + b + c
  {}

  lemma AddsAllOn(c: Client, key: string, a: seq<C.Message>, c1: Client, b: seq<C.Message>, c2: Client)
    requires AddsAll(c, key, a, c1) && AddsAll(c1, key, b, c2)
    ensures AddsAll(c, key, a + b, c2)
  {
    AddAllOn(c.model, key, a, b);
    var x, y := C.AddAll(c.model, key, a).events, C.AddAll(c1.model, key, b).events;
    assert c.events + x + y == c.events + (x + y);
  }

  lemma SendAdds(w: World, c: Client, key: string, text: string) returns (messages: seq<C.Message>)
    requires c.model.active == Some(key)
    ensures AddsAll(c, key, messages, Send(w, c, text)) && Send(w, c, text).model.active == c.model.active
  {
    var c' := Send(w, c, text);
    SendModel(w, c, text);
    messages := if c'.model == c.model && c'.events == c.events then [] else [OwnMessage(w, c, text)];
    OneAdded(c.model, key, OwnMessage(w, c, text));
    assert c.events + [] == c.events;
  }

  lemma OneAdded(m: C.Model, key: string, message: C.Message)
    ensures C.AddAll(m, key, [message]) == C.AddMessage(m, key, message)
    ensures C.AddMessage(m, key, message).model.active == m.active
  {
    assert [message][1..] == [];
    var first := C.AddMessage(m, key, message);
    assert C.AddAll(first.model, key, []) == C.Outcome(first.model, []);
    assert first.events + [] == first.events;
  }

  lemma {:induction false} SendEachAdds(w: World, c: Client, key: string, texts: seq<string>) returns (messages: seq<C.Message>)
    requires c.model.active == Some(key)
    ensures AddsAll(c, key, messages, SendEach(w, c, texts))
    decreases |texts|
  {
    if texts == [] {
      messages := [];
      assert c.events + [] == c.events;
    } else {
      var c1 := Send(w, c, texts[0]);
      var first := SendAdds(w, c, key, texts[0]);
      var rest := SendEachAdds(w, c1, key, texts[1..]);
      messages := first + rest;
      AddsAllOn(c, key, first, c1, rest, SendEach(w, c1, texts[1..]));
    }
  }

  /** The temporary change of what is on screen is one call of the model's. */
  lemma ReleaseIsCall(w: World, c: Client, target: string) returns (ops: seq<C.Op>)
    ensures Reaches(c, ops, Release(w, c, target))
  {
    var waiting := HeldFor(c, target);
    if waiting == [] {
      ops := [];
      ReachesNone(c, Release(w, c, target));
    } else {
      var c1 := OnScreen(c.(held := c.held - {target}), Some(target));
      var messages := SendEachAdds(w, c1, target, waiting);
      ops := [C.Released(target, messages)];
      ReleasedIs(c, c1, target, messages, SendEach(w, c1, waiting), Release(w, c, target));
    }
  }

  lemma ReleasedIs(c: Client, c1: Client, target: string, messages: seq<C.Message>, c2: Client, c': Client)
    requires c1.model == c.model.(active := Some(target)) && c1.events == c.events
    requires AddsAll(c1, target, messages, c2) && c' == OnScreen(c2, c.model.active)
    ensures Reaches(c, [C.Released(target, messages)], c')
  {
    ReachesOne(c, C.Released(target, messages), c');
  }

  lemma FileIsCall(w: World, c: Client, f: Mail, key: string) returns (op: C.Op)
    ensures Reaches(c, [op], File(w, c, f, key))
  {
    var message := C.Message(f.id, if f.sender != "" then f.sender else "?", Plaintext(w, c, f),
                             if f.ts != 0 then f.ts else w.now(|c.wire|), false, "SENT");
    op := C.Added(key, message);
    ReachesOne(c, op, File(w, c, f, key));
  }

  lemma {:induction false} FileEachIsCalls(w: World, c: Client, frames: seq<Mail>, user: string) returns (ops: seq<C.Op>)
    ensures Reaches(c, ops, FileEach(w, c, frames, user))
    decreases |frames|
  {
    if frames == [] {
      ops := [];
      ReachesNone(c, c);
    } else {
      var key := if IsRoom(frames[0].to) then frames[0].to else user;
      var c1 := File(w, c, frames[0], key);
      var first := FileIsCall(w, c, frames[0], key);
      var rest := FileEachIsCalls(w, c1, frames[1..], user);
      ops := [first] + rest;
      ReachesOn(c, [first], c1, rest, FileEach(w, c1, frames[1..], user));
    }
  }

  lemma DeliverIsCalls(w: World, c: Client, user: string) returns (ops: seq<C.Op>)
    ensures Reaches(c, ops, DeliverAwaiting(w, c, user))
  {
    var c1 := c.(awaiting := c.awaiting - {user});
    ops := FileEachIsCalls(w, c1, AwaitingFrom(c, user), user);
    SameStart(c, c1, ops, DeliverAwaiting(w, c, user));
  }

  lemma SameStart(c: Client, c1: Client, ops: seq<C.Op>, c': Client)
    requires c1.model == c.model && c1.events == c.events && Reaches(c1, ops, c')
    ensures Reaches(c, ops, c')
  {}

  lemma {:induction false} RoomsAreCalls(w: World, c: Client, rooms: seq<string>) returns (ops: seq<C.Op>)
    ensures Reaches(c, ops, ReleaseRooms(w, c, rooms))
    decreases |rooms|
  {
    if rooms == [] {
      ops := [];
      ReachesNone(c, c);
    } else if Missing(c.ring, OtherMembers(c, rooms[0])) == {} {
      var c1 := Release(w, c, rooms[0]);
      var first := ReleaseIsCall(w, c, rooms[0]);
      var rest := RoomsAreCalls(w, c1, rooms[1..]);
      ops := first + rest;
      ReachesOn(c, first, c1, rest, ReleaseRooms(w, c1, rooms[1..]));
    } else {
      ops := RoomsAreCalls(w, c, rooms[1..]);
    }
  }

  lemma KeyIsCalls(w: World, c: Client, user: string, pubkey: PublicKey) returns (ops: seq<C.Op>)
    ensures Reaches(c, ops, KeyArrived(w, c, user, pubkey))
  {
    if user == "" || !c.sealing {
      ops := [];
      ReachesNone(c, c);
    } else {
      var c0 := c.(ring := Remember(c.ring, user, pubkey));
      var c1 := Release(w, c0, user);
      var c2 := DeliverAwaiting(w, c1, user);
      var rooms := w.order(|c2.wire|, HeldRooms(c2));
      var released := ReleaseIsCall(w, c0, user);
      var filed := DeliverIsCalls(w, c1, user);
      var more := RoomsAreCalls(w, c2, rooms);
      ReachesOn(c0, released, c1, filed, c2);
      ReachesOn(c0, released + filed, c2, more, ReleaseRooms(w, c2, rooms));
      ops := released + filed + more;
      SameStart(c, c0, ops, ReleaseRooms(w, c2, rooms));
    }
  }

  // ------------------------------------------------------------- other frames

  lemma ChooseIsCall(w: World, c: Client, key: string)
    ensures Reaches(c, [C.Selected(Some(key))], Choose(w, c, key))
  {
    ReachesOne(c, C.Selected(Some(key)), Choose(w, c, key));
  }

  /** A call, and then a conversation chosen. */
  lemma ThenChosen(w: World, c: Client, op: C.Op, c1: Client, c2: Client, key: string)
    requires Reaches(c, [op], c1) && c2.model == c1.model && c2.events == c1.events
    ensures Reaches(c, [op, C.Selected(Some(key))], Choose(w, c2, key))
  {
    ChooseIsCall(w, c2, key);
    SameStart(c1, c2, [C.Selected(Some(key))], Choose(w, c2, key));
    ReachesOn(c, [op], c1, [C.Selected(Some(key))], Choose(w, c2, key));
    assert [op] + [C.Selected(Some(key))] == [op, C.Selected(Some(key))];
  }

  lemma RoomStateIsCalls(w: World, c: Client, room: string, members: set<string>) returns (ops: seq<C.Op>)
    ensures Reaches(c, ops, RoomStateArrived(w, c, room, members))
  {
    if room == "" {
      ops := [];
      ReachesNone(c, c);
    } else {
      var c1 := Tell(c, C.SetRoomMembers(c.model, room, members));
      ReachesOne(c, C.RoomIs(room, members), c1);
      if c.pendingRoom.Some? && c.pendingRoom.value.0 == room && c.model.username.Some? && c.model.username.value in members {
        ThenChosen(w, c, C.RoomIs(room, members), c1, c1.(pendingRoom := None), room);
        ops := [C.RoomIs(room, members), C.Selected(Some(room))];
      } else {
        ops := [C.RoomIs(room, members)];
      }
    }
  }

  lemma ContactsAreCalls(w: World, c: Client, contacts: map<string, bool>) returns (ops: seq<C.Op>)
    ensures Reaches(c, ops, ContactsArrived(w, c, contacts))
  {
    var c1 := Tell(c, C.ReplaceContacts(c.model, contacts));
    ReachesOne(c, C.Contacts(contacts), c1);
    if c.pendingUser.Some? && c.pendingUser.value in c1.model.contacts {
      ThenChosen(w, c, C.Contacts(contacts), c1, c1.(pendingUser := None), c.pendingUser.value);
      ops := [C.Contacts(contacts), C.Selected(Some(c.pendingUser.value))];
    } else {
      ops := [C.Contacts(contacts)];
    }
  }

  lemma LoginIsCalls(c: Client, user: string, roster: set<string>, contacts: map<string, bool>) returns (ops: seq<C.Op>)
    ensures Reaches(c, ops, LoggedIn(c, user, roster, contacts))
  {
    var c1 := if user == "" then c else Tell(c, C.SetIdentity(c.model, user));
    var c2 := Tell(c1, C.ReplaceRoster(c1.model, roster));
    var c3 := Tell(c2, C.ReplaceContacts(c2.model, contacts));
    var named := if user == "" then [] else [C.Identify(user)];
    if user == "" { ReachesNone(c, c1); } else { ReachesOne(c, C.Identify(user), c1); }
    ReachesOne(c1, C.Roster(roster), c2);
    ReachesOne(c2, C.Contacts(contacts), c3);
    ReachesOn(c, named, c1, [C.Roster(roster)], c2);
    ReachesOn(c, named + [C.Roster(roster)], c2, [C.Contacts(contacts)], c3);
    ops := named + [C.Roster(roster)] + [C.Contacts(contacts)];
  }

  lemma HintIsCalls(c: Client, f: H.Frame) returns (ops: seq<C.Op>)
    ensures Reaches(c, ops, Tell(c, ModelHears(c.model, f)))
  {
    ops := match f
      case Presence(user, online) => if user == "" then [] else [C.Present(user, online)]
      case TypingFrom(sender, to, on) =>
        if sender == "" then [] else [C.Typed(if IsRoom(to) then to else sender, sender, on)]
      case ReceiptFrom(sender, _, ref, state) =>
        if ref == "" || sender == "" then [] else [C.Receipt(sender, ref, LabelName(state))]
      case _ => [];
    var c' := Tell(c, ModelHears(c.model, f));
    if ops != [] {
      ReachesOne(c, ops[0], c');
    } else {
      assert c.events + [] == c.events;
      ReachesNone(c, c');
    }
  }

  lemma HistoryIsCalls(w: World, c: Client, key: string, entries: seq<H.Entry>) returns (ops: seq<C.Op>)
    ensures Reaches(c, ops, HistoryArrived(w, c, key, entries))
  {
    if key == "" {
      ops := [];
      ReachesNone(c, c);
    } else {
      var messages := seq(|entries|, i requires 0 <= i < |entries| => StoredMessage(w, c, entries[i], key));
      var c1 := c.(ring := HistoryArrived(w, c, key, entries).ring);
      HistoryTells(w, c, key, entries, messages);
      ops := [C.Loaded(key, messages)];
      ReachesOne(c1, ops[0], HistoryArrived(w, c, key, entries));
      SameStart(c, c1, ops, HistoryArrived(w, c, key, entries));
    }
  }

  lemma HistoryTells(w: World, c: Client, key: string, entries: seq<H.Entry>, messages: seq<C.Message>)
    requires key != "" && messages == seq(|entries|, i requires 0 <= i < |entries| => StoredMessage(w, c, entries[i], key))
    ensures var c', out := HistoryArrived(w, c, key, entries), C.LoadHistory(c.model, key, messages);
      c'.model == out.model && c'.events == c.events + out.events
  {}

  lemma MessageIsCalls(w: World, c: Client, f: Mail) returns (ops: seq<C.Op>)
    ensures Reaches(c, ops, IncomingMessage(w, c, f))
  {
    if Attribution(f) == "" || MustWait(c, f) {
      ops := [];
      ReachesNone(c, IncomingMessage(w, c, f));
    } else {
      var op := FileIsCall(w, c, f, Attribution(f));
      ops := [op];
    }
  }

  lemma ErrorIsCalls(c: Client, code: H.Code) returns (ops: seq<C.Op>)
    ensures Reaches(c, ops, ErrorArrived(c, code))
  {
    var c1 := Corrected(c, code);
    ops := [C.Refused(CodeName(code))];
    ReachesOne(c1, ops[0], Raise(c1, CodeName(code)));
    SameStart(c, c1, ops, ErrorArrived(c, code));
  }

  lemma FrameIsCalls(w: World, c: Client, f: H.Frame) returns (ops: seq<C.Op>)
    ensures Reaches(c, ops, OnFrame(w, c, f))
  {
    OnFrameIs(w, c, f);
    match f
    case Msg(_, _, _, _, _, _) => ops := MessageIsCalls(w, c, f);
    case KeyIs(user, pubkey) => ops := KeyIsCalls(w, c, user, pubkey);
    case HistoryResult(room, entries) => ops := HistoryIsCalls(w, c, room, entries);
    case ContactList(contacts) => ops := ContactsAreCalls(w, c, contacts);
    case RoomState(room, members) => ops := RoomStateIsCalls(w, c, room, members);
    case LoginOk(user, roster, contacts, _) => ops := LoginIsCalls(c, user, roster, contacts);
    case Error(code) => ops := ErrorIsCalls(c, code);
    case _ => ops := HintIsCalls(c, f);
  }

  lemma ChatIsCalls(w: World, c: Client, name: string) returns (ops: seq<C.Op>)
    ensures Reaches(c, ops, OpenChat(w, c, name))
  {
    var user := Strip(name);
    if user == "" || IsRoom(user) {
      ops := [];
      ReachesNone(c, OpenChat(w, c, name));
    } else if c.model.username == Some(user) {
      ops := [C.Refused("BAD_CONTACT")];
      ReachesOne(c, ops[0], Raise(c, "BAD_CONTACT"));
    } else if user in c.model.contacts || user in c.model.roster {
      ops := [C.Selected(Some(user))];
      ChooseIsCall(w, c, user);
    } else {
      ops := [];
      ReachesNone(c, OpenChat(w, c, name));
    }
  }

  lemma GestureIsCalls(w: World, c: Client, s: Step) returns (ops: seq<C.Op>)
    requires !s.Hear? && !s.Type? && !s.Chat?
    ensures Reaches(c, ops, Next(w, c, s))
  {
    if s.State? {
      ops := [C.ConnectionIs(s.state)];
      ReachesOne(c, ops[0], Next(w, c, s));
    } else if s.Open? {
      ChooseIsCall(w, c, s.key);
      ops := [C.Selected(Some(s.key))];
    } else {
      ops := [];
      ReachesNone(c, Next(w, c, s));
    }
  }

  lemma TypingIsCalls(w: World, c: Client, text: string) returns (ops: seq<C.Op>)
    ensures Reaches(c, ops, Send(w, c, text))
  {
    var c' := Send(w, c, text);
    SendModel(w, c, text);
    if c'.model == c.model && c'.events == c.events {
      ops := [];
      ReachesNone(c, c');
    } else {
      ops := [C.Added(c.model.active.value, OwnMessage(w, c, text))];
      ReachesOne(c, ops[0], c');
    }
  }

  lemma StepIsCalls(w: World, c: Client, s: Step) returns (ops: seq<C.Op>)
    ensures Reaches(c, ops, Next(w, c, s))
  {
    if s.Type? { ops := TypingIsCalls(w, c, s.text); }
    else if s.Hear? { ops := FrameIsCalls(w, c, s.frame); }
    else if s.Chat? { ops := ChatIsCalls(w, c, s.user); }
    else { ops := GestureIsCalls(w, c, s); }
  }

  lemma {:induction false} EveryRunIsCalls(w: World, sealing: bool, identity: Identity, steps: seq<Step>) returns (ops: seq<C.Op>)
    ensures Reaches(NewClient(sealing, identity), ops, Run(w, NewClient(sealing, identity), steps))
  {
    var c0 := NewClient(sealing, identity);
    if steps == [] {
      ops := [];
      ReachesNone(c0, c0);
    } else {
      var front, s := steps[..|steps| - 1], steps[|steps| - 1];
      var before := EveryRunIsCalls(w, sealing, identity, front);
      var c := Run(w, c0, front);
      var last := StepIsCalls(w, c, s);
      ReachesOn(c0, before, c, last, Next(w, c, s));
      ops := before + last;
    }
  }

  /** A view that was told exactly this client's events shows its model, and what is on
      screen is read. */
  ghost predicate IsSeen(c: Client) {
    var view := Views.Watch(Views.NEW_VIEW, c.events);
    && Views.Agrees(view, c.model) && view.active == c.model.active
    && (c.model.active.Some? ==> C.Unread(c.model, c.model.active.value) == 0)
  }

  lemma CallsAreSeen(c0: Client, ops: seq<C.Op>, c: Client)
    requires c0.model == C.NEW_MODEL && c0.events == [] && Reaches(c0, ops, c)
    ensures IsSeen(c)
  {
    Views.ViewsLiveOnEvents(ops);
    assert [] + C.Run(C.NEW_MODEL, ops).events == C.Run(C.NEW_MODEL, ops).events;
  }

  /** In every controller run, releases included, folding exactly the events the model
      emitted reproduces its unread counts, typing sets, room members, connection state
      and active conversation, and what is on screen has nothing unread. */
  lemma EveryRunIsSeen(w: World, sealing: bool, identity: Identity, steps: seq<Step>)
    ensures IsSeen(Run(w, NewClient(sealing, identity), steps))
  {
    var ops := EveryRunIsCalls(w, sealing, identity, steps);
    CallsAreSeen(NewClient(sealing, identity), ops, Run(w, NewClient(sealing, identity), steps));
  }

  // ------------------------------------------------------- what comes on screen

  lemma {:induction false} SendEachStays(w: World, c: Client, texts: seq<string>)
    ensures SendEach(w, c, texts).model.active == c.model.active
    decreases |texts|
  {
    if texts != [] {
      SendStays(w, c, texts[0]);
      SendEachStays(w, Send(w, c, texts[0]), texts[1..]);
    }
  }

  lemma SendStays(w: World, c: Client, text: string)
    ensures Send(w, c, text).model.active == c.model.active && Send(w, c, text).model.contacts == c.model.contacts
  {
    SendModel(w, c, text);
  }

  lemma {:induction false} FileEachStays(w: World, c: Client, frames: seq<Mail>, user: string)
    ensures FileEach(w, c, frames, user).model.active == c.model.active
    decreases |frames|
  {
    if frames != [] {
      FileEachStays(w, File(w, c, frames[0], if IsRoom(frames[0].to) then frames[0].to else user), frames[1..], user);
    }
  }

  lemma {:induction false} RoomsStay(w: World, c: Client, rooms: seq<string>)
    ensures ReleaseRooms(w, c, rooms).model.active == c.model.active
    decreases |rooms|
  {
    if rooms != [] {
      if Missing(c.ring, OtherMembers(c, rooms[0])) == {} {
        RoomsStay(w, Release(w, c, rooms[0]), rooms[1..]);
      } else {
        RoomsStay(w, c, rooms[1..]);
      }
    }
  }

  lemma KeyStays(w: World, c: Client, user: string, pubkey: PublicKey)
    ensures KeyArrived(w, c, user, pubkey).model.active == c.model.active
  {
    if user != "" && c.sealing {
      var c1 := Release(w, c.(ring := Remember(c.ring, user, pubkey)), user);
      var c2 := DeliverAwaiting(w, c1, user);
      FileEachStays(w, c1.(awaiting := c1.awaiting - {user}), AwaitingFrom(c1, user), user);
      RoomsStay(w, c2, w.order(|c2.wire|, HeldRooms(c2)));
    }
  }

  /** What may be on screen after a step: what was; what the user chose; somebody known;
      or a room that was asked for and that we are in. */
  ghost predicate Confirmed(c: Client, s: Step, m: C.Model) {
    || m.active == c.model.active
    || (m.active.Some? && var key := m.active.value;
        || (s.Open? && key == s.key)
        || key in m.contacts || key in m.roster
        || (c.pendingRoom.Some? && c.pendingRoom.value.0 == key
            && m.username.Some? && m.username.value in C.RoomMembers(m, key)))
  }

  /** A conversation asked for opens only once the server agreed: no chat for a name
      nobody registered, no room we are not in. */
  lemma OnlyConfirmedChatsOpen(w: World, c: Client, s: Step)
    ensures Confirmed(c, s, Next(w, c, s).model)
  {
    match s
    case Type(text) => SendStays(w, c, text);
    case Hear(f) => FrameConfirms(w, c, s, f);
    case _ =>
  }

  lemma FrameConfirms(w: World, c: Client, s: Step, f: H.Frame)
    ensures Confirmed(c, s, OnFrame(w, c, f).model)
  {
    if f.KeyIs? {
      KeyStays(w, c, f.user, f.pubkey);
    } else if f.Msg? {
      MessageStays(w, c, f);
    } else if f.RoomState? {
      RoomStateConfirms(w, c, s, f.room, f.members);
    } else if f.ContactList? {
      ContactsConfirm(w, c, s, f.contacts);
    } else {
      OtherFrameStays(w, c, f);
    }
  }

  lemma MessageStays(w: World, c: Client, f: Mail)
    ensures IncomingMessage(w, c, f).model.active == c.model.active
  {}

  lemma OtherFrameStays(w: World, c: Client, f: H.Frame)
    requires !f.KeyIs? && !f.Msg? && !f.RoomState? && !f.ContactList?
    ensures OnFrame(w, c, f).model.active == c.model.active
  {
    if !f.HistoryResult? && !f.LoginOk? && !f.Error? { HintStays(c.model, f); }
  }

  lemma HintStays(m: C.Model, f: H.Frame)
    ensures ModelHears(m, f).model.active == m.active
  {}

  /** Choosing puts a conversation on screen and leaves people and rooms alone. */
  lemma ChosenIs(w: World, c: Client, key: string)
    ensures var m := Choose(w, c, key).model;
      m.active == Some(key) && m.username == c.model.username && m.rooms == c.model.rooms && m.contacts == c.model.contacts
  {}

  lemma RoomStateConfirms(w: World, c: Client, s: Step, room: string, members: set<string>)
    ensures Confirmed(c, s, RoomStateArrived(w, c, room, members).model)
  {
    var c1 := Tell(c, C.SetRoomMembers(c.model, room, members));
    assert C.RoomMembers(c1.model, room) == members && c1.model.active == c.model.active && c1.model.username == c.model.username;
    ChosenIs(w, c1.(pendingRoom := None), room);
  }

  lemma ContactsConfirm(w: World, c: Client, s: Step, contacts: map<string, bool>)
    ensures Confirmed(c, s, ContactsArrived(w, c, contacts).model)
  {
    var c1 := Tell(c, C.ReplaceContacts(c.model, contacts));
    assert c1.model.active == c.model.active;
    if c.pendingUser.Some? { ChosenIs(w, c1.(pendingUser := None), c.pendingUser.value); }
  }
}
