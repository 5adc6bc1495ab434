/** Who the client is, which rooms it knows, how it is connected and which conversation is
    on screen, told from the steps of a run. */
module Stage {
  import opened Text
  import opened Crypto
  import opened Keyrings
  import opened Controller
  import C = ChatModel
  import H = Hub
  import V = ControllerViews
  import Outgoing
  import O = Outbound
  import I = Inbound
  import S = Conversations

  datatype Stage = Stage(username: Option<string>, rooms: map<string, set<string>>, connection: string, active: Option<string>)

  function StageOf(m: C.Model): Stage {
    Stage(m.username, m.rooms, m.connectionState, m.active)
  }

  /** The stage after a step: a login gives the name, a membership heard gives the room, and
      a conversation chosen or confirmed comes on screen. */
  function NextStage(c: Client, s: Step): Stage {
    var st := StageOf(c.model);
    var shown := if Outgoing.Chosen(c, s).Some? then st.(active := Outgoing.Chosen(c, s)) else st;
    match s
    case Hear(LoginOk(user, _, _, _)) => if user == "" then shown else shown.(username := Some(user))
    case Hear(RoomState(room, members)) => if room == "" then shown else shown.(rooms := shown.rooms[room := members])
    case State(state) => shown.(connection := state)
    case _ => shown
  }

  lemma AddKeepsStage(m: C.Model, key: string, x: C.Message)
    ensures StageOf(C.AddMessage(m, key, x).model) == StageOf(m)
  {}

  lemma SendKeepsStage(w: World, c: Client, text: string)
    ensures StageOf(Send(w, c, text).model) == StageOf(c.model)
  {
    V.SendModel(w, c, text);
    if c.model.active.Some? { AddKeepsStage(c.model, c.model.active.value, OwnMessage(w, c, text)); }
  }

  lemma {:induction false} EachKeepsStage(w: World, c: Client, texts: seq<string>)
    ensures StageOf(SendEach(w, c, texts).model) == StageOf(c.model)
    decreases |texts|
  {
    if texts != [] {
      SendKeepsStage(w, c, texts[0]);
      EachKeepsStage(w, Send(w, c, texts[0]), texts[1..]);
    }
  }

  lemma ReleaseKeepsStage(w: World, c: Client, target: string)
    ensures StageOf(Release(w, c, target).model) == StageOf(c.model)
  {
    EachKeepsStage(w, OnScreen(c.(held := c.held - {target}), Some(target)), HeldFor(c, target));
  }

  lemma {:induction false} RoomsKeepStage(w: World, c: Client, rooms: seq<string>)
    ensures StageOf(ReleaseRooms(w, c, rooms).model) == StageOf(c.model)
    decreases |rooms|
  {
    if rooms != [] {
      ReleaseKeepsStage(w, c, rooms[0]);
      if Missing(c.ring, OtherMembers(c, rooms[0])) == {} { RoomsKeepStage(w, Release(w, c, rooms[0]), rooms[1..]); }
      else { RoomsKeepStage(w, c, rooms[1..]); }
    }
  }

  lemma FileKeepsStage(w: World, c: Client, f: Mail, key: string)
    ensures StageOf(File(w, c, f, key).model) == StageOf(c.model)
  {}

  lemma {:induction false} FileEachKeepsStage(w: World, c: Client, frames: seq<Mail>, user: string)
    ensures StageOf(FileEach(w, c, frames, user).model) == StageOf(c.model)
    decreases |frames|
  {
    if frames != [] {
      var k := if IsRoom(frames[0].to) then frames[0].to else user;
      FileKeepsStage(w, c, frames[0], k);
      FileEachKeepsStage(w, File(w, c, frames[0], k), frames[1..], user);
    }
  }

  lemma KeyKeepsStage(w: World, c: Client, user: string, pubkey: PublicKey)
    ensures StageOf(KeyArrived(w, c, user, pubkey).model) == StageOf(c.model)
  {
    if user != "" && c.sealing {
      var c0 := c.(ring := Remember(c.ring, user, pubkey));
      var c1 := Release(w, c0, user);
      var c2 := DeliverAwaiting(w, c1, user);
      ReleaseKeepsStage(w, c0, user);
      FileEachKeepsStage(w, c1.(awaiting := c1.awaiting - {user}), AwaitingFrom(c1, user), user);
      RoomsKeepStage(w, c2, w.order(|c2.wire|, HeldRooms(c2)));
    }
  }

  lemma MessageKeepsStage(w: World, c: Client, f: Mail)
    ensures StageOf(IncomingMessage(w, c, f).model) == StageOf(c.model)
  {
    if Attribution(f) != "" && !MustWait(c, f) { FileKeepsStage(w, c, f, Attribution(f)); }
  }

  lemma ChoosingStages(w: World, c: Client, key: string)
    ensures StageOf(Choose(w, c, key).model) == StageOf(c.model).(active := Some(key))
  {}

  lemma ChatStages(w: World, c: Client, name: string)
    ensures StageOf(OpenChat(w, c, name).model) == NextStage(c, Chat(name))
  {
    ChoosingStages(w, c, Strip(name));
    AskKeepsModel(c, Strip(name), []);
    assert Raise(c, "BAD_CONTACT").model == c.model;
  }

  lemma AskKeepsModel(c: Client, room: string, members: seq<string>)
    ensures OpenRoom(c, room, members).model == c.model
  {}

  lemma RoomStages(w: World, c: Client, room: string, members: set<string>)
    ensures StageOf(RoomStateArrived(w, c, room, members).model) == NextStage(c, Hear(H.RoomState(room, members)))
  {
    var c1 := Tell(c, C.SetRoomMembers(c.model, room, members));
    RoomIsSet(c.model, room, members);
    ChoosingStages(w, c1.(pendingRoom := None), room);
  }

  lemma RoomIsSet(m: C.Model, room: string, members: set<string>)
    ensures StageOf(C.SetRoomMembers(m, room, members).model) == StageOf(m).(rooms := m.rooms[room := members])
  {
    if room in m.rooms && m.rooms[room] == members { assert m.rooms[room := members] == m.rooms; }
  }

  lemma ContactsStage(w: World, c: Client, contacts: map<string, bool>)
    ensures StageOf(ContactsArrived(w, c, contacts).model) == NextStage(c, Hear(H.ContactList(contacts)))
  {
    var c1 := Tell(c, C.ReplaceContacts(c.model, contacts));
    assert c1.model.contacts == C.Named(contacts) && StageOf(c1.model) == StageOf(c.model);
    if c.pendingUser.Some? { ChoosingStages(w, c1.(pendingUser := None), c.pendingUser.value); }
  }

  lemma LoginStages(c: Client, user: string, roster: set<string>, contacts: map<string, bool>)
    ensures StageOf(LoggedIn(c, user, roster, contacts).model)
         == if user == "" then StageOf(c.model) else StageOf(c.model).(username := Some(user))
  {}

  lemma HintKeepsStage(m: C.Model, f: H.Frame)
    ensures StageOf(ModelHears(m, f).model) == StageOf(m)
  {}

  lemma HistoryKeepsStage(w: World, c: Client, key: string, entries: seq<H.Entry>)
    ensures StageOf(HistoryArrived(w, c, key, entries).model) == StageOf(c.model)
  {}

  lemma FrameStages(w: World, c: Client, f: H.Frame)
    ensures StageOf(OnFrame(w, c, f).model) == NextStage(c, Hear(f))
  {
    OnFrameIs(w, c, f);
    if f.Msg? { MessageKeepsStage(w, c, f); }
    else if f.KeyIs? { KeyKeepsStage(w, c, f.user, f.pubkey); }
    else if f.RoomState? { RoomStages(w, c, f.room, f.members); }
    else if f.ContactList? { ContactsStage(w, c, f.contacts); }
    else if f.LoginOk? { LoginStages(c, f.user, f.roster, f.contacts); }
    else if f.Error? { S.ErrorKeepsModel(c, f.code); }
    else if f.HistoryResult? { HistoryKeepsStage(w, c, f.room, f.entries); }
    else { HintKeepsStage(c.model, f); }
  }

  lemma StepStages(w: World, c: Client, s: Step)
    ensures StageOf(Next(w, c, s).model) == NextStage(c, s)
  {
    match s
    case Type(text) => SendKeepsStage(w, c, text);
    case Open(key) => ChoosingStages(w, c, key);
    case Chat(name) => ChatStages(w, c, name);
    case Room(room, members) => AskKeepsModel(c, room, members);
    case Pass(_) =>
    case Hear(f) => FrameStages(w, c, f);
    case State(_) =>
  }

  // ------------------------------------------------------------------- every run

  /** The name of the last login heard. */
  function NameHeard(steps: seq<Step>): Option<string> {
    if steps == [] then None else
      var s := steps[|steps| - 1];
      if s.Hear? && s.frame.LoginOk? && s.frame.user != "" then Some(s.frame.user) else NameHeard(steps[..|steps| - 1])
  }

  /** The members of a room as last heard. */
  function MembersHeard(steps: seq<Step>, room: string): Option<set<string>> {
    if steps == [] then None else
      var s := steps[|steps| - 1];
      if s.Hear? && s.frame.RoomState? && s.frame.room == room && room != "" then Some(s.frame.members)
      else MembersHeard(steps[..|steps| - 1], room)
  }

  function ConnectionSaid(steps: seq<Step>): string {
    if steps == [] then "DISCONNECTED"
    else if steps[|steps| - 1].State? then steps[|steps| - 1].state
    else ConnectionSaid(steps[..|steps| - 1])
  }

  /** The conversation last chosen, or opened because what was asked for is now there. */
  function LastChosen(w: World, c0: Client, steps: seq<Step>): Option<string> {
    if steps == [] then None else
      var front := steps[..|steps| - 1];
      var chosen := Outgoing.Chosen(Run(w, c0, front), steps[|steps| - 1]);
      if chosen.Some? then chosen else LastChosen(w, c0, front)
  }

  /** Over every run: one goes by the name last logged in under, knows of each room the
      membership last heard, shows the connection as last reported, and has on screen what
      was last chosen or confirmed. */
  lemma {:induction false} StageIsAsTold(w: World, sealing: bool, identity: Identity, steps: seq<Step>, room: string)
    ensures var c0 := NewClient(sealing, identity);
      var m := Run(w, c0, steps).model;
      && m.username == NameHeard(steps) && m.connectionState == ConnectionSaid(steps) && m.active == LastChosen(w, c0, steps)
      && (room in m.rooms <==> MembersHeard(steps, room).Some?)
      && (room in m.rooms ==> MembersHeard(steps, room) == Some(m.rooms[room]))
  {
    if steps != [] {
      var front, s := steps[..|steps| - 1], steps[|steps| - 1];
      StageIsAsTold(w, sealing, identity, front, room);
      StepStages(w, Run(w, NewClient(sealing, identity), front), s);
    }
  }

  // ------------------------------------------------------------------------ keys

  /** The key last heard for a person. */
  function KeyHeard(steps: seq<Step>, user: string): Option<PublicKey> {
    if steps == [] then None else
      var s := steps[|steps| - 1];
      if s.Hear? && s.frame.KeyIs? && s.frame.user == user && user != "" then Some(s.frame.pubkey)
      else KeyHeard(steps[..|steps| - 1], user)
  }

  /** The ring holds the key last heard for a person; and of a person whose name it never
      took for the client's own, no other. */
  ghost predicate HoldsKey(ring: Ring, heard: Option<PublicKey>, user: string, mine: bool) {
    && (heard.Some? ==> user in ring.pubkeys && ring.pubkeys[user] == heard.value)
    && (heard.None? && user in ring.pubkeys ==> mine)
  }

  /** The name was the ring's own at some moment of the run. */
  ghost predicate WasOwn(w: World, c0: Client, steps: seq<Step>, user: string) {
    exists k | 0 <= k <= |steps| :: Run(w, c0, steps[..k]).ring.me == user
  }

  lemma OwnOn(w: World, c0: Client, steps: seq<Step>, user: string)
    requires steps != []
    ensures WasOwn(w, c0, steps[..|steps| - 1], user) ==> WasOwn(w, c0, steps, user)
    ensures Run(w, c0, steps).ring.me == user ==> WasOwn(w, c0, steps, user)
    ensures Run(w, c0, steps[..|steps| - 1]).ring.me == user ==> WasOwn(w, c0, steps, user)
  {
    var front := steps[..|steps| - 1];
    if k :| 0 <= k <= |front| && Run(w, c0, front[..k]).ring.me == user { assert front[..k] == steps[..k]; }
    assert steps[..|steps|] == steps && steps[..|front|] == front;
  }

  lemma RingStep(w: World, c: Client, s: Step, heard: Option<PublicKey>, user: string, mine: bool)
    requires c.sealing && S.Sound(c) && HoldsKey(c.ring, heard, user, mine)
    requires c.ring.me == user || Next(w, c, s).ring.me == user ==> mine
    ensures HoldsKey(Next(w, c, s).ring,
                     if s.Hear? && s.frame.KeyIs? && s.frame.user == user && user != "" then Some(s.frame.pubkey) else heard, user, mine)
  {
    if s.Hear? && s.frame.KeyIs? && s.frame.user != "" {
      OnFrameIs(w, c, s.frame);
      O.KeyIsWhole(w, c, s.frame.user, s.frame.pubkey);
    } else {
      I.OwnStep(w, c, s);
    }
  }

  /** Over every run of a client with a keyring, the ring holds for each person the key
      last heard; and no key that was not heard, but for a name it took for its own. */
  lemma {:induction false} KeysAreHeard(w: World, identity: Identity, steps: seq<Step>, user: string)
    ensures var c0 := NewClient(true, identity);
      HoldsKey(Run(w, c0, steps).ring, KeyHeard(steps, user), user, WasOwn(w, c0, steps, user))
  {
    var c0 := NewClient(true, identity);
    if steps != [] {
      var front, s := steps[..|steps| - 1], steps[|steps| - 1];
      KeysAreHeard(w, identity, front, user);
      S.EveryClientIsSound(w, true, identity, front);
      OwnOn(w, c0, steps, user);
      RingStep(w, Run(w, c0, front), s, KeyHeard(front, user), user, WasOwn(w, c0, steps, user));
    }
  }
}
