/** What a client sends besides messages: which receipts, and whose keys it asks for. */
module Outgoing {
  import opened Text
  import opened Crypto
  import opened Messages
  import opened Keyrings
  import opened Controller
  import opened Conversations
  import C = ChatModel
  import H = Hub
  import O = Outbound
  import I = Inbound

  // -------------------------------------------------------------------- receipts

  /** The receipts among some requests: for which message, and what they say. */
  function ReportsIn(wire: seq<H.Request>): seq<(string, Label)> {
    if wire == [] then [] else
      var front, r := ReportsIn(wire[..|wire| - 1]), wire[|wire| - 1];
      if r.Receipt? then front + [(r.ref, r.state)] else front
  }

  lemma {:induction false} ReportsMore(a: seq<H.Request>, b: seq<H.Request>)
    ensures ReportsIn(a + b) == ReportsIn(a) + ReportsIn(b)
  {
    if b == [] {
      assert a + b == a;
    } else {
      assert (a + b)[..|a + b| - 1] == a + b[..|b| - 1];
      ReportsMore(a, b[..|b| - 1]);
    }
  }

  lemma {:induction false} NoReports(more: seq<H.Request>)
    requires forall i | 0 <= i < |more| :: !more[i].Receipt?
    ensures ReportsIn(more) == []
  {
    if more != [] { NoReports(more[..|more| - 1]); }
  }

  /** The requests that are about neither messages, receipts nor keys. */
  function AsksIn(wire: seq<H.Request>): seq<H.Request> {
    if wire == [] then [] else
      var front, r := AsksIn(wire[..|wire| - 1]), wire[|wire| - 1];
      if r.Send? || r.Receipt? || r.GetKey? then front else front + [r]
  }

  lemma {:induction false} AsksMore(a: seq<H.Request>, b: seq<H.Request>)
    ensures AsksIn(a + b) == AsksIn(a) + AsksIn(b)
  {
    if b == [] {
      assert a + b == a;
    } else {
      assert (a + b)[..|a + b| - 1] == a + b[..|b| - 1];
      AsksMore(a, b[..|b| - 1]);
    }
  }

  lemma {:induction false} NoAsks(more: seq<H.Request>)
    requires forall i | 0 <= i < |more| :: more[i].Send? || more[i].Receipt? || more[i].GetKey?
    ensures AsksIn(more) == []
  {
    if more != [] { NoAsks(more[..|more| - 1]); }
  }

  /** Nothing goes out but messages and requests for keys. */
  ghost predicate MailOnly(c: Client, c': Client) {
    c.wire <= c'.wire && forall i | |c.wire| <= i < |c'.wire| :: c'.wire[i].Send? || c'.wire[i].GetKey?
  }

  lemma MailOnlyOn(a: Client, b: Client, c: Client)
    requires MailOnly(a, b) && MailOnly(b, c)
    ensures MailOnly(a, c)
  {
    forall i | |a.wire| <= i < |c.wire| ensures c.wire[i].Send? || c.wire[i].GetKey? {
      if i < |b.wire| { assert c.wire[i] == b.wire[i]; }
    }
  }

  lemma MailOnlyIs(c: Client, c': Client)
    requires MailOnly(c, c')
    ensures ReportsIn(c'.wire) == ReportsIn(c.wire) && AsksIn(c'.wire) == AsksIn(c.wire)
  {
    var more := c'.wire[|c.wire|..];
    assert c'.wire == c.wire + more;
    ReportsMore(c.wire, more);
    NoReports(more);
    AsksMore(c.wire, more);
    NoAsks(more);
  }

  /** What goes out holds no receipt. */
  ghost predicate Unreporting(c: Client, c': Client) {
    c.wire <= c'.wire && forall i | |c.wire| <= i < |c'.wire| :: !c'.wire[i].Receipt?
  }

  lemma UnreportingIs(c: Client, c': Client)
    requires Unreporting(c, c')
    ensures ReportsIn(c'.wire) == ReportsIn(c.wire)
  {
    var more := c'.wire[|c.wire|..];
    assert c'.wire == c.wire + more;
    ReportsMore(c.wire, more);
    NoReports(more);
  }

  lemma SendsMailOnly(w: World, c: Client, text: string)
    ensures MailOnly(c, Send(w, c, text))
  {
    if c.model.active.Some? && !IsBlank(text) && c.sealing {
      if IsRoom(c.model.active.value) { RoomMailOnly(w, c, c.model.active.value, text); }
      else { PersonMailOnly(w, c, c.model.active.value, text); }
    }
  }

  lemma PersonMailOnly(w: World, c: Client, target: string, text: string)
    ensures MailOnly(c, SendToPerson(w, c, target, text))
  {}

  lemma RoomMailOnly(w: World, c: Client, room: string, text: string)
    ensures MailOnly(c, SendToRoom(w, c, room, text))
  {}

  lemma {:induction false} EachMailOnly(w: World, c: Client, texts: seq<string>)
    ensures MailOnly(c, SendEach(w, c, texts))
    decreases |texts|
  {
    if texts != [] {
      SendsMailOnly(w, c, texts[0]);
      EachMailOnly(w, Send(w, c, texts[0]), texts[1..]);
      MailOnlyOn(c, Send(w, c, texts[0]), SendEach(w, Send(w, c, texts[0]), texts[1..]));
    }
  }

  lemma ReleaseMailOnly(w: World, c: Client, target: string)
    ensures MailOnly(c, Release(w, c, target))
  {
    var waiting := HeldFor(c, target);
    if waiting != [] { EachMailOnly(w, OnScreen(c.(held := c.held - {target}), Some(target)), waiting); }
  }

  lemma {:induction false} RoomsMailOnly(w: World, c: Client, rooms: seq<string>)
    ensures MailOnly(c, ReleaseRooms(w, c, rooms))
    decreases |rooms|
  {
    if rooms != [] {
      if Missing(c.ring, OtherMembers(c, rooms[0])) == {} {
        ReleaseMailOnly(w, c, rooms[0]);
        RoomsMailOnly(w, Release(w, c, rooms[0]), rooms[1..]);
        MailOnlyOn(c, Release(w, c, rooms[0]), ReleaseRooms(w, Release(w, c, rooms[0]), rooms[1..]));
      } else {
        RoomsMailOnly(w, c, rooms[1..]);
      }
    }
  }

  /** A message whose arrival is reported: one from a person, not to a room. */
  predicate Acknowledged(f: Mail) {
    f.sender != "" && !IsRoom(f.to) && !IsRoom(f.sender)
  }

  /** One DELIVERED for each message of some that is to be acknowledged, in order. */
  function AcksFor(frames: seq<Mail>): seq<(string, Label)> {
    if frames == [] then [] else
      AcksFor(frames[..|frames| - 1]) + if Acknowledged(frames[|frames| - 1]) then [(frames[|frames| - 1].id, DELIVERED)] else []
  }

  lemma {:induction false} AcksMore(a: seq<Mail>, b: seq<Mail>)
    ensures AcksFor(a + b) == AcksFor(a) + AcksFor(b)
  {
    if b == [] {
      assert a + b == a;
    } else {
      assert (a + b)[..|a + b| - 1] == a + b[..|b| - 1];
      AcksMore(a, b[..|b| - 1]);
    }
  }

  lemma FileReports(w: World, c: Client, f: Mail)
    requires Attribution(f) != ""
    ensures ReportsIn(File(w, c, f, Attribution(f)).wire) == ReportsIn(c.wire) + AcksFor([f])
  {
    assert [f][..0] == [];
    var r := H.Receipt(f.id, DELIVERED, w.now(|c.wire|));
    ReportsMore(c.wire, [r]);
    assert [r][..0] == [];
  }

  lemma {:induction false} FileEachReports(w: World, c: Client, frames: seq<Mail>, user: string)
    requires forall f | f in frames :: PeerOf(f) == user && Attribution(f) != ""
    ensures ReportsIn(FileEach(w, c, frames, user).wire) == ReportsIn(c.wire) + AcksFor(frames)
    decreases |frames|
  {
    if frames != [] {
      var c1 := File(w, c, frames[0], Attribution(frames[0]));
      FirstFiled(w, c, frames, user);
      FileReports(w, c, frames[0]);
      FileEachReports(w, c1, frames[1..], user);
      FirstAck(frames);
      Regroup(ReportsIn(c.wire), AcksFor([frames[0]]), AcksFor(frames[1..]));
    }
  }

  lemma Regroup(a: seq<(string, Label)>, b: seq<(string, Label)>, c: seq<(string, Label)>)
    ensures a + b + c == a + (b + c)
  {}

  lemma FirstFiled(w: World, c: Client, frames: seq<Mail>, user: string)
    requires frames != [] && PeerOf(frames[0]) == user && Attribution(frames[0]) != ""
    ensures FileEach(w, c, frames, user) == FileEach(w, File(w, c, frames[0], Attribution(frames[0])), frames[1..], user)
  {}

  lemma FirstAck(frames: seq<Mail>)
    requires frames != []
    ensures AcksFor(frames) == AcksFor([frames[0]]) + AcksFor(frames[1..])
  {
    assert frames == [frames[0]] + frames[1..];
    AcksMore([frames[0]], frames[1..]);
  }

  lemma KeyReports(w: World, c: Client, user: string, pubkey: PublicKey)
    requires c.sealing && O.HeldAreReal(c) && I.WaitsRight(c) && user != ""
    ensures ReportsIn(KeyArrived(w, c, user, pubkey).wire) == ReportsIn(c.wire) + AcksFor(AwaitingFrom(c, user))
  {
    var c0 := Learned(c, user, pubkey);
    var c1 := Release(w, c0, user);
    var c2 := DeliverAwaiting(w, c1, user);
    var rooms := w.order(|c2.wire|, HeldRooms(c2));
    O.ReleaseIsBatch(w, c0, user);
    ReleaseMailOnly(w, c0, user);
    MailOnlyIs(c0, c1);
    FileEachReports(w, c1.(awaiting := c1.awaiting - {user}), AwaitingFrom(c1, user), user);
    RoomsMailOnly(w, c2, rooms);
    MailOnlyIs(c2, ReleaseRooms(w, c2, rooms));
  }

  lemma MessageReports(w: World, c: Client, f: Mail)
    ensures ReportsIn(IncomingMessage(w, c, f).wire) == ReportsIn(c.wire) + if MustBeKept(c, f) then [] else AcksFor([f])
  {
    KeptIs(c, f);
    assert [f][..0] == [];
    if Attribution(f) == "" || MustWait(c, f) { UnreportingIs(c, IncomingMessage(w, c, f)); } else { FileReports(w, c, f); }
  }

  // --------------------------------------------------------- reading a conversation

  /** One READ for each message of others, in order. */
  function ReadsOf(others: seq<C.Message>): seq<(string, Label)> {
    seq(|others|, i requires 0 <= i < |others| => (others[i].id, READ))
  }

  /** What putting a conversation on screen reports: everything of the other person's, if
      any of it was unread. */
  function ReadsFor(c: Client, key: string): seq<(string, Label)> {
    if IsRoom(key) || C.Unread(c.model, key) == 0 then [] else ReadsOf(Others(Talk(c, key)))
  }

  lemma {:induction false} OthersFirst(x: C.Message, ms: seq<C.Message>)
    ensures Others([x] + ms) == (if x.mine then [] else [Bare(x)]) + Others(ms)
  {
    if ms == [] {
      assert [x] + ms == [x] && [x][..0] == [];
    } else {
      assert ([x] + ms)[..|ms|] == [x] + ms[..|ms| - 1];
      OthersFirst(x, ms[..|ms| - 1]);
    }
  }

  lemma {:induction false} ReadReceiptsAre(w: World, c: Client, ms: seq<C.Message>)
    ensures ReportsIn(ReadReceipts(w, c, ms)) == ReadsOf(Others(ms))
    decreases |ms|
  {
    if ms != [] {
      var x, rest := ms[0], ms[1..];
      assert ms == [x] + rest;
      ReadReceiptsAre(w, c, rest);
      OthersFirst(x, rest);
      var first := if x.mine then [] else [H.Receipt(x.id, READ, w.now(|c.wire|))];
      ReportsMore(first, ReadReceipts(w, c, rest));
      assert first != [] ==> first[..0] == [];
      assert ReadsOf(Others(ms)) == ReadsOf(if x.mine then [] else [Bare(x)]) + ReadsOf(Others(rest));
    }
  }

  lemma ChooseReports(w: World, c: Client, key: string)
    ensures ReportsIn(Choose(w, c, key).wire) == ReportsIn(c.wire) + ReadsFor(c, key)
  {
    var ms := C.ConversationOf(c.model, key).messages;
    ReportsMore(c.wire, ReadReceipts(w, c, ms));
    ReadReceiptsAre(w, c, ms);
    assert ReportsIn(c.wire) + [] == ReportsIn(c.wire);
  }

  /** The conversation a step puts on screen, if it does: the one chosen, a person already
      known, or what was asked for and is now there. */
  function Chosen(c: Client, s: Step): Option<string> {
    match s
    case Open(key) => Some(key)
    case Chat(name) =>
      var user := Strip(name);
      if user != "" && !IsRoom(user) && c.model.username != Some(user) && (user in c.model.contacts || user in c.model.roster)
      then Some(user) else None
    case Hear(RoomState(room, members)) =>
      if room != "" && c.pendingRoom.Some? && c.pendingRoom.value.0 == room && c.model.username.Some? && c.model.username.value in members
      then Some(room) else None
    case Hear(ContactList(contacts)) =>
      if c.pendingUser.Some? && c.pendingUser.value != "" && c.pendingUser.value in contacts then c.pendingUser else None
    case _ => None
  }

  /** The receipts a step sends: DELIVERED for what it shows of a person's direct messages,
      READ for a conversation it puts on screen, and those a gesture asks for. */
  function ReportsNow(c: Client, s: Step): seq<(string, Label)> {
    if s.Hear? && s.frame.Msg? then (if MustBeKept(c, s.frame) then [] else AcksFor([s.frame]))
    else if s.Hear? && s.frame.KeyIs? then
      (if s.frame.user != "" && c.sealing then AcksFor(AwaitingFrom(c, s.frame.user)) else [])
    else if s.Pass? && s.request.Receipt? then [(s.request.ref, s.request.state)]
    else if Chosen(c, s).Some? then ReadsFor(c, Chosen(c, s).value)
    else []
  }

  lemma SameReads(c: Client, c1: Client, key: string)
    requires c1.wire == c.wire && C.ConversationOf(c1.model, key) == C.ConversationOf(c.model, key)
    ensures ReadsFor(c1, key) == ReadsFor(c, key) && ReportsIn(c1.wire) == ReportsIn(c.wire)
  {}

  lemma RoomStateReports(w: World, c: Client, room: string, members: set<string>)
    ensures ReportsIn(RoomStateArrived(w, c, room, members).wire)
         == ReportsIn(c.wire) + ReportsNow(c, Hear(H.RoomState(room, members)))
  {
    var c1 := Tell(c, C.SetRoomMembers(c.model, room, members));
    var c2 := c1.(pendingRoom := None);
    ChooseReports(w, c2, room);
    SameReads(c, c2, room);
  }

  lemma ContactsReport(w: World, c: Client, contacts: map<string, bool>)
    ensures ReportsIn(ContactsArrived(w, c, contacts).wire) == ReportsIn(c.wire) + ReportsNow(c, Hear(H.ContactList(contacts)))
  {
    var c1 := Tell(c, C.ReplaceContacts(c.model, contacts));
    var c2 := c1.(pendingUser := None);
    assert c1.model.contacts == C.Named(contacts);
    if c.pendingUser.Some? {
      ChooseReports(w, c2, c.pendingUser.value);
      SameReads(c, c2, c.pendingUser.value);
    }
  }

  lemma ChatReports(w: World, c: Client, name: string)
    ensures ReportsIn(OpenChat(w, c, name).wire) == ReportsIn(c.wire) + ReportsNow(c, Chat(name))
  {
    var user := Strip(name);
    if Chosen(c, Chat(name)).Some? {
      ChooseReports(w, c, user);
    } else {
      if user != "" && IsRoom(user) { AskUnreporting(c, user, []); }
      UnreportingIs(c, OpenChat(w, c, name));
    }
  }

  lemma AskUnreporting(c: Client, room: string, members: seq<string>)
    ensures Unreporting(c, OpenRoom(c, room, members))
  {}

  lemma ErrorUnreporting(c: Client, code: H.Code)
    ensures Unreporting(c, ErrorArrived(c, code))
  {}

  lemma GestureReports(w: World, c: Client, s: Step)
    requires !s.Hear? && !s.Type? && !s.Chat?
    ensures ReportsIn(Next(w, c, s).wire) == ReportsIn(c.wire) + ReportsNow(c, s)
  {
    match s
    case Open(key) => ChooseReports(w, c, key);
    case Room(room, members) =>
      AskUnreporting(c, room, members);
      UnreportingIs(c, Next(w, c, s));
    case Pass(r) =>
      ReportsMore(c.wire, [r]);
      assert [r][..0] == [];
    case State(_) =>
  }

  lemma FrameReports(w: World, c: Client, f: H.Frame)
    requires Sound(c)
    ensures ReportsIn(OnFrame(w, c, f).wire) == ReportsIn(c.wire) + ReportsNow(c, Hear(f))
  {
    OnFrameIs(w, c, f);
    if f.Msg? {
      MessageReports(w, c, f);
    } else if f.KeyIs? {
      if f.user != "" && c.sealing { KeyReports(w, c, f.user, f.pubkey); }
    } else if f.RoomState? {
      RoomStateReports(w, c, f.room, f.members);
    } else if f.ContactList? {
      ContactsReport(w, c, f.contacts);
    } else if f.Error? {
      ErrorUnreporting(c, f.code);
      UnreportingIs(c, OnFrame(w, c, f));
    } else {
      SilentWire(w, c, f);
    }
  }

  lemma SilentWire(w: World, c: Client, f: H.Frame)
    requires f.HistoryResult? || f.LoginOk? || ForModel(f)
    ensures OnFrame(w, c, f).wire == c.wire
  {}

  lemma StepReports(w: World, c: Client, s: Step)
    requires Sound(c)
    ensures ReportsIn(Next(w, c, s).wire) == ReportsIn(c.wire) + ReportsNow(c, s)
  {
    if s.Type? {
      SendsMailOnly(w, c, s.text);
      MailOnlyIs(c, Next(w, c, s));
    } else if s.Hear? {
      FrameReports(w, c, s.frame);
    } else if s.Chat? {
      ChatReports(w, c, s.user);
    } else {
      GestureReports(w, c, s);
    }
  }

  function ReportsOver(w: World, c0: Client, steps: seq<Step>): seq<(string, Label)> {
    if steps == [] then [] else
      var front := steps[..|steps| - 1];
      ReportsOver(w, c0, front) + ReportsNow(Run(w, c0, front), steps[|steps| - 1])
  }

  /** Over every run the receipts on the connection are exactly those that the steps call
      for, in order. */
  lemma {:induction false} ReceiptsGoOut(w: World, sealing: bool, identity: Identity, steps: seq<Step>)
    ensures var c0 := NewClient(sealing, identity); ReportsIn(Run(w, c0, steps).wire) == ReportsOver(w, c0, steps)
  {
    if steps != [] {
      var front := steps[..|steps| - 1];
      ReceiptsGoOut(w, sealing, identity, front);
      EveryClientIsSound(w, sealing, identity, front);
      StepReports(w, Run(w, NewClient(sealing, identity), front), steps[|steps| - 1]);
    }
  }

  // ------------------------------------------------------------- rooms and people

  /** Entering a room, and bringing others along. */
  function Entering(room: string, members: seq<string>): seq<H.Request> {
    [H.Join(room)] + if members == [] then [] else [H.Invite(room, members)]
  }

  function AskForRoom(c: Client, room: string, members: seq<string>): seq<H.Request> {
    if room in c.model.rooms then Entering(room, members) else [H.CreateRoom(room, members)]
  }

  /** What a step asks of the server about rooms and people: a room is joined if it is known
      and created otherwise, or joined after all when it turns out to exist; a person not
      known yet is added; any other gesture is passed on. */
  function AsksNow(c: Client, s: Step): seq<H.Request> {
    match s
    case Room(room, members) => AskForRoom(c, room, members)
    case Chat(name) =>
      var user := Strip(name);
      if user == "" then []
      else if IsRoom(user) then AskForRoom(c, user, [])
      else if c.model.username == Some(user) || user in c.model.contacts || user in c.model.roster then []
      else [H.AddContact(user)]
    case Hear(Error(code)) =>
      if code == H.ROOM_EXISTS && c.pendingRoom.Some? then Entering(c.pendingRoom.value.0, c.pendingRoom.value.1) else []
    case Pass(r) => if r.Send? || r.Receipt? || r.GetKey? then [] else [r]
    case _ => []
  }

  /** These requests, and no others of their kind. */
  lemma Posted(c: Client, c': Client, more: seq<H.Request>)
    requires c'.wire == c.wire + more
    ensures AsksIn(c'.wire) == AsksIn(c.wire) + AsksIn(more)
  {
    AsksMore(c.wire, more);
  }

  lemma OneAsk(r: H.Request)
    ensures AsksIn([r]) == if r.Send? || r.Receipt? || r.GetKey? then [] else [r]
  {
    assert [r][..0] == [];
  }

  lemma EnteringAsks(room: string, members: seq<string>)
    ensures AsksIn(Entering(room, members)) == Entering(room, members)
  {
    OneAsk(H.Join(room));
    OneAsk(H.Invite(room, members));
    if members != [] { AsksMore([H.Join(room)], [H.Invite(room, members)]); }
    assert members == [] ==> Entering(room, members) == [H.Join(room)];
  }

  lemma JoinPosts(c: Client, room: string, members: seq<string>)
    ensures JoinAndInvite(c, room, members).wire == c.wire + Entering(room, members)
  {}

  lemma RoomAsked(c: Client, room: string, members: seq<string>)
    ensures AsksIn(OpenRoom(c, room, members).wire) == AsksIn(c.wire) + AskForRoom(c, room, members)
  {
    var c1 := c.(pendingRoom := Some((room, members)));
    JoinPosts(c1, room, members);
    Posted(c, OpenRoom(c, room, members), AskForRoom(c, room, members));
    EnteringAsks(room, members);
    OneAsk(H.CreateRoom(room, members));
  }

  lemma ErrorAsks(c: Client, code: H.Code)
    ensures AsksIn(ErrorArrived(c, code).wire) == AsksIn(c.wire) + AsksNow(c, Hear(H.Error(code)))
  {
    ErrorPosts(c, code);
    ErrorRequests(c, code);
    Posted(c, ErrorArrived(c, code), AsksNow(c, Hear(H.Error(code))));
  }

  lemma ErrorRequests(c: Client, code: H.Code)
    ensures var more := AsksNow(c, Hear(H.Error(code))); AsksIn(more) == more
  {
    if code == H.ROOM_EXISTS && c.pendingRoom.Some? { EnteringAsks(c.pendingRoom.value.0, c.pendingRoom.value.1); }
  }

  lemma ErrorPosts(c: Client, code: H.Code)
    ensures ErrorArrived(c, code).wire == c.wire + AsksNow(c, Hear(H.Error(code)))
  {
    CorrectedPosts(c, code);
    RaiseKeepsWire(Corrected(c, code), CodeName(code));
  }

  lemma CorrectedPosts(c: Client, code: H.Code)
    ensures Corrected(c, code).wire == c.wire + AsksNow(c, Hear(H.Error(code)))
  {
    if code == H.ROOM_EXISTS && c.pendingRoom.Some? { JoinPosts(c, c.pendingRoom.value.0, c.pendingRoom.value.1); }
  }

  lemma RaiseKeepsWire(c: Client, code: string)
    ensures Raise(c, code).wire == c.wire
  {}

  lemma {:induction false} ReadsAskNothing(w: World, c: Client, ms: seq<C.Message>)
    ensures forall i | 0 <= i < |ReadReceipts(w, c, ms)| :: ReadReceipts(w, c, ms)[i].Receipt?
    decreases |ms|
  {
    if ms != [] { ReadsAskNothing(w, c, ms[1..]); }
  }

  lemma ChooseAsks(w: World, c: Client, key: string)
    ensures AsksIn(Choose(w, c, key).wire) == AsksIn(c.wire)
  {
    var receipts := ReadReceipts(w, c, C.ConversationOf(c.model, key).messages);
    ReadsAskNothing(w, c, C.ConversationOf(c.model, key).messages);
    AsksMore(c.wire, receipts);
    NoAsks(receipts);
  }

  lemma ChatAsks(w: World, c: Client, name: string)
    ensures AsksIn(OpenChat(w, c, name).wire) == AsksIn(c.wire) + AsksNow(c, Chat(name))
  {
    var user := Strip(name);
    if user != "" && IsRoom(user) {
      RoomAsked(c, user, []);
    } else if user != "" && c.model.username != Some(user) {
      if user in c.model.contacts || user in c.model.roster { ChooseAsks(w, c, user); } else { PersonAsked(c, user); }
    } else {
      RaiseKeepsWire(c, "BAD_CONTACT");
    }
  }

  lemma PersonAsked(c: Client, user: string)
    ensures AsksIn(Post(c.(pendingUser := Some(user)), H.AddContact(user)).wire) == AsksIn(c.wire) + [H.AddContact(user)]
  {
    OneAsk(H.AddContact(user));
    AsksMore(c.wire, [H.AddContact(user)]);
  }

  lemma {:induction false} FileEachAsksNothing(w: World, c: Client, frames: seq<Mail>, user: string)
    ensures AsksIn(FileEach(w, c, frames, user).wire) == AsksIn(c.wire)
    decreases |frames|
  {
    if frames != [] {
      var k := if IsRoom(frames[0].to) then frames[0].to else user;
      FileAsksNothing(w, c, frames[0], k);
      FileEachAsksNothing(w, File(w, c, frames[0], k), frames[1..], user);
    }
  }

  lemma FileAsksNothing(w: World, c: Client, f: Mail, key: string)
    ensures AsksIn(File(w, c, f, key).wire) == AsksIn(c.wire)
  {
    var r := H.Receipt(f.id, DELIVERED, w.now(|c.wire|));
    AsksMore(c.wire, [r]);
    OneAsk(r);
  }

  lemma KeyAsksNothing(w: World, c: Client, user: string, pubkey: PublicKey)
    ensures AsksIn(KeyArrived(w, c, user, pubkey).wire) == AsksIn(c.wire)
  {
    if user != "" && c.sealing {
      var c0 := Learned(c, user, pubkey);
      var c1 := Release(w, c0, user);
      var c2 := DeliverAwaiting(w, c1, user);
      var rooms := w.order(|c2.wire|, HeldRooms(c2));
      ReleaseMailOnly(w, c0, user);
      MailOnlyIs(c0, c1);
      FileEachAsksNothing(w, c1.(awaiting := c1.awaiting - {user}), AwaitingFrom(c1, user), user);
      RoomsMailOnly(w, c2, rooms);
      MailOnlyIs(c2, ReleaseRooms(w, c2, rooms));
    }
  }

  lemma MessageAsksNothing(w: World, c: Client, f: Mail)
    ensures AsksIn(IncomingMessage(w, c, f).wire) == AsksIn(c.wire)
  {
    if Attribution(f) == "" || MustWait(c, f) { MailOnlyIs(c, IncomingMessage(w, c, f)); }
    else { FileAsksNothing(w, c, f, Attribution(f)); }
  }

  lemma ListAsksNothing(w: World, c: Client, f: H.Frame)
    requires f.RoomState? || f.ContactList?
    ensures AsksIn(OnFrame(w, c, f).wire) == AsksIn(c.wire)
  {
    OnFrameIs(w, c, f);
    if f.RoomState? {
      ChooseAsks(w, Tell(c, C.SetRoomMembers(c.model, f.room, f.members)).(pendingRoom := None), f.room);
    } else if c.pendingUser.Some? {
      ChooseAsks(w, Tell(c, C.ReplaceContacts(c.model, f.contacts)).(pendingUser := None), c.pendingUser.value);
    }
  }

  lemma FrameAsks(w: World, c: Client, f: H.Frame)
    ensures AsksIn(OnFrame(w, c, f).wire) == AsksIn(c.wire) + AsksNow(c, Hear(f))
  {
    OnFrameIs(w, c, f);
    if f.Msg? { MessageAsksNothing(w, c, f); }
    else if f.KeyIs? { KeyAsksNothing(w, c, f.user, f.pubkey); }
    else if f.RoomState? || f.ContactList? { ListAsksNothing(w, c, f); }
    else if f.Error? { ErrorAsks(c, f.code); }
    else { SilentWire(w, c, f); }
  }

  lemma StepRequests(w: World, c: Client, s: Step)
    ensures AsksIn(Next(w, c, s).wire) == AsksIn(c.wire) + AsksNow(c, s)
  {
    match s
    case Type(text) =>
      SendsMailOnly(w, c, text);
      MailOnlyIs(c, Next(w, c, s));
    case Open(key) => ChooseAsks(w, c, key);
    case Chat(name) => ChatAsks(w, c, name);
    case Room(room, members) => RoomAsked(c, room, members);
    case Pass(r) =>
      OneAsk(r);
      AsksMore(c.wire, [r]);
    case Hear(f) => FrameAsks(w, c, f);
    case State(_) =>
  }

  function AsksOver(w: World, c0: Client, steps: seq<Step>): seq<H.Request> {
    if steps == [] then [] else
      var front := steps[..|steps| - 1];
      AsksOver(w, c0, front) + AsksNow(Run(w, c0, front), steps[|steps| - 1])
  }

  /** Over every run the requests about rooms and people on the connection are exactly those
      that the steps call for, in order. */
  lemma {:induction false} RequestsGoOut(w: World, c0: Client, steps: seq<Step>)
    ensures AsksIn(Run(w, c0, steps).wire) == AsksIn(c0.wire) + AsksOver(w, c0, steps)
  {
    if steps != [] {
      var front := steps[..|steps| - 1];
      RequestsGoOut(w, c0, front);
      StepRequests(w, Run(w, c0, front), steps[|steps| - 1]);
    }
  }

  // ------------------------------------------------------------------------ keys

  ghost predicate HasAsked(c: Client, name: string) {
    H.GetKey(name) in c.wire
  }

  /** Everybody whose key something waits for was asked about. */
  ghost predicate AllAsked(c: Client) {
    && (forall t | t in c.held && !IsRoom(t) :: HasAsked(c, t))
    && (forall peer | peer in c.awaiting :: HasAsked(c, peer))
  }

  /** More was put on the connection, and nothing new waits for anybody. */
  lemma StillAsked(c: Client, c': Client)
    requires AllAsked(c) && c.wire <= c'.wire
    requires c'.held.Keys <= c.held.Keys && c'.awaiting.Keys <= c.awaiting.Keys
    ensures AllAsked(c')
  {
    forall name | HasAsked(c, name) ensures HasAsked(c', name) {
      var i :| 0 <= i < |c.wire| && c.wire[i] == H.GetKey(name);
      assert c'.wire[i] == H.GetKey(name);
    }
  }

  lemma HoldAsks(c: Client, target: string, text: string, fetch: seq<string>)
    requires AllAsked(c) && (IsRoom(target) || fetch == [target])
    ensures AllAsked(Hold(c, target, text, fetch))
  {
    var c' := Hold(c, target, text, fetch);
    forall name | HasAsked(c, name) ensures HasAsked(c', name) {
      var i :| 0 <= i < |c.wire| && c.wire[i] == H.GetKey(name);
      assert c'.wire[i] == H.GetKey(name);
    }
    if !IsRoom(target) && target !in c.held {
      assert c'.wire[|c.wire|] == H.GetKey(target);
    }
  }

  lemma SendAsks(w: World, c: Client, text: string)
    requires AllAsked(c)
    ensures AllAsked(Send(w, c, text))
  {
    if c.model.active.Some? && !IsBlank(text) {
      var target := c.model.active.value;
      if !c.sealing { StillAsked(c, Send(w, c, text)); }
      else if IsRoom(target) { RoomAsks(w, c, target, text); }
      else { PersonAsks(w, c, target, text); }
    }
  }

  lemma PersonAsks(w: World, c: Client, target: string, text: string)
    requires AllAsked(c) && !IsRoom(target)
    ensures AllAsked(SendToPerson(w, c, target, text))
  {
    var c1 := c.(ring := Asked(c.ring, target));
    var c' := SendToPerson(w, c, target, text);
    StillAsked(c, c1);
    if SealFor(c.ring, target, text, MyName(c), w.nonces(|c.wire|)(target)).None? { HoldAsks(c1, target, text, [target]); }
    else { StillAsked(c1, c'); }
  }

  lemma RoomAsks(w: World, c: Client, room: string, text: string)
    requires AllAsked(c) && IsRoom(room)
    ensures AllAsked(SendToRoom(w, c, room, text))
  {
    var members, me := C.RoomMembers(c.model, room), MyName(c);
    var missing, c1 := Missing(c.ring, members - {me}), c.(ring := As(c.ring, me));
    StillAsked(c, c1);
    if missing != {} { HoldAsks(c, room, text, SortNames(missing)); }
    else if SealForMembers(c.ring, members, text, me, w.nonces(|c.wire|)).None? { HoldAsks(c1, room, text, SortNames(members)); }
    else { StillAsked(c1, SendToRoom(w, c, room, text)); }
  }

  lemma {:induction false} EachAsks(w: World, c: Client, texts: seq<string>)
    requires AllAsked(c)
    ensures AllAsked(SendEach(w, c, texts))
    decreases |texts|
  {
    if texts != [] {
      SendAsks(w, c, texts[0]);
      EachAsks(w, Send(w, c, texts[0]), texts[1..]);
    }
  }

  lemma ReleaseAsks(w: World, c: Client, target: string)
    requires AllAsked(c)
    ensures AllAsked(Release(w, c, target))
  {
    var waiting, c1 := HeldFor(c, target), c.(held := c.held - {target});
    StillAsked(c, c1);
    if waiting != [] {
      var c2 := OnScreen(c1, Some(target));
      StillAsked(c1, c2);
      EachAsks(w, c2, waiting);
      StillAsked(SendEach(w, c2, waiting), OnScreen(SendEach(w, c2, waiting), c.model.active));
    }
  }

  lemma {:induction false} RoomsAsk(w: World, c: Client, rooms: seq<string>)
    requires AllAsked(c)
    ensures AllAsked(ReleaseRooms(w, c, rooms))
    decreases |rooms|
  {
    if rooms != [] {
      if Missing(c.ring, OtherMembers(c, rooms[0])) == {} {
        ReleaseAsks(w, c, rooms[0]);
        RoomsAsk(w, Release(w, c, rooms[0]), rooms[1..]);
      } else {
        RoomsAsk(w, c, rooms[1..]);
      }
    }
  }

  lemma {:induction false} FileEachAsks(w: World, c: Client, frames: seq<Mail>, user: string)
    requires AllAsked(c)
    ensures AllAsked(FileEach(w, c, frames, user))
    decreases |frames|
  {
    if frames != [] {
      var c1 := File(w, c, frames[0], if IsRoom(frames[0].to) then frames[0].to else user);
      StillAsked(c, c1);
      FileEachAsks(w, c1, frames[1..], user);
    }
  }

  lemma KeyAsks(w: World, c: Client, user: string, pubkey: PublicKey)
    requires AllAsked(c)
    ensures AllAsked(KeyArrived(w, c, user, pubkey))
  {
    if user != "" && c.sealing {
      var c0 := Learned(c, user, pubkey);
      var c1 := Release(w, c0, user);
      var c2 := DeliverAwaiting(w, c1, user);
      StillAsked(c, c0);
      ReleaseAsks(w, c0, user);
      StillAsked(c1, c1.(awaiting := c1.awaiting - {user}));
      FileEachAsks(w, c1.(awaiting := c1.awaiting - {user}), AwaitingFrom(c1, user), user);
      RoomsAsk(w, c2, w.order(|c2.wire|, HeldRooms(c2)));
    }
  }

  lemma MessageAsks(w: World, c: Client, f: Mail)
    requires AllAsked(c)
    ensures AllAsked(IncomingMessage(w, c, f))
  {
    var c' := IncomingMessage(w, c, f);
    if Attribution(f) != "" && MustWait(c, f) {
      StillAsked(c, c'.(awaiting := c.awaiting));
      if PeerOf(f) !in c.awaiting { assert c'.wire[|c.wire|] == H.GetKey(PeerOf(f)); }
    } else {
      StillAsked(c, c');
    }
  }

  lemma StepAsks(w: World, c: Client, s: Step)
    requires AllAsked(c)
    ensures AllAsked(Next(w, c, s))
  {
    if s.Type? {
      SendAsks(w, c, s.text);
    } else if s.Hear? && s.frame.Msg? {
      OnFrameIs(w, c, s.frame);
      MessageAsks(w, c, s.frame);
    } else if s.Hear? && s.frame.KeyIs? {
      OnFrameIs(w, c, s.frame);
      KeyAsks(w, c, s.frame.user, s.frame.pubkey);
    } else {
      O.StepIsQuiet(w, c, s);
      if s.Hear? { I.FrameAside(w, c, s.frame); } else { I.GestureAside(w, c, s); }
      StillAsked(c, Next(w, c, s));
    }
  }

  /** Nothing waits for a key that was not asked for: over every run, whoever has texts
      held for them, or messages waiting, was asked about. */
  lemma {:induction false} KeysAreAskedFor(w: World, sealing: bool, identity: Identity, steps: seq<Step>)
    ensures AllAsked(Run(w, NewClient(sealing, identity), steps))
  {
    if steps != [] {
      KeysAreAskedFor(w, sealing, identity, steps[..|steps| - 1]);
      StepAsks(w, Run(w, NewClient(sealing, identity), steps[..|steps| - 1]), steps[|steps| - 1]);
    }
  }
}
