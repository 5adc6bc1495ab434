/** Waiting for a sender's key is transparent: every message is filed once, in the
    conversation and the order it would have had if the key had been there. */
module Inbound {
  import opened Text
  import opened Crypto
  import opened Keyrings
  import opened Controller
  import opened Outbound
  import opened OutboundOrder
  import C = ChatModel
  import H = Hub

  // ------------------------------------------------------ what came and went

  /** Whether a step brings a message, with somebody to attribute it to, from a peer. */
  predicate Brings(s: Step, peer: string) {
    s.Hear? && s.frame.Msg? && Attribution(s.frame) != "" && PeerOf(s.frame) == peer
  }

  function HeardFrom(steps: seq<Step>, peer: string): seq<Mail> {
    if steps == [] then [] else
      var front, s := HeardFrom(steps[..|steps| - 1], peer), steps[|steps| - 1];
      if Brings(s, peer) then front + [s.frame] else front
  }

  function FiledFrom(filed: seq<Filed>, peer: string): seq<Mail> {
    if filed == [] then [] else
      var front, e := FiledFrom(filed[..|filed| - 1], peer), filed[|filed| - 1];
      if PeerOf(e.frame) == peer then front + [e.frame] else front
  }

  /** The encrypted ones among some messages. */
  function Sealed(frames: seq<Mail>): seq<Mail> {
    if frames == [] then [] else
      var front, f := Sealed(frames[..|frames| - 1]), frames[|frames| - 1];
      if Encrypted(f) then front + [f] else front
  }

  lemma FiledOneMore(filed: seq<Filed>, e: Filed, peer: string)
    ensures FiledFrom(filed + [e], peer)
         == if PeerOf(e.frame) == peer then FiledFrom(filed, peer) + [e.frame] else FiledFrom(filed, peer)
  {
    assert (filed + [e])[..|filed|] == filed;
  }

  lemma {:induction false} SealedMore(a: seq<Mail>, b: seq<Mail>)
    ensures Sealed(a + b) == Sealed(a) + Sealed(b)
  {
    if b == [] {
      assert a + b == a;
    } else {
      var front, f := b[..|b| - 1], b[|b| - 1];
      assert (a + b)[..|a + b| - 1] == a + front;
      SealedMore(a, front);
    }
  }

  lemma {:induction false} AllSealedAlready(frames: seq<Mail>)
    requires forall f | f in frames :: Encrypted(f)
    ensures Sealed(frames) == frames
  {
    if frames != [] { AllSealedAlready(frames[..|frames| - 1]); }
  }

  // ----------------------------------------------------------- what is kept

  /** What waits for a peer came from that peer, is encrypted and can be attributed. */
  ghost predicate WaitsRight(c: Client) {
    forall peer | peer in c.awaiting ::
      forall f | f in c.awaiting[peer] :: PeerOf(f) == peer && Encrypted(f) && Attribution(f) != ""
  }

  /** Every filed message is where it belongs. */
  ghost predicate FiledRight(c: Client) {
    forall e | e in c.filed :: e.key == Attribution(e.frame)
  }

  /** Messages came in, in whatever order they end up. */
  ghost predicate Takes(c: Client, c': Client, peer: string, frames: seq<Mail>) {
    multiset(FiledFrom(c'.filed, peer)) + multiset(AwaitingFrom(c', peer))
      == multiset(FiledFrom(c.filed, peer)) + multiset(AwaitingFrom(c, peer)) + multiset(frames)
  }

  /** Encrypted messages end up in the order they came. */
  ghost predicate TakesInOrder(c: Client, c': Client, peer: string, frames: seq<Mail>) {
    Sealed(FiledFrom(c'.filed, peer)) + AwaitingFrom(c', peer)
      == Sealed(FiledFrom(c.filed, peer)) + AwaitingFrom(c, peer) + Sealed(frames)
  }

  ghost predicate Aside(c: Client, c': Client) {
    c'.awaiting == c.awaiting && c'.filed == c.filed
  }

  lemma AsideTakes(c: Client, c': Client, peer: string)
    requires Aside(c, c')
    ensures Takes(c, c', peer, []) && TakesInOrder(c, c', peer, [])
  {
    assert Sealed(FiledFrom(c.filed, peer)) + AwaitingFrom(c, peer) + [] == Sealed(FiledFrom(c.filed, peer)) + AwaitingFrom(c, peer);
  }

  // ----------------------------------------------------------- one message in

  lemma FileTakes(w: World, c: Client, f: Mail, key: string, peer: string)
    ensures var c' := File(w, c, f, key);
      && c'.awaiting == c.awaiting && c'.filed == c.filed + [Filed(key, f, Plaintext(w, c, f))]
      && FiledFrom(c'.filed, peer) == FiledFrom(c.filed, peer) + if PeerOf(f) == peer then [f] else []
  {
    FiledOneMore(c.filed, Filed(key, f, Plaintext(w, c, f)), peer);
  }

  lemma WaitingTakes(w: World, c: Client, f: Mail, peer: string)
    requires Attribution(f) != "" && MustWait(c, f)
    ensures var c' := IncomingMessage(w, c, f);
      && c'.filed == c.filed
      && AwaitingFrom(c', peer) == AwaitingFrom(c, peer) + (if PeerOf(f) == peer then [f] else [])
      && (WaitsRight(c) ==> WaitsRight(c'))
  {
    var waiting := AwaitingFrom(c, PeerOf(f)) + [f];
    if WaitsRight(c) {
      forall g | g in waiting ensures PeerOf(g) == PeerOf(f) && Encrypted(g) && Attribution(g) != "" {}
    }
  }

  /** A message is filed or waits; either way exactly once. */
  lemma MessageTaken(w: World, c: Client, f: Mail, peer: string)
    requires WaitsRight(c) && FiledRight(c)
    ensures var c' := IncomingMessage(w, c, f);
      && Takes(c, c', peer, if Attribution(f) != "" && PeerOf(f) == peer then [f] else [])
      && WaitsRight(c') && FiledRight(c')
  {
    var c' := IncomingMessage(w, c, f);
    if Attribution(f) == "" {
      AsideTakes(c, c', peer);
    } else if MustWait(c, f) {
      WaitingTakes(w, c, f, peer);
      WaitedIsTaken(c, c', f, peer);
    } else {
      FileTakes(w, c, f, Attribution(f), peer);
      FiledIsTaken(c, c', f, peer, Plaintext(w, c, f));
    }
  }

  lemma {:induction false} WaitedIsTaken(c: Client, c': Client, f: Mail, peer: string)
    requires c'.filed == c.filed && AwaitingFrom(c', peer) == AwaitingFrom(c, peer) + (if PeerOf(f) == peer then [f] else [])
    ensures Takes(c, c', peer, if PeerOf(f) == peer then [f] else [])
  {}

  lemma {:induction false} FiledIsTaken(c: Client, c': Client, f: Mail, peer: string, body: string)
    requires c'.awaiting == c.awaiting && c'.filed == c.filed + [Filed(Attribution(f), f, body)]
    requires FiledFrom(c'.filed, peer) == FiledFrom(c.filed, peer) + if PeerOf(f) == peer then [f] else []
    ensures Takes(c, c', peer, if PeerOf(f) == peer then [f] else [])
    ensures FiledRight(c) ==> FiledRight(c')
    ensures WaitsRight(c) ==> WaitsRight(c')
  {}

  lemma MessageInOrder(w: World, c: Client, f: Mail, peer: string)
    requires c.sealing && (AwaitingFrom(c, peer) != [] ==> peer !in c.ring.pubkeys) && c.model.username != Some(peer)
    requires Attribution(f) != "" && PeerOf(f) == peer
    ensures TakesInOrder(c, IncomingMessage(w, c, f), peer, [f])
  {
    if MustWait(c, f) {
      WaitingTakes(w, c, f, peer);
    } else {
      FileTakes(w, c, f, Attribution(f), peer);
    }
    NewestInOrder(c, IncomingMessage(w, c, f), f, peer);
  }

  lemma {:induction false} NewestInOrder(c: Client, c': Client, f: Mail, peer: string)
    requires || (Encrypted(f) && c'.filed == c.filed && AwaitingFrom(c', peer) == AwaitingFrom(c, peer) + [f])
             || (FiledFrom(c'.filed, peer) == FiledFrom(c.filed, peer) + [f] && AwaitingFrom(c', peer) == AwaitingFrom(c, peer)
                 && (Encrypted(f) ==> AwaitingFrom(c, peer) == []))
    ensures TakesInOrder(c, c', peer, [f])
  {
    var filed, waiting := FiledFrom(c.filed, peer), AwaitingFrom(c, peer);
    SealedOne(f);
    if FiledFrom(c'.filed, peer) == filed + [f] {
      SealedMore(filed, [f]);
      assert waiting + [] == waiting && Sealed(filed) + [] == Sealed(filed);
    } else {
      assert Sealed(filed) + (waiting + [f]) == Sealed(filed) + waiting + [f];
    }
  }

  lemma {:induction false} SealedOne(f: Mail)
    ensures Sealed([f]) == if Encrypted(f) then [f] else []
  {
    assert [f][..0] == [];
  }

  // ---------------------------------------------------------- a key arrives

  /** Filed straight away: these messages, of one peer, in this order. */
  ghost predicate Files(c: Client, c': Client, peer: string, frames: seq<Mail>) {
    && c'.awaiting == c.awaiting && (FiledRight(c) ==> FiledRight(c'))
    && FiledFrom(c'.filed, peer) == FiledFrom(c.filed, peer) + frames
  }

  lemma FilesOn(a: Client, b: Client, c: Client, peer: string, xs: seq<Mail>, ys: seq<Mail>)
    requires Files(a, b, peer, xs) && Files(b, c, peer, ys)
    ensures Files(a, c, peer, xs + ys)
  {
    assert FiledFrom(a.filed, peer) + xs + ys == FiledFrom(a.filed, peer) + (xs + ys);
  }

  lemma FileFiles(w: World, c: Client, f: Mail, key: string, peer: string)
    requires key == Attribution(f)
    ensures Files(c, File(w, c, f, key), peer, if PeerOf(f) == peer then [f] else [])
  {
    FileTakes(w, c, f, key, peer);
  }

  lemma {:induction false} FileEachFiles(w: World, c: Client, frames: seq<Mail>, user: string, peer: string)
    requires forall f | f in frames :: PeerOf(f) == user && Attribution(f) != ""
    ensures Files(c, FileEach(w, c, frames, user), peer, if peer == user then frames else [])
    decreases |frames|
  {
    if frames == [] {
      assert FiledFrom(c.filed, peer) + [] == FiledFrom(c.filed, peer);
    } else {
      var f := frames[0];
      var key := if IsRoom(f.to) then f.to else user;
      assert PeerOf(f) == user && key == Attribution(f);
      var c1 := File(w, c, f, key);
      FileFiles(w, c, f, key, peer);
      FileEachFiles(w, c1, frames[1..], user, peer);
      FilesOn(c, c1, FileEach(w, c1, frames[1..], user), peer,
              if peer == user then [f] else [], if peer == user then frames[1..] else []);
      assert frames == [f] + frames[1..];
    }
  }

  lemma DeliverTakes(w: World, c: Client, user: string, peer: string)
    requires WaitsRight(c) && FiledRight(c)
    ensures var c' := DeliverAwaiting(w, c, user);
      && WaitsRight(c') && FiledRight(c') && (peer == user ==> AwaitingFrom(c', peer) == [])
      && Takes(c, c', peer, []) && TakesInOrder(c, c', peer, [])
  {
    var frames := AwaitingFrom(c, user);
    var c1 := c.(awaiting := c.awaiting - {user});
    FileEachFiles(w, c1, frames, user, peer);
    FiledTakes(c, c1, FileEach(w, c1, frames, user), user, peer);
  }

  lemma FiledTakes(c: Client, c1: Client, c': Client, user: string, peer: string)
    requires WaitsRight(c) && FiledRight(c) && c1 == c.(awaiting := c.awaiting - {user})
    requires Files(c1, c', peer, if peer == user then AwaitingFrom(c, user) else [])
    ensures WaitsRight(c') && FiledRight(c') && (peer == user ==> AwaitingFrom(c', peer) == [])
    ensures Takes(c, c', peer, []) && TakesInOrder(c, c', peer, [])
  {
    var frames, before := AwaitingFrom(c, user), Sealed(FiledFrom(c.filed, peer)) + AwaitingFrom(c, peer);
    assert before + [] == before;
    assert FiledFrom(c.filed, peer) + [] == FiledFrom(c.filed, peer);
    if peer == user {
      AllSealedAlready(frames);
      SealedMore(FiledFrom(c.filed, peer), frames);
    } else {
      assert AwaitingFrom(c', peer) == AwaitingFrom(c, peer);
    }
  }

  lemma {:induction false} RoomsAside(w: World, c: Client, rooms: seq<string>)
    requires c.sealing && HeldAreReal(c)
    ensures Aside(c, ReleaseRooms(w, c, rooms))
    decreases |rooms|
  {
    if rooms != [] {
      if Missing(c.ring, OtherMembers(c, rooms[0])) == {} {
        ReleaseIsBatch(w, c, rooms[0]);
        RoomsAside(w, Release(w, c, rooms[0]), rooms[1..]);
      } else {
        RoomsAside(w, c, rooms[1..]);
      }
    }
  }

  lemma KeyTakes(w: World, c: Client, user: string, pubkey: PublicKey, peer: string)
    requires c.sealing && HeldAreReal(c) && WaitsRight(c) && FiledRight(c) && user != ""
    ensures var c' := KeyArrived(w, c, user, pubkey);
      && WaitsRight(c') && FiledRight(c') && (peer == user ==> AwaitingFrom(c', peer) == [])
      && Takes(c, c', peer, []) && TakesInOrder(c, c', peer, [])
  {
    var c0 := c.(ring := Remember(c.ring, user, pubkey));
    var c1 := Release(w, c0, user);
    var c2 := DeliverAwaiting(w, c1, user);
    ReleaseIsBatch(w, c0, user);
    BatchIsWhole(c0, c1, user);
    DeliverTakes(w, c1, user, peer);
    DeliverIsStill(w, c1, user);
    RoomsAside(w, c2, w.order(|c2.wire|, HeldRooms(c2)));
    TakesThrough(c, c1, c2, KeyArrived(w, c, user, pubkey), peer);
  }

  lemma TakesThrough(c: Client, c1: Client, c2: Client, c': Client, peer: string)
    requires Aside(c, c1) && Takes(c1, c2, peer, []) && TakesInOrder(c1, c2, peer, []) && Aside(c2, c')
    ensures Takes(c, c', peer, []) && TakesInOrder(c, c', peer, [])
  {}

  // -------------------------------------------------------------- other steps

  lemma TypingAside(w: World, c: Client, s: Step)
    requires c.sealing && s.Type?
    ensures Aside(c, Next(w, c, s))
  {
    if c.model.active.Some? && !IsBlank(s.text) { TextSends(w, c, s.text); }
  }

  lemma FrameAside(w: World, c: Client, f: H.Frame)
    requires !f.Msg? && !f.KeyIs?
    ensures Aside(c, OnFrame(w, c, f))
  {
    OnFrameIs(w, c, f);
    if f.HistoryResult? {
      assert Aside(c, HistoryArrived(w, c, f.room, f.entries));
    } else if f.ContactList? {
      ContactsAside(w, c, f.contacts);
    } else if f.RoomState? {
      RoomStateAside(w, c, f.room, f.members);
    } else if f.LoginOk? {
      assert Aside(c, LoggedIn(c, f.user, f.roster, f.contacts));
    } else if f.Error? {
      assert Aside(c, ErrorArrived(c, f.code));
    } else {
      assert Aside(c, Tell(c, ModelHears(c.model, f)));
    }
  }

  lemma ContactsAside(w: World, c: Client, contacts: map<string, bool>)
    ensures Aside(c, ContactsArrived(w, c, contacts))
  {}

  lemma RoomStateAside(w: World, c: Client, room: string, members: set<string>)
    ensures Aside(c, RoomStateArrived(w, c, room, members))
  {}

  lemma GestureAside(w: World, c: Client, s: Step)
    requires !s.Type? && !s.Hear?
    ensures Aside(c, Next(w, c, s))
  {
    if s.Chat? {
      ChatAside(w, c, s.user);
    } else if s.Room? {
      RoomAside(c, s.room, s.members);
    } else if s.Open? {
      assert Aside(c, Choose(w, c, s.key));
    }
  }

  lemma RoomAside(c: Client, room: string, members: seq<string>)
    ensures Aside(c, OpenRoom(c, room, members))
  {}

  lemma ChatAside(w: World, c: Client, user: string)
    ensures Aside(c, OpenChat(w, c, user))
  {
    RoomAside(c, Strip(user), []);
    assert Aside(c, Choose(w, c, Strip(user)));
  }

  lemma StepAside(w: World, c: Client, s: Step)
    requires c.sealing && !(s.Hear? && (s.frame.Msg? || (s.frame.KeyIs? && s.frame.user != "")))
    ensures Aside(c, Next(w, c, s))
  {
    if s.Type? { TypingAside(w, c, s); }
    else if !s.Hear? { GestureAside(w, c, s); }
    else if !s.frame.KeyIs? { FrameAside(w, c, s.frame); }
  }

  // ---------------------------------------------------------------- every run

  function HeardNow(s: Step, peer: string): seq<Mail> {
    if Brings(s, peer) then [s.frame] else []
  }

  lemma StepTakes(w: World, c: Client, s: Step, peer: string)
    requires c.sealing && HeldAreReal(c) && WaitsRight(c) && FiledRight(c)
    ensures var c' := Next(w, c, s); Takes(c, c', peer, HeardNow(s, peer)) && WaitsRight(c') && FiledRight(c')
  {
    if s.Hear? && s.frame.Msg? {
      OnFrameIs(w, c, s.frame);
      MessageTaken(w, c, s.frame, peer);
      SameTaken(c, IncomingMessage(w, c, s.frame), Next(w, c, s), peer, HeardNow(s, peer));
    } else if s.Hear? && s.frame.KeyIs? && s.frame.user != "" {
      OnFrameIs(w, c, s.frame);
      KeyTakes(w, c, s.frame.user, s.frame.pubkey, peer);
      SameTaken(c, KeyArrived(w, c, s.frame.user, s.frame.pubkey), Next(w, c, s), peer, []);
    } else {
      StepAside(w, c, s);
      AsideTaken(c, Next(w, c, s), peer);
    }
  }

  lemma SameTaken(c: Client, a: Client, b: Client, peer: string, frames: seq<Mail>)
    requires Takes(c, a, peer, frames) && WaitsRight(a) && FiledRight(a) && a == b
    ensures Takes(c, b, peer, frames) && WaitsRight(b) && FiledRight(b)
  {}

  lemma AsideTaken(c: Client, c': Client, peer: string)
    requires WaitsRight(c) && FiledRight(c) && Aside(c, c')
    ensures Takes(c, c', peer, []) && WaitsRight(c') && FiledRight(c')
  {
    AsideTakes(c, c', peer);
  }

  /** In every run of a client with a keyring, each message that can be attributed is
      filed exactly once or still waits for its sender's key, and each one filed is in
      the conversation it belongs to. */
  lemma {:induction false} EveryMessageIsFiledOnce(w: World, identity: Identity, steps: seq<Step>, peer: string)
    ensures var c := Run(w, NewClient(true, identity), steps);
      && multiset(HeardFrom(steps, peer)) == multiset(FiledFrom(c.filed, peer)) + multiset(AwaitingFrom(c, peer))
      && WaitsRight(c) && FiledRight(c)
  {
    if steps != [] {
      var front, s := steps[..|steps| - 1], steps[|steps| - 1];
      EveryMessageIsFiledOnce(w, identity, front, peer);
      NothingTypedIsLost(w, identity, front, "");
      StepTakes(w, Run(w, NewClient(true, identity), front), s, peer);
    }
  }

  /** What a step keeps about another person's encrypted messages. */
  ghost predicate KeptIn(c: Client, c': Client, peer: string, frames: seq<Mail>) {
    && TakesInOrder(c, c', peer, frames)
    && (AwaitingFrom(c', peer) != [] ==> peer !in c'.ring.pubkeys)
  }

  /** A peer other than oneself has messages waiting only while its key is unknown. */
  ghost predicate Awaits(c: Client, peer: string) {
    AwaitingFrom(c, peer) != [] ==> peer !in c.ring.pubkeys
  }

  /** Neither the name logged in under nor the one the ring takes for the client's own. */
  ghost predicate Stranger(c: Client, peer: string) {
    peer != "" && c.ring.me != peer && c.model.username != Some(peer)
  }

  lemma MessageKeptIn(w: World, c: Client, f: Mail, peer: string)
    requires c.sealing && WaitsRight(c) && Awaits(c, peer) && Stranger(c, peer)
    ensures KeptIn(c, IncomingMessage(w, c, f), peer, HeardNow(Hear(f), peer))
  {
    MailIsQuiet(w, c, f);
    if Attribution(f) != "" && PeerOf(f) == peer {
      MessageInOrder(w, c, f, peer);
      if MustWait(c, f) {
        WaitingTakes(w, c, f, peer);
      } else {
        FileTakes(w, c, f, Attribution(f), peer);
      }
      assert HeardNow(Hear(f), peer) == [f];
    } else {
      OthersMessage(w, c, f, peer);
      assert HeardNow(Hear(f), peer) == [];
    }
  }

  lemma OthersMessage(w: World, c: Client, f: Mail, peer: string)
    requires Attribution(f) == "" || PeerOf(f) != peer
    ensures var c' := IncomingMessage(w, c, f);
      AwaitingFrom(c', peer) == AwaitingFrom(c, peer) && TakesInOrder(c, c', peer, [])
  {
    if Attribution(f) == "" {
      AsideTakes(c, c, peer);
    } else if MustWait(c, f) {
      WaitingTakes(w, c, f, peer);
    } else {
      FileTakes(w, c, f, Attribution(f), peer);
    }
  }

  lemma KeyKeptIn(w: World, c: Client, user: string, pubkey: PublicKey, peer: string)
    requires c.sealing && HeldAreReal(c) && WaitsRight(c) && FiledRight(c) && user != ""
    requires Awaits(c, peer) && Stranger(c, peer) && KeyArrived(w, c, user, pubkey).ring.me != peer
    ensures KeptIn(c, KeyArrived(w, c, user, pubkey), peer, [])
  {
    KeyTakes(w, c, user, pubkey, peer);
    KeyIsWhole(w, c, user, pubkey);
    if peer != user { KeyLeavesOthers(w, c, user, pubkey, peer); }
  }

  lemma KeyLeavesOthers(w: World, c: Client, user: string, pubkey: PublicKey, peer: string)
    requires c.sealing && HeldAreReal(c) && user != "" && peer != user
    ensures AwaitingFrom(KeyArrived(w, c, user, pubkey), peer) == AwaitingFrom(c, peer)
  {
    var c0 := c.(ring := Remember(c.ring, user, pubkey));
    var c1 := Release(w, c0, user);
    var c2 := DeliverAwaiting(w, c1, user);
    ReleaseIsBatch(w, c0, user);
    BatchIsWhole(c0, c1, user);
    DeliverIsStill(w, c1, user);
    RoomsAside(w, c2, w.order(|c2.wire|, HeldRooms(c2)));
    FileEachAwaiting(w, c1.(awaiting := c1.awaiting - {user}), AwaitingFrom(c1, user), user);
  }

  lemma {:induction false} FileEachAwaiting(w: World, c: Client, frames: seq<Mail>, user: string)
    ensures FileEach(w, c, frames, user).awaiting == c.awaiting
    decreases |frames|
  {
    if frames != [] {
      FileEachAwaiting(w, File(w, c, frames[0], if IsRoom(frames[0].to) then frames[0].to else user), frames[1..], user);
    }
  }

  lemma StepKeptIn(w: World, c: Client, s: Step, peer: string)
    requires c.sealing && HeldAreReal(c) && WaitsRight(c) && FiledRight(c)
    requires Awaits(c, peer) && Stranger(c, peer) && Next(w, c, s).ring.me != peer
    ensures KeptIn(c, Next(w, c, s), peer, HeardNow(s, peer))
  {
    if s.Hear? && s.frame.Msg? {
      MessageStepKeptIn(w, c, s, peer);
    } else if s.Hear? && s.frame.KeyIs? && s.frame.user != "" {
      KeyStepKeptIn(w, c, s, peer);
    } else {
      OtherStepKeptIn(w, c, s, peer);
    }
  }

  lemma SameKeptIn(c: Client, a: Client, b: Client, peer: string, frames: seq<Mail>)
    requires KeptIn(c, a, peer, frames) && a == b
    ensures KeptIn(c, b, peer, frames)
  {}

  lemma MessageStepKeptIn(w: World, c: Client, s: Step, peer: string)
    requires c.sealing && WaitsRight(c) && Awaits(c, peer) && Stranger(c, peer)
    requires s.Hear? && s.frame.Msg?
    ensures KeptIn(c, Next(w, c, s), peer, HeardNow(s, peer))
  {
    MessageKeptIn(w, c, s.frame, peer);
    OnFrameIs(w, c, s.frame);
    SameKeptIn(c, IncomingMessage(w, c, s.frame), Next(w, c, s), peer, HeardNow(s, peer));
  }

  lemma KeyStepKeptIn(w: World, c: Client, s: Step, peer: string)
    requires c.sealing && HeldAreReal(c) && WaitsRight(c) && FiledRight(c)
    requires Awaits(c, peer) && Stranger(c, peer) && Next(w, c, s).ring.me != peer
    requires s.Hear? && s.frame.KeyIs? && s.frame.user != ""
    ensures KeptIn(c, Next(w, c, s), peer, HeardNow(s, peer))
  {
    KeyKeptIn(w, c, s.frame.user, s.frame.pubkey, peer);
  }

  lemma OtherStepKeptIn(w: World, c: Client, s: Step, peer: string)
    requires c.sealing && Awaits(c, peer) && Stranger(c, peer) && Next(w, c, s).ring.me != peer
    requires !(s.Hear? && (s.frame.Msg? || (s.frame.KeyIs? && s.frame.user != "")))
    ensures KeptIn(c, Next(w, c, s), peer, HeardNow(s, peer))
  {
    StepAside(w, c, s);
    OwnStep(w, c, s);
    AsideKeptIn(c, Next(w, c, s), peer);
  }

  lemma AsideKeptIn(c: Client, c': Client, peer: string)
    requires Aside(c, c') && OwnNamesOnly(c, c')
    requires Awaits(c, peer) && Stranger(c, peer) && c'.ring.me != peer
    ensures KeptIn(c, c', peer, [])
  {
    AsideTakes(c, c', peer);
  }

  /** Only a key frame brings in anybody else's key. */
  lemma OwnStep(w: World, c: Client, s: Step)
    requires c.sealing && !(s.Hear? && s.frame.KeyIs? && s.frame.user != "")
    ensures OwnNamesOnly(c, Next(w, c, s))
  {
    if s.Type? {
      if c.model.active.Some? && !IsBlank(s.text) { TextSends(w, c, s.text); }
    } else if !(s.Hear? && s.frame.KeyIs?) {
      StepIsQuiet(w, c, s);
    }
  }

  /** The ring only ever takes for the client's own a name the client went by: somebody
      whose name it never went by is covered here and by the order of outgoing texts. */
  lemma {:induction false} RingGoesByMyNames(w: World, identity: Identity, steps: seq<Step>, t: string)
    requires t != "" && forall k | 0 <= k < |steps| :: MyName(Run(w, NewClient(true, identity), steps[..k])) != t
    ensures Run(w, NewClient(true, identity), steps).ring.me != t
  {
    var c0 := NewClient(true, identity);
    if steps != [] {
      var front, s := steps[..|steps| - 1], steps[|steps| - 1];
      forall k | 0 <= k < |front| ensures MyName(Run(w, c0, front[..k])) != t { assert front[..k] == steps[..k]; }
      RingGoesByMyNames(w, identity, front, t);
      NothingTypedIsLost(w, identity, front, "");
      StepRingName(w, Run(w, c0, front), s);
    }
  }

  lemma StepRingName(w: World, c: Client, s: Step)
    requires c.sealing && HeldAreReal(c)
    ensures Next(w, c, s).ring.me == c.ring.me || Next(w, c, s).ring.me == MyName(c)
  {
    if s.Hear? && s.frame.KeyIs? && s.frame.user != "" {
      KeyIsWhole(w, c, s.frame.user, s.frame.pubkey);
    } else {
      OwnStep(w, c, s);
    }
  }

  /** At no point of a run was this name the client's own. */
  ghost predicate AlwaysStranger(w: World, c: Client, steps: seq<Step>, peer: string) {
    forall k | 0 <= k <= |steps| :: Stranger(Run(w, c, steps[..k]), peer)
  }

  lemma StrangerBefore(w: World, c: Client, steps: seq<Step>, peer: string)
    requires steps != [] && AlwaysStranger(w, c, steps, peer)
    ensures AlwaysStranger(w, c, steps[..|steps| - 1], peer)
    ensures Stranger(Run(w, c, steps[..|steps| - 1]), peer) && Stranger(Run(w, c, steps), peer)
  {
    var front := steps[..|steps| - 1];
    forall k | 0 <= k <= |front| ensures Stranger(Run(w, c, front[..k]), peer) { assert front[..k] == steps[..k]; }
    assert steps[..|steps|] == steps && front[..|front|] == front;
  }

  /** In every run, the encrypted messages of any peer other than oneself are filed in the
      order they arrived, and wait only while that peer's key is unknown. */
  lemma {:induction false} MessagesAreFiledInOrder(w: World, identity: Identity, steps: seq<Step>, peer: string)
    requires AlwaysStranger(w, NewClient(true, identity), steps, peer)
    ensures var c := Run(w, NewClient(true, identity), steps);
      && Sealed(HeardFrom(steps, peer)) == Sealed(FiledFrom(c.filed, peer)) + AwaitingFrom(c, peer)
      && Awaits(c, peer)
  {
    var c0 := NewClient(true, identity);
    if steps != [] {
      var front, s := steps[..|steps| - 1], steps[|steps| - 1];
      var c := Run(w, c0, front);
      StrangerBefore(w, c0, steps, peer);
      MessagesAreFiledInOrder(w, identity, front, peer);
      NothingTypedIsLost(w, identity, front, "");
      EveryMessageIsFiledOnce(w, identity, front, peer);
      StepKeptIn(w, c, s, peer);
      SealedMore(HeardFrom(front, peer), HeardNow(s, peer));
    }
  }
}
