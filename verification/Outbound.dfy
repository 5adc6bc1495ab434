/** Holding what is typed until it can be sealed is safe and loses nothing. */
module Outbound {
  import opened Text
  import opened Crypto
  import opened Messages
  import opened Keyrings
  import opened Controller
  import C = ChatModel
  import H = Hub

  // --------------------------------------------------------- reading the wire

  /** A request whose every ciphertext holds this text. */
  ghost predicate Carries(r: H.Request, text: string) {
    && r.Send?
    && if IsRoom(r.to) then
         && r.shares.Some? && r.shares.value.Keys != {}
         && forall name | name in r.shares.value ::
              r.shares.value[name].Share? && r.shares.value[name].body.Cipher? && r.shares.value[name].body.text == text
       else r.body.Text? && r.body.payload.Cipher? && r.body.payload.text == text
  }

  ghost function TextOf(r: H.Request): string {
    if exists text :: Carries(r, text) then var text :| Carries(r, text); text else ""
  }

  lemma CarriesOne(r: H.Request, text: string)
    requires Carries(r, text)
    ensures TextOf(r) == text
  {
    var other := TextOf(r);
    assert Carries(r, other);
    if IsRoom(r.to) {
      var name :| name in r.shares.value;
      assert r.shares.value[name].body.text == text;
    }
  }

  /** The texts put on the connection for one target, in order. */
  ghost function SentTo(wire: seq<H.Request>, target: string): seq<string> {
    if wire == [] then [] else
      var front, r := SentTo(wire[..|wire| - 1], target), wire[|wire| - 1];
      if r.Send? && r.to == target then front + [TextOf(r)] else front
  }

  lemma SentOneMore(wire: seq<H.Request>, r: H.Request, target: string)
    ensures SentTo(wire + [r], target)
         == if r.Send? && r.to == target then SentTo(wire, target) + [TextOf(r)] else SentTo(wire, target)
  {
    assert (wire + [r])[..|wire|] == wire;
  }

  /** Requests that carry no message leave what was sent as it was. */
  lemma {:induction false} SentNoMore(wire: seq<H.Request>, more: seq<H.Request>, target: string)
    requires forall r | r in more :: !r.Send?
    ensures SentTo(wire + more, target) == SentTo(wire, target)
  {
    if more == [] {
      assert wire + more == wire;
    } else {
      var front, r := more[..|more| - 1], more[|more| - 1];
      assert wire + more == (wire + front) + [r];
      SentNoMore(wire, front, target);
      SentOneMore(wire + front, r, target);
    }
  }

  // ------------------------------------------------------------- one message

  /** A message request as `me` seals it: a nonce and a ciphertext under the key held for
      the target, or one share for every known member and one for the sender. */
  ghost predicate SealedBy(r: H.Request, me: string, members: set<string>, ring: Ring) {
    && r.Send?
    && if IsRoom(r.to) then
         && r.body == Text(Clear("")) && r.nonce.None?
         && r.shares.Some? && r.shares.value.Keys == members + {me}
         && forall name | name in r.shares.value :: SealedShare(r.shares.value[name], name, TextOf(r), me, ring)
       else
         && r.nonce.Some? && r.shares.None? && r.body.Text?
         && r.to in ring.pubkeys
         && r.body.payload == Seal(KeyFor(ring.identity, ring.pubkeys[r.to]), TextOf(r), me, r.nonce.value)
  }

  ghost predicate SealedShare(share: Share, name: string, text: string, me: string, ring: Ring) {
    && share.Share? && name in ring.pubkeys
    && share.body == Seal(KeyFor(ring.identity, ring.pubkeys[name]), text, me, share.nonce)
  }

  /** What sending leaves alone. */
  ghost predicate Steady(c: Client, c': Client) {
    && c'.sealing == c.sealing
    && c'.model.username == c.model.username && c'.model.active == c.model.active && c'.model.rooms == c.model.rooms
    && c'.awaiting == c.awaiting && c'.filed == c.filed
    && c.wire <= c'.wire
    && RingGrows(c.ring, c'.ring)
    && (c'.ring.me == c.ring.me || c'.ring.me == MyName(c))
    && (forall name | name in c'.ring.pubkeys :: name in c.ring.pubkeys || (name != "" && (name == c.ring.me || name == c'.ring.me)))
  }

  ghost predicate RingGrows(r: Ring, r': Ring) {
    r'.identity == r.identity && forall name | name in r.pubkeys :: name in r'.pubkeys && r'.pubkeys[name] == r.pubkeys[name]
  }

  /** One text on its way: sent now, or held behind the others. */
  ghost predicate Moves(c: Client, c': Client, target: string, text: string) {
    || (HeldFor(c', target) == HeldFor(c, target) && SentTo(c'.wire, target) == SentTo(c.wire, target) + [text])
    || (HeldFor(c', target) == HeldFor(c, target) + [text] && SentTo(c'.wire, target) == SentTo(c.wire, target))
  }

  ghost predicate Untouched(c: Client, c': Client, target: string) {
    HeldFor(c', target) == HeldFor(c, target) && SentTo(c'.wire, target) == SentTo(c.wire, target)
  }

  /** What follows on the wire from some point on is sealed. */
  ghost predicate AllSealed(c: Client, c': Client) {
    c.wire <= c'.wire && forall i | |c.wire| <= i < |c'.wire| && c'.wire[i].Send? ::
      SealedBy(c'.wire[i], MyName(c), C.RoomMembers(c.model, c'.wire[i].to), c'.ring)
  }

  /** Everything one text does to the client. */
  ghost predicate Sends(c: Client, c': Client, target: string, text: string) {
    && Steady(c, c') && AllSealed(c, c')
    && Moves(c, c', target, text)
    && forall other | other != target :: Untouched(c, c', other)
  }

  lemma HoldSends(c: Client, target: string, text: string, fetch: seq<string>)
    ensures Sends(c, Hold(c, target, text, fetch), target, text)
  {
    var c' := Hold(c, target, text, fetch);
    var more := c'.wire[|c.wire|..];
    assert c'.wire == c.wire + more;
    forall other ensures SentTo(c'.wire, other) == SentTo(c.wire, other) { SentNoMore(c.wire, more, other); }
  }

  lemma PutSends(w: World, c: Client, target: string, body: Payload, nonce: Option<string>, shares: Option<map<string, Share>>, text: string)
    requires var r := H.Send(target, Text(body), nonce, shares, w.id(|c.wire|), w.now(|c.wire|));
      Carries(r, text) && SealedBy(r, MyName(c), C.RoomMembers(c.model, target), c.ring)
    ensures Sends(c, Put(w, c, target, body, nonce, shares, text), target, text)
  {
    var r := H.Send(target, Text(body), nonce, shares, w.id(|c.wire|), w.now(|c.wire|));
    var c' := Put(w, c, target, body, nonce, shares, text);
    CarriesOne(r, text);
    forall other ensures SentTo(c'.wire, other) == if other == target then SentTo(c.wire, other) + [text] else SentTo(c.wire, other) {
      SentOneMore(c.wire, r, other);
    }
    C.AddChanges(c.model, target, OwnMessage(w, c, text));
  }

  /** A change of ring alone, before a text goes on its way. */
  lemma AfterRing(c: Client, ring: Ring, c': Client, target: string, text: string)
    requires Sends(c.(ring := ring), c', target, text)
    requires ring == As(c.ring, MyName(c)) || ring == Asked(c.ring, target)
    ensures Sends(c, c', target, text)
  {
    var c1 := c.(ring := ring);
    assert MyName(c1) == MyName(c) && MyName(c) != "";
    forall other | other != target ensures Untouched(c, c', other) {
      assert Untouched(c1, c', other) && HeldFor(c1, other) == HeldFor(c, other);
    }
  }

  lemma PersonSends(w: World, c: Client, target: string, text: string)
    requires !IsRoom(target)
    ensures Sends(c, SendToPerson(w, c, target, text), target, text)
    ensures var c' := SendToPerson(w, c, target, text);
      HeldFor(c', target) == HeldFor(c, target) <==> target in c'.ring.pubkeys
  {
    var nonce := w.nonces(|c.wire|)(target);
    var sealed := SealFor(c.ring, target, text, MyName(c), nonce);
    var c1 := c.(ring := Asked(c.ring, target));
    if sealed.None? {
      HoldSends(c1, target, text, [target]);
    } else {
      var r := H.Send(target, Text(sealed.value), Some(nonce), None, w.id(|c.wire|), w.now(|c.wire|));
      CarriesOne(r, text);
      PutSends(w, c1, target, sealed.value, Some(nonce), None, text);
    }
    AfterRing(c, c1.ring, SendToPerson(w, c, target, text), target, text);
  }

  /** Every share is sealed for its member, under the key the ring holds for them. */
  lemma SharesAreSealed(r: Ring, members: set<string>, text: string, me: string, nonces: string -> string)
    requires SealForMembers(r, members, text, me, nonces).Some? && me != ""
    ensures forall name | name in SealForMembers(r, members, text, me, nonces).value ::
      SealedShare(SealForMembers(r, members, text, me, nonces).value[name], name, text, me, As(r, me))
  {
    var ring := As(r, me);
    assert forall name :: Asked(ring, name) == ring;
    assert forall name | name in members + {me} :: KeyOf(ring, name).Some?;
  }

  lemma RoomSends(w: World, c: Client, room: string, text: string)
    requires IsRoom(room)
    ensures Sends(c, SendToRoom(w, c, room, text), room, text)
  {
    var members, me := C.RoomMembers(c.model, room), MyName(c);
    var missing := Missing(c.ring, members - {me});
    if missing != {} {
      HoldSends(c, room, text, SortNames(missing));
    } else {
      var nonces := w.nonces(|c.wire|);
      SealsIffNobodyIsMissing(c.ring, members, text, me, nonces);
      SharesAreSealed(c.ring, members, text, me, nonces);
      var shares := SealForMembers(c.ring, members, text, me, nonces);
      var c1 := c.(ring := As(c.ring, me));
      var r := H.Send(room, Text(Clear("")), None, shares, w.id(|c.wire|), w.now(|c.wire|));
      assert me in shares.value.Keys;
      assert Carries(r, text);
      CarriesOne(r, text);
      PutSends(w, c1, room, Clear(""), None, shares, text);
      AfterRing(c, c1.ring, SendToRoom(w, c, room, text), room, text);
    }
  }

  lemma TextSends(w: World, c: Client, text: string)
    requires c.sealing && c.model.active.Some? && !IsBlank(text)
    ensures Sends(c, Send(w, c, text), c.model.active.value, text)
  {
    var target := c.model.active.value;
    if IsRoom(target) { RoomSends(w, c, target, text); } else { PersonSends(w, c, target, text); }
  }

  // ------------------------------------------------------------- many messages

  /** Some texts on their way, in whatever order. */
  ghost predicate Passes(c: Client, c': Client, target: string, texts: seq<string>) {
    multiset(SentTo(c'.wire, target)) + multiset(HeldFor(c', target))
      == multiset(SentTo(c.wire, target)) + multiset(HeldFor(c, target)) + multiset(texts)
  }

  predicate NoneBlank(texts: seq<string>) {
    forall i | 0 <= i < |texts| :: !IsBlank(texts[i])
  }

  /** Blank text is never held. */
  ghost predicate HeldAreReal(c: Client) {
    forall target | target in c.held :: NoneBlank(c.held[target])
  }

  /** What a batch for one target does. */
  ghost predicate Batch(c: Client, c': Client, target: string, texts: seq<string>) {
    && Steady(c, c') && AllSealed(c, c') && Passes(c, c', target, texts)
    && (HeldAreReal(c) ==> HeldAreReal(c'))
    && forall other | other != target :: Untouched(c, c', other)
  }

  lemma SealedGrows(r: H.Request, me: string, members: set<string>, ring: Ring, ring': Ring)
    requires SealedBy(r, me, members, ring) && RingGrows(ring, ring')
    ensures SealedBy(r, me, members, ring')
  {}

  lemma SealedOn(a: Client, b: Client, c: Client)
    requires AllSealed(a, b) && AllSealed(b, c) && RingGrows(b.ring, c.ring)
    requires MyName(b) == MyName(a) && b.model.rooms == a.model.rooms
    ensures AllSealed(a, c)
  {
    forall i | |a.wire| <= i < |c.wire| && c.wire[i].Send?
      ensures SealedBy(c.wire[i], MyName(a), C.RoomMembers(a.model, c.wire[i].to), c.ring)
    {
      if i < |b.wire| {
        assert c.wire[i] == b.wire[i];
        SealedGrows(b.wire[i], MyName(a), C.RoomMembers(a.model, b.wire[i].to), b.ring, c.ring);
      }
    }
  }

  lemma SteadyOn(a: Client, b: Client, c: Client)
    requires Steady(a, b) && Steady(b, c)
    ensures Steady(a, c) && MyName(b) == MyName(a)
  {}

  lemma HoldsReal(w: World, c: Client, text: string)
    requires HeldAreReal(c)
    ensures HeldAreReal(Send(w, c, text))
  {
    if c.model.active.Some? && !IsBlank(text) {
      assert NoneBlank(HeldFor(c, c.model.active.value));
      assert NoneBlank(HeldFor(c, c.model.active.value) + [text]);
    }
  }

  lemma PassesOn(a: Client, b: Client, c: Client, target: string, xs: seq<string>, ys: seq<string>)
    requires Passes(a, b, target, xs) && Passes(b, c, target, ys)
    ensures Passes(a, c, target, xs + ys)
  {}

  lemma BatchOn(a: Client, b: Client, c: Client, target: string, xs: seq<string>, ys: seq<string>)
    requires Batch(a, b, target, xs) && Batch(b, c, target, ys)
    ensures Batch(a, c, target, xs + ys)
  {
    SteadyOn(a, b, c);
    SealedOn(a, b, c);
    PassesOn(a, b, c, target, xs, ys);
    forall other | other != target ensures Untouched(a, c, other) {
      assert Untouched(a, b, other) && Untouched(b, c, other);
    }
  }

  lemma OneIsBatch(w: World, c: Client, target: string, text: string)
    requires c.sealing && c.model.active == Some(target) && !IsBlank(text)
    ensures Batch(c, Send(w, c, text), target, [text])
  {
    var c' := Send(w, c, text);
    TextSends(w, c, text);
    MoveIsPass(c, c', target, text);
    if HeldAreReal(c) { HoldsReal(w, c, text); }
  }

  lemma MoveIsPass(c: Client, c': Client, target: string, text: string)
    requires Moves(c, c', target, text)
    ensures Passes(c, c', target, [text])
  {}

  lemma NothingIsBatch(c: Client, target: string)
    ensures Batch(c, c, target, [])
  {}

  lemma EachIsMore(a: Client, b: Client, c: Client, target: string, texts: seq<string>)
    requires texts != [] && Batch(a, b, target, [texts[0]]) && Batch(b, c, target, texts[1..])
    ensures Batch(a, c, target, texts)
  {
    BatchOn(a, b, c, target, [texts[0]], texts[1..]);
    assert texts == [texts[0]] + texts[1..];
  }

  lemma {:induction false} EachIsBatch(w: World, c: Client, target: string, texts: seq<string>)
    requires c.sealing && c.model.active == Some(target) && NoneBlank(texts)
    ensures Batch(c, SendEach(w, c, texts), target, texts)
    decreases |texts|
  {
    if texts == [] {
      NothingIsBatch(c, target);
    } else {
      var c1 := Send(w, c, texts[0]);
      OneIsBatch(w, c, target, texts[0]);
      EachIsBatch(w, c1, target, texts[1..]);
      EachIsMore(c, c1, SendEach(w, c1, texts[1..]), target, texts);
    }
  }

  /** Releasing sends or holds again exactly what was held. */
  lemma ReleaseIsBatch(w: World, c: Client, target: string)
    requires c.sealing && HeldAreReal(c)
    ensures Batch(c, Release(w, c, target), target, [])
  {
    var waiting, c1 := HeldFor(c, target), c.(held := c.held - {target});
    if waiting == [] {
      assert forall other | other != target :: Untouched(c, c1, other);
    } else {
      var c2 := OnScreen(c1, Some(target));
      EachIsBatch(w, c2, target, waiting);
      AsideIsBatch(c, c2, SendEach(w, c2, waiting), target);
    }
  }

  /** What is done with a target's texts taken out of the held ones, and its conversation
      on screen, amounts to a batch once the screen is put back. */
  lemma AsideIsBatch(c: Client, c2: Client, c3: Client, target: string)
    requires HeldAreReal(c) && c2 == OnScreen(c.(held := c.held - {target}), Some(target))
    requires Batch(c2, c3, target, HeldFor(c, target))
    ensures Batch(c, OnScreen(c3, c.model.active), target, [])
  {
    forall other | other != target ensures Untouched(c, OnScreen(c3, c.model.active), other) {
      assert Untouched(c2, c3, other);
    }
  }

  // --------------------------------------------------------------- whole steps

  /** The ring only ever gains names of one's own, and keeps what it has. */
  ghost predicate OwnNamesOnly(c: Client, c': Client) {
    && RingGrows(c.ring, c'.ring)
    && (c'.ring.me == c.ring.me || c'.ring.me == MyName(c))
    && forall name | name in c'.ring.pubkeys :: name in c.ring.pubkeys || (name != "" && (name == c.ring.me || name == c'.ring.me))
  }

  ghost predicate SameStage(c: Client, c': Client) {
    c'.sealing == c.sealing && c'.model.username == c.model.username && c'.model.rooms == c.model.rooms
  }

  /** Nothing typed is lost or made up, for any target, and nothing goes out unsealed. */
  ghost predicate Whole(c: Client, c': Client) {
    && SameStage(c, c') && OwnNamesOnly(c, c') && AllSealed(c, c')
    && (forall t :: Passes(c, c', t, []))
    && (HeldAreReal(c) ==> HeldAreReal(c'))
  }

  /** Nothing is typed, sent or held. */
  ghost predicate Quiet(c: Client, c': Client) {
    && c'.held == c.held && c.wire <= c'.wire
    && forall i | |c.wire| <= i < |c'.wire| :: !c'.wire[i].Send?
  }

  lemma QuietSends(c: Client, c': Client)
    requires Quiet(c, c')
    ensures AllSealed(c, c') && forall t :: Untouched(c, c', t)
  {
    var more := c'.wire[|c.wire|..];
    assert c'.wire == c.wire + more;
    forall t ensures Untouched(c, c', t) { SentNoMore(c.wire, more, t); }
  }

  lemma QuietIsWhole(c: Client, c': Client)
    requires Quiet(c, c') && SameStage(c, c') && OwnNamesOnly(c, c')
    ensures Whole(c, c')
  {
    QuietSends(c, c');
    forall t ensures Passes(c, c', t, []) { assert Untouched(c, c', t); }
  }

  lemma BatchIsWhole(c: Client, c': Client, target: string)
    requires Batch(c, c', target, [])
    ensures Whole(c, c')
  {
    forall t ensures Passes(c, c', t, []) { assert t != target ==> Untouched(c, c', t); }
  }

  lemma WholeOn(a: Client, b: Client, c: Client)
    requires Whole(a, b) && Whole(b, c)
    ensures Whole(a, c)
  {
    SealedOn(a, b, c);
    forall t ensures Passes(a, c, t, []) { PassesOn(a, b, c, t, [], []); }
  }

  lemma FileIsQuiet(w: World, c: Client, f: Mail, key: string)
    ensures var c' := File(w, c, f, key);
      Quiet(c, c') && SameStage(c, c') && OwnNamesOnly(c, c') && c'.model.active == c.model.active
  {}

  /** Nothing typed so much as moves. */
  ghost predicate Still(c: Client, c': Client) {
    Whole(c, c') && forall t :: Untouched(c, c', t)
  }

  lemma QuietIsStill(c: Client, c': Client)
    requires Quiet(c, c') && SameStage(c, c') && OwnNamesOnly(c, c')
    ensures Still(c, c')
  {
    QuietIsWhole(c, c');
    QuietSends(c, c');
  }

  lemma StillOn(a: Client, b: Client, c: Client)
    requires Still(a, b) && Still(b, c)
    ensures Still(a, c)
  {
    WholeOn(a, b, c);
    forall t ensures Untouched(a, c, t) { assert Untouched(a, b, t) && Untouched(b, c, t); }
  }

  lemma FileIsStill(w: World, c: Client, f: Mail, key: string)
    ensures Still(c, File(w, c, f, key))
  {
    FileIsQuiet(w, c, f, key);
    QuietIsStill(c, File(w, c, f, key));
  }

  lemma {:induction false} FileEachIsStill(w: World, c: Client, frames: seq<Mail>, user: string)
    ensures Still(c, FileEach(w, c, frames, user))
    decreases |frames|
  {
    if frames == [] {
      QuietIsStill(c, c);
    } else {
      var key := if IsRoom(frames[0].to) then frames[0].to else user;
      var c1 := File(w, c, frames[0], key);
      FileIsStill(w, c, frames[0], key);
      FileEachIsStill(w, c1, frames[1..], user);
      StillOn(c, c1, FileEach(w, c1, frames[1..], user));
    }
  }

  lemma {:induction false} RoomsAreWhole(w: World, c: Client, rooms: seq<string>)
    requires c.sealing && HeldAreReal(c)
    ensures Whole(c, ReleaseRooms(w, c, rooms))
    ensures forall t | t !in rooms :: Untouched(c, ReleaseRooms(w, c, rooms), t)
    decreases |rooms|
  {
    if rooms == [] {
      QuietIsWhole(c, c);
    } else if Missing(c.ring, OtherMembers(c, rooms[0])) == {} {
      var c1 := Release(w, c, rooms[0]);
      ReleaseIsBatch(w, c, rooms[0]);
      BatchIsWhole(c, c1, rooms[0]);
      RoomsAreWhole(w, c1, rooms[1..]);
      RoomsOn(c, c1, ReleaseRooms(w, c1, rooms[1..]), rooms);
    } else {
      RoomsAreWhole(w, c, rooms[1..]);
      assert forall t | t !in rooms :: t !in rooms[1..];
    }
  }

  lemma RoomsOn(a: Client, b: Client, c: Client, rooms: seq<string>)
    requires rooms != [] && Batch(a, b, rooms[0], []) && Whole(a, b) && Whole(b, c)
    requires forall t | t !in rooms[1..] :: Untouched(b, c, t)
    ensures Whole(a, c) && forall t | t !in rooms :: Untouched(a, c, t)
  {
    WholeOn(a, b, c);
    forall t | t !in rooms ensures Untouched(a, c, t) {
      assert t != rooms[0] && t !in rooms[1..];
      assert Untouched(a, b, t) && Untouched(b, c, t);
    }
  }

  /** A key arriving conserves everything: from the moment it is remembered on, the ring
      only grows. */
  lemma KeyIsWhole(w: World, c: Client, user: string, pubkey: PublicKey)
    requires c.sealing && HeldAreReal(c) && user != ""
    ensures Whole(c.(ring := Remember(c.ring, user, pubkey)), KeyArrived(w, c, user, pubkey))
  {
    var c0 := c.(ring := Remember(c.ring, user, pubkey));
    var c1 := Release(w, c0, user);
    var c2 := DeliverAwaiting(w, c1, user);
    ReleaseIsBatch(w, c0, user);
    BatchIsWhole(c0, c1, user);
    DeliverIsStill(w, c1, user);
    RoomsAreWhole(w, c2, w.order(|c2.wire|, HeldRooms(c2)));
    WholeOn(c0, c1, c2);
    WholeOn(c0, c2, KeyArrived(w, c, user, pubkey));
  }

  lemma DeliverIsStill(w: World, c: Client, user: string)
    ensures Still(c, DeliverAwaiting(w, c, user))
  {
    var c1 := c.(awaiting := c.awaiting - {user});
    QuietIsStill(c, c1);
    FileEachIsStill(w, c1, AwaitingFrom(c, user), user);
    StillOn(c, c1, FileEach(w, c1, AwaitingFrom(c, user), user));
  }

  // -------------------------------------------------------------- quiet steps

  lemma {:induction false} ReceiptsAreNoMail(w: World, c: Client, messages: seq<C.Message>)
    ensures forall r | r in ReadReceipts(w, c, messages) :: !r.Send?
  {
    if messages != [] { ReceiptsAreNoMail(w, c, messages[1..]); }
  }

  lemma ChooseIsQuiet(w: World, c: Client, key: string)
    ensures Quiet(c, Choose(w, c, key)) && Choose(w, c, key).ring == c.ring && Choose(w, c, key).sealing == c.sealing
  {
    ReceiptsAreNoMail(w, c, C.ConversationOf(c.model, key).messages);
  }

  lemma {:induction false} RingAfterIsOwn(c: Client, entries: seq<H.Entry>, key: string, me: string)
    ensures OwnNamesOnly(c, c.(ring := RingAfter(c, entries, key, me)))
    ensures RingAfter(c, entries, key, me).me == c.ring.me
  {
    if entries != [] { RingAfterIsOwn(c, entries[..|entries| - 1], key, me); }
  }

  /** What a step other than typing, or a key arriving, does. */
  ghost predicate QuietStep(c: Client, c': Client) {
    Quiet(c, c') && OwnNamesOnly(c, c') && c'.sealing == c.sealing
  }

  lemma MailIsQuiet(w: World, c: Client, f: Mail)
    ensures QuietStep(c, IncomingMessage(w, c, f))
  {
    FileIsQuiet(w, c, f, Attribution(f));
  }

  lemma HistoryIsQuiet(w: World, c: Client, room: string, entries: seq<H.Entry>)
    ensures QuietStep(c, HistoryArrived(w, c, room, entries))
  {
    RingAfterIsOwn(c, entries, room, if c.model.username.Some? then c.model.username.value else "");
  }

  lemma ContactsAreQuiet(w: World, c: Client, contacts: map<string, bool>)
    ensures QuietStep(c, ContactsArrived(w, c, contacts))
  {
    var c1 := Tell(c, C.ReplaceContacts(c.model, contacts));
    if c.pendingUser.Some? { ChooseIsQuiet(w, c1.(pendingUser := None), c.pendingUser.value); }
  }

  lemma RoomStateIsQuiet(w: World, c: Client, room: string, members: set<string>)
    ensures QuietStep(c, RoomStateArrived(w, c, room, members))
  {
    var c1 := Tell(c, C.SetRoomMembers(c.model, room, members));
    ChooseIsQuiet(w, c1.(pendingRoom := None), room);
  }

  lemma LoginIsQuiet(c: Client, user: string, roster: set<string>, contacts: map<string, bool>)
    ensures QuietStep(c, LoggedIn(c, user, roster, contacts))
  {}

  lemma ErrorIsQuiet(c: Client, code: H.Code)
    ensures QuietStep(c, ErrorArrived(c, code))
  {}

  lemma TellingIsQuiet(c: Client, out: C.Outcome)
    ensures QuietStep(c, Tell(c, out))
  {}

  lemma OtherFrameIsQuiet(w: World, c: Client, f: H.Frame)
    requires !f.Msg? && !f.HistoryResult? && !f.ContactList? && !f.RoomState? && !f.KeyIs?
    ensures QuietStep(c, OnFrame(w, c, f))
  {
    OnFrameIs(w, c, f);
    if f.LoginOk? {
      LoginIsQuiet(c, f.user, f.roster, f.contacts);
    } else if f.Error? {
      ErrorIsQuiet(c, f.code);
    } else {
      TellingIsQuiet(c, ModelHears(c.model, f));
    }
  }

  lemma OpenChatIsQuiet(w: World, c: Client, user: string)
    ensures QuietStep(c, OpenChat(w, c, user))
  {
    var name := Strip(user);
    ChooseIsQuiet(w, c, name);
    TellingIsQuiet(c, C.Apply(c.model, C.Refused("BAD_CONTACT")));
    PostIsQuiet(c.(pendingUser := Some(name)), H.AddContact(name));
    RoomAskIsQuiet(c, name);
  }

  lemma PostIsQuiet(c: Client, r: H.Request)
    requires !r.Send?
    ensures QuietStep(c, Post(c, r))
  {}

  lemma RoomAskIsQuiet(c: Client, room: string)
    ensures QuietStep(c, OpenRoom(c, room, []))
  {}

  lemma GestureIsQuiet(w: World, c: Client, s: Step)
    requires !s.Type? && !s.Hear? && !s.Chat?
    ensures QuietStep(c, Next(w, c, s))
  {
    if s.Open? { ChooseIsQuiet(w, c, s.key); }
  }

  lemma StepIsQuiet(w: World, c: Client, s: Step)
    requires !s.Type? && !(s.Hear? && s.frame.KeyIs?)
    ensures QuietStep(c, Next(w, c, s))
  {
    if s.Chat? { OpenChatIsQuiet(w, c, s.user); }
    else if !s.Hear? { GestureIsQuiet(w, c, s); }
    else if s.frame.Msg? { MailIsQuiet(w, c, s.frame); }
    else if s.frame.HistoryResult? { HistoryIsQuiet(w, c, s.frame.room, s.frame.entries); }
    else if s.frame.ContactList? { ContactsAreQuiet(w, c, s.frame.contacts); }
    else if s.frame.RoomState? { RoomStateIsQuiet(w, c, s.frame.room, s.frame.members); }
    else { OtherFrameIsQuiet(w, c, s.frame); }
  }

  // --------------------------------------------------------------- every run

  /** What a step types to one target: nothing, or one text. */
  function TypedNow(c: Client, s: Step, target: string): seq<string> {
    if s.Type? && c.model.active == Some(target) && !IsBlank(s.text) then [s.text] else []
  }

  /** Everything typed to one target over a run. */
  function Typed(w: World, c: Client, steps: seq<Step>, target: string): seq<string> {
    if steps == [] then [] else
      var front := steps[..|steps| - 1];
      Typed(w, c, front, target) + TypedNow(Run(w, c, front), steps[|steps| - 1], target)
  }

  /** One step of a client: nothing goes out unsealed, and every text is accounted for. */
  ghost predicate Sound(c: Client, c': Client, s: Step) {
    && c'.sealing && HeldAreReal(c') && AllSealed(c, c')
    && forall t :: Passes(c, c', t, TypedNow(c, s, t))
  }

  lemma TypingIsSound(w: World, c: Client, s: Step)
    requires c.sealing && HeldAreReal(c) && s.Type?
    ensures Sound(c, Next(w, c, s), s)
  {
    if c.model.active.Some? && !IsBlank(s.text) {
      var target := c.model.active.value;
      OneIsBatch(w, c, target, s.text);
      forall t ensures Passes(c, Send(w, c, s.text), t, TypedNow(c, s, t)) {
        assert t != target ==> Untouched(c, Send(w, c, s.text), t);
      }
    }
  }

  lemma KeyIsSound(w: World, c: Client, s: Step)
    requires c.sealing && HeldAreReal(c) && s.Hear? && s.frame.KeyIs?
    ensures Sound(c, Next(w, c, s), s)
  {
    var user, pubkey := s.frame.user, s.frame.pubkey;
    if user != "" {
      KeyIsWhole(w, c, user, pubkey);
      RememberedIsSound(c, Remember(c.ring, user, pubkey), KeyArrived(w, c, user, pubkey), s);
    }
  }

  lemma RememberedIsSound(c: Client, ring: Ring, c': Client, s: Step)
    requires c.sealing && HeldAreReal(c) && s.Hear? && Whole(c.(ring := ring), c')
    ensures Sound(c, c', s)
  {
    var c0 := c.(ring := ring);
    forall t ensures Passes(c, c', t, TypedNow(c, s, t)) { assert Passes(c0, c', t, []); }
  }

  lemma StepIsSound(w: World, c: Client, s: Step)
    requires c.sealing && HeldAreReal(c)
    ensures Sound(c, Next(w, c, s), s)
  {
    if s.Type? {
      TypingIsSound(w, c, s);
    } else if s.Hear? && s.frame.KeyIs? {
      KeyIsSound(w, c, s);
    } else {
      StepIsQuiet(w, c, s);
      QuietSends(c, Next(w, c, s));
      forall t ensures Passes(c, Next(w, c, s), t, TypedNow(c, s, t)) { assert Untouched(c, Next(w, c, s), t); }
    }
  }

  /** In every run of a client with a keyring, what was typed to anyone is, text for
      text, what was sent to them and what is still held. */
  lemma {:induction false} NothingTypedIsLost(w: World, identity: Identity, steps: seq<Step>, target: string)
    ensures var c := Run(w, NewClient(true, identity), steps);
      && multiset(Typed(w, NewClient(true, identity), steps, target))
           == multiset(SentTo(c.wire, target)) + multiset(HeldFor(c, target))
      && c.sealing && HeldAreReal(c)
  {
    if steps != [] {
      var front, s := steps[..|steps| - 1], steps[|steps| - 1];
      var c := Run(w, NewClient(true, identity), front);
      NothingTypedIsLost(w, identity, front, target);
      StepIsSound(w, c, s);
      assert Passes(c, Next(w, c, s), target, TypedNow(c, s, target));
    }
  }

  /** A request that was put on the wire at the k-th step, sealed. */
  ghost predicate SealedAt(w: World, c: Client, steps: seq<Step>, i: nat, r: H.Request, k: nat)
    requires k < |steps| && r.Send?
  {
    var before, after := Run(w, c, steps[..k]), Run(w, c, steps[..k + 1]);
    |before.wire| <= i < |after.wire| && SealedBy(r, MyName(before), C.RoomMembers(before.model, r.to), after.ring)
  }

  lemma LastStepSeals(w: World, identity: Identity, steps: seq<Step>)
    requires steps != []
    ensures AllSealed(Run(w, NewClient(true, identity), steps[..|steps| - 1]), Run(w, NewClient(true, identity), steps))
  {
    var front := steps[..|steps| - 1];
    NothingTypedIsLost(w, identity, front, "");
    StepIsSound(w, Run(w, NewClient(true, identity), front), steps[|steps| - 1]);
  }

  /** In every run, every MSG on the connection was sealed: at the step that put it there
      it was made out to exactly the members known then and the sender, or to the one
      target, each under the key the ring held. */
  lemma {:induction false} NothingGoesOutUnsealed(w: World, identity: Identity, steps: seq<Step>, i: nat)
    requires var c := Run(w, NewClient(true, identity), steps); i < |c.wire| && c.wire[i].Send?
    ensures var c0 := NewClient(true, identity);
      exists k | 0 <= k < |steps| :: SealedAt(w, c0, steps, i, Run(w, c0, steps).wire[i], k)
  {
    var c0, last := NewClient(true, identity), |steps| - 1;
    assert steps != [];
    LastStepSeals(w, identity, steps);
    var front := steps[..last];
    if i < |Run(w, c0, front).wire| {
      NothingGoesOutUnsealed(w, identity, front, i);
      var k: nat :| k < last && SealedAt(w, c0, front, i, Run(w, c0, front).wire[i], k);
      SealedEarlier(w, c0, steps, i, Run(w, c0, front).wire[i], k);
    } else {
      SealedLast(w, c0, steps, i);
    }
  }

  lemma SealedEarlier(w: World, c: Client, steps: seq<Step>, i: nat, r: H.Request, k: nat)
    requires r.Send? && k < |steps| - 1 && SealedAt(w, c, steps[..|steps| - 1], i, r, k)
    ensures SealedAt(w, c, steps, i, r, k)
  {
    var front := steps[..|steps| - 1];
    assert front[..k] == steps[..k] && front[..k + 1] == steps[..k + 1];
  }

  lemma SealedLast(w: World, c: Client, steps: seq<Step>, i: nat)
    requires steps != [] && AllSealed(Run(w, c, steps[..|steps| - 1]), Run(w, c, steps))
    ensures var before, after := Run(w, c, steps[..|steps| - 1]), Run(w, c, steps);
      |before.wire| <= i < |after.wire| && after.wire[i].Send? ==> SealedAt(w, c, steps, i, after.wire[i], |steps| - 1)
  {
    assert steps[..|steps|] == steps;
  }
}
