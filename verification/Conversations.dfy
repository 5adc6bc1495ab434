/** What the user sees: after every run of a client, each conversation holds the messages
    that were heard for it and those that were sent to it, and nothing else. */
module Conversations {
  import opened Text
  import opened Crypto
  import opened Messages
  import opened Keyrings
  import opened Controller
  import C = ChatModel
  import H = Hub
  import O = Outbound
  import I = Inbound

  // ----------------------------------------------------- reading a conversation

  /** A message but for its label, which receipts change. */
  function Bare(x: C.Message): C.Message {
    x.(state := "")
  }

  /** The messages of others, in order. */
  function Others(ms: seq<C.Message>): seq<C.Message> {
    if ms == [] then [] else
      var front, x := Others(ms[..|ms| - 1]), ms[|ms| - 1];
      if x.mine then front else front + [Bare(x)]
  }

  /** One's own messages, in order. */
  function Own(ms: seq<C.Message>): seq<C.Message> {
    if ms == [] then [] else
      var front, x := Own(ms[..|ms| - 1]), ms[|ms| - 1];
      if x.mine then front + [Bare(x)] else front
  }

  lemma OneMore(ms: seq<C.Message>, x: C.Message)
    ensures Others(ms + [x]) == if x.mine then Others(ms) else Others(ms) + [Bare(x)]
    ensures Own(ms + [x]) == if x.mine then Own(ms) + [Bare(x)] else Own(ms)
  {
    assert (ms + [x])[..|ms|] == ms;
  }

  lemma {:induction false} Relabelled(ms: seq<C.Message>, ms': seq<C.Message>)
    requires |ms'| == |ms| && forall i | 0 <= i < |ms| :: Bare(ms'[i]) == Bare(ms[i])
    ensures Others(ms') == Others(ms) && Own(ms') == Own(ms)
  {
    if ms != [] {
      Relabelled(ms[..|ms| - 1], ms'[..|ms| - 1]);
      assert Bare(ms'[|ms| - 1]) == Bare(ms[|ms| - 1]);
    }
  }

  function Talk(c: Client, key: string): seq<C.Message> {
    C.ConversationOf(c.model, key).messages
  }

  /** The messages put on the connection for one conversation, in order. */
  function SendsTo(wire: seq<H.Request>, key: string): seq<H.Request> {
    if wire == [] then [] else
      var front, r := SendsTo(wire[..|wire| - 1], key), wire[|wire| - 1];
      if r.Send? && r.to == key then front + [r] else front
  }

  lemma {:induction false} SendsMore(wire: seq<H.Request>, more: seq<H.Request>, key: string)
    ensures SendsTo(wire + more, key) == SendsTo(wire, key) + SendsTo(more, key)
  {
    if more == [] {
      assert wire + more == wire;
    } else {
      var front, r := more[..|more| - 1], more[|more| - 1];
      assert (wire + more)[..|wire + more| - 1] == wire + front;
      SendsMore(wire, front, key);
    }
  }

  lemma {:induction false} NoSends(more: seq<H.Request>, key: string)
    requires forall i | 0 <= i < |more| :: !more[i].Send?
    ensures SendsTo(more, key) == []
  {
    if more != [] { NoSends(more[..|more| - 1], key); }
  }

  // ----------------------------------------------------------- what a frame becomes

  /** Where a message belongs: the room it is for, or else the person it is from. */
  predicate BelongsTo(f: Mail, key: string) {
    key != "" && if IsRoom(f.to) then key == f.to else if f.sender != "" then key == f.sender else key == f.to
  }

  lemma AttributionIs(f: Mail, key: string)
    ensures BelongsTo(f, key) <==> key != "" && Attribution(f) == key
  {}

  /** Whose key opens it. */
  function Sealer(f: Mail): string {
    if f.sender != "" then f.sender else f.to
  }

  /** It is sealed by somebody else, whose key is not known yet. */
  predicate MustBeKept(c: Client, f: Mail) {
    && c.sealing && f.nonce.Some? && f.nonce.value != ""
    && c.model.username != Some(Sealer(f)) && Sealer(f) !in c.ring.pubkeys
  }

  /** A message heard, and the text it is shown as. */
  datatype Showing = Showing(frame: Mail, text: string)

  /** A message of another's as it stands in a conversation: the frame's id, sender and
      time (or that of its arrival, if it has none), and the text. */
  ghost predicate Shows(w: World, x: C.Message, y: Showing) {
    && x == C.Message(y.frame.id, if y.frame.sender != "" then y.frame.sender else "?", y.text, x.ts, false, "")
    && if y.frame.ts != 0 then x.ts == y.frame.ts else exists n: nat :: x.ts == w.now(n)
  }

  /** A message of one's own as it stands in a conversation, and the request that went out
      for it: the same id, time and text, sealed (if it is) in the name it stands under. */
  ghost predicate Bears(r: H.Request, x: C.Message) {
    && r.Send? && x.mine && x.id == r.id && x.ts == r.ts
    && if r.shares.Some? then
         && r.shares.value.Keys != {}
         && forall name | name in r.shares.value :: Holds(r.shares.value[name], x)
       else r.body == Text(Clear(x.body)) || (r.body.Text? && Encloses(r.body.payload, x))
  }

  predicate Encloses(p: Payload, x: C.Message) {
    p.Cipher? && p.text == x.body && p.associated == x.sender
  }

  predicate Holds(share: Share, x: C.Message) {
    share.Share? && Encloses(share.body, x)
  }

  // -------------------------------------------------------------- one change

  ghost predicate AllShow(w: World, xs: seq<C.Message>, ys: seq<Showing>) {
    |xs| == |ys| && forall i | 0 <= i < |xs| :: Shows(w, xs[i], ys[i])
  }

  ghost predicate AllBear(rs: seq<H.Request>, xs: seq<C.Message>) {
    |rs| == |xs| && forall i | 0 <= i < |rs| :: Bears(rs[i], xs[i])
  }

  /** A conversation gains these messages of others. */
  ghost predicate Hears(w: World, c: Client, c': Client, key: string, ys: seq<Showing>) {
    var o, o' := Others(Talk(c, key)), Others(Talk(c', key));
    o <= o' && AllShow(w, o'[|o|..], ys)
  }

  /** A conversation gains one own message for each one that goes out to it. */
  ghost predicate Says(c: Client, c': Client, key: string) {
    var m, m', s, s' := Own(Talk(c, key)), Own(Talk(c', key)), SendsTo(c.wire, key), SendsTo(c'.wire, key);
    m <= m' && s <= s' && AllBear(s'[|s|..], m'[|m|..])
  }

  /** Who wrote what is shown, as far as the conversation tells. */
  function Authors(ys: seq<Showing>): set<string> {
    set i | 0 <= i < |ys| :: if ys[i].frame.sender != "" then ys[i].frame.sender else "?"
  }

  /** Whoever is heard from is no longer typing; nobody else starts or stops. */
  ghost predicate Hushes(c: Client, c': Client, key: string, ys: seq<Showing>) {
    C.TypingIn(c'.model, key) == C.TypingIn(c.model, key) - Authors(ys)
  }

  /** The people on screen are the same. */
  ghost predicate SamePeople(m: C.Model, m': C.Model) {
    m'.roster == m.roster && m'.contacts == m.contacts
  }

  /** A conversation gains messages and changes in no other way; nor does who is there. */
  ghost predicate Goes(w: World, c: Client, c': Client, key: string, ys: seq<Showing>) {
    && Hears(w, c, c', key, ys) && Says(c, c', key) && c'.sealing == c.sealing
    && Talk(c, key) <= Talk(c', key) && Hushes(c, c', key, ys) && SamePeople(c.model, c'.model)
  }

  lemma ShowMore(w: World, xs: seq<C.Message>, ys: seq<Showing>, xs': seq<C.Message>, ys': seq<Showing>)
    requires AllShow(w, xs, ys) && AllShow(w, xs', ys')
    ensures AllShow(w, xs + xs', ys + ys')
  {}

  lemma BearMore(rs: seq<H.Request>, xs: seq<C.Message>, rs': seq<H.Request>, xs': seq<C.Message>)
    requires AllBear(rs, xs) && AllBear(rs', xs')
    ensures AllBear(rs + rs', xs + xs')
  {}

  lemma Tails<T>(a: seq<T>, b: seq<T>, c: seq<T>)
    requires a <= b <= c
    ensures c[|a|..] == b[|a|..] + c[|b|..]
  {}

  /** A conversation gains messages, but for the labels of those it had. */
  ghost predicate Grows(w: World, c: Client, c': Client, key: string, ys: seq<Showing>) {
    Hears(w, c, c', key, ys) && Says(c, c', key) && c'.sealing == c.sealing
  }

  lemma GrowsOn(w: World, a: Client, b: Client, c: Client, key: string, xs: seq<Showing>, ys: seq<Showing>)
    requires Grows(w, a, b, key, xs) && Grows(w, b, c, key, ys)
    ensures Grows(w, a, c, key, xs + ys)
  {
    HearsOn(w, a, b, c, key, xs, ys);
    SaysOn(a, b, c, key);
  }

  lemma HearsOn(w: World, a: Client, b: Client, c: Client, key: string, xs: seq<Showing>, ys: seq<Showing>)
    requires Hears(w, a, b, key, xs) && Hears(w, b, c, key, ys)
    ensures Hears(w, a, c, key, xs + ys)
  {
    var oa, ob, oc := Others(Talk(a, key)), Others(Talk(b, key)), Others(Talk(c, key));
    Tails(oa, ob, oc);
    ShowMore(w, ob[|oa|..], xs, oc[|ob|..], ys);
  }

  lemma SaysOn(a: Client, b: Client, c: Client, key: string)
    requires Says(a, b, key) && Says(b, c, key)
    ensures Says(a, c, key)
  {
    var ma, mb, mc := Own(Talk(a, key)), Own(Talk(b, key)), Own(Talk(c, key));
    var sa, sb, sc := SendsTo(a.wire, key), SendsTo(b.wire, key), SendsTo(c.wire, key);
    Tails(ma, mb, mc);
    Tails(sa, sb, sc);
    BearMore(sb[|sa|..], mb[|ma|..], sc[|sb|..], mc[|mb|..]);
  }

  lemma GoesOn(w: World, a: Client, b: Client, c: Client, key: string, xs: seq<Showing>, ys: seq<Showing>)
    requires Goes(w, a, b, key, xs) && Goes(w, b, c, key, ys)
    ensures Goes(w, a, c, key, xs + ys)
  {
    HearsOn(w, a, b, c, key, xs, ys);
    SaysOn(a, b, c, key);
    AuthorsMore(xs, ys);
  }

  lemma AuthorsMore(xs: seq<Showing>, ys: seq<Showing>)
    ensures Authors(xs + ys) == Authors(xs) + Authors(ys)
  {
    forall a ensures a in Authors(xs + ys) <==> a in Authors(xs) || a in Authors(ys) {
      if a in Authors(xs) {
        var i :| 0 <= i < |xs| && a == if xs[i].frame.sender != "" then xs[i].frame.sender else "?";
        assert (xs + ys)[i] == xs[i];
      }
      if a in Authors(ys) {
        var i :| 0 <= i < |ys| && a == if ys[i].frame.sender != "" then ys[i].frame.sender else "?";
        assert (xs + ys)[|xs| + i] == ys[i];
      }
    }
  }

  /** The conversation stays as it is, and nothing goes out to it. */
  ghost predicate Rests(c: Client, c': Client, key: string) {
    && Talk(c', key) == Talk(c, key) && C.TypingIn(c'.model, key) == C.TypingIn(c.model, key)
    && SendsTo(c'.wire, key) == SendsTo(c.wire, key) && c'.sealing == c.sealing && SamePeople(c.model, c'.model)
  }

  lemma RestGoes(w: World, c: Client, c': Client, key: string)
    requires Rests(c, c', key)
    ensures Goes(w, c, c', key, [])
  {}

  /** The model's conversation is the same, and no message went out. */
  lemma Unmoved(c: Client, c': Client, key: string)
    requires Talk(c', key) == Talk(c, key) && C.TypingIn(c'.model, key) == C.TypingIn(c.model, key)
    requires c'.sealing == c.sealing && SamePeople(c.model, c'.model) && c.wire <= c'.wire
    requires forall i | |c.wire| <= i < |c'.wire| :: !c'.wire[i].Send?
    ensures Rests(c, c', key)
  {
    var more := c'.wire[|c.wire|..];
    assert c'.wire == c.wire + more;
    SendsMore(c.wire, more, key);
    NoSends(more, key);
  }

  // --------------------------------------------------------------------- sending

  lemma AddedTalk(m: C.Model, k: string, x: C.Message, key: string)
    ensures C.ConversationOf(C.AddMessage(m, k, x).model, key).messages
         == if k == key then C.ConversationOf(m, key).messages + [x] else C.ConversationOf(m, key).messages
    ensures C.TypingIn(C.AddMessage(m, k, x).model, key)
         == C.TypingIn(m, key) - if k == key && !x.mine then {x.sender} else {}
    ensures SamePeople(m, C.AddMessage(m, k, x).model)
  {
    C.AddChanges(m, k, x);
  }

  lemma PutGoes(w: World, c: Client, target: string, body: Payload, nonce: Option<string>, shares: Option<map<string, Share>>,
                text: string, key: string)
    requires Bears(H.Send(target, Text(body), nonce, shares, w.id(|c.wire|), w.now(|c.wire|)), Bare(OwnMessage(w, c, text)))
    ensures Goes(w, c, Put(w, c, target, body, nonce, shares, text), key, [])
  {
    var r := H.Send(target, Text(body), nonce, shares, w.id(|c.wire|), w.now(|c.wire|));
    var x := OwnMessage(w, c, text);
    AddedTalk(c.model, target, x, key);
    SendsMore(c.wire, [r], key);
    assert [r][..0] == [];
    OneMore(Talk(c, key), x);
    SaidOne(w, c, Put(w, c, target, body, nonce, shares, text), target, r, x, key);
  }

  /** One message out, and one into its conversation. */
  lemma SaidOne(w: World, c: Client, c': Client, target: string, r: H.Request, x: C.Message, key: string)
    requires x.mine && Bears(r, Bare(x)) && c'.sealing == c.sealing
    requires Talk(c, key) <= Talk(c', key) && C.TypingIn(c'.model, key) == C.TypingIn(c.model, key) && SamePeople(c.model, c'.model)
    requires Others(Talk(c', key)) == Others(Talk(c, key))
    requires Own(Talk(c', key)) == Own(Talk(c, key)) + if key == target then [Bare(x)] else []
    requires SendsTo(c'.wire, key) == SendsTo(c.wire, key) + if key == target then [r] else []
    ensures Goes(w, c, c', key, [])
  {
    var m, m', s, s' := Own(Talk(c, key)), Own(Talk(c', key)), SendsTo(c.wire, key), SendsTo(c'.wire, key);
    assert m'[|m|..] == (if key == target then [Bare(x)] else []) && s'[|s|..] == (if key == target then [r] else []);
    assert Says(c, c', key);
    assert Authors([]) == {};
  }

  lemma HoldRests(c: Client, target: string, text: string, fetch: seq<string>, key: string)
    ensures Rests(c, Hold(c, target, text, fetch), key)
  {
    Unmoved(c, Hold(c, target, text, fetch), key);
  }

  lemma PersonGoes(w: World, c: Client, target: string, text: string, key: string)
    ensures Goes(w, c, SendToPerson(w, c, target, text), key, [])
  {
    var nonce := w.nonces(|c.wire|)(target);
    var sealed := SealFor(c.ring, target, text, MyName(c), nonce);
    var c1 := c.(ring := Asked(c.ring, target));
    if sealed.None? {
      HoldRests(c1, target, text, [target], key);
      RestGoes(w, c, SendToPerson(w, c, target, text), key);
    } else {
      PutGoes(w, c1, target, sealed.value, Some(nonce), None, text, key);
      SameTalk(w, c, c1, SendToPerson(w, c, target, text), key, []);
    }
  }

  /** A change of ring alone, before something is said. */
  lemma SameTalk(w: World, c: Client, c1: Client, c': Client, key: string, ys: seq<Showing>)
    requires Goes(w, c1, c', key, ys) && Talk(c1, key) == Talk(c, key) && C.TypingIn(c1.model, key) == C.TypingIn(c.model, key)
    requires c1.wire == c.wire && c1.sealing == c.sealing && SamePeople(c.model, c1.model)
    ensures Goes(w, c, c', key, ys)
  {}

  lemma RoomGoes(w: World, c: Client, room: string, text: string, key: string)
    ensures Goes(w, c, SendToRoom(w, c, room, text), key, [])
  {
    var members, me, c' := C.RoomMembers(c.model, room), MyName(c), SendToRoom(w, c, room, text);
    var missing := Missing(c.ring, members - {me});
    var shares := SealForMembers(c.ring, members, text, me, w.nonces(|c.wire|));
    var c1 := c.(ring := As(c.ring, me));
    if missing != {} {
      HoldRests(c, room, text, SortNames(missing), key);
      RestGoes(w, c, c', key);
    } else if shares.None? {
      HoldRests(c1, room, text, SortNames(members), key);
      RestGoes(w, c1, c', key);
      SameTalk(w, c, c1, c', key, []);
    } else {
      SharesHold(c.ring, members, text, me, w.nonces(|c.wire|), Bare(OwnMessage(w, c1, text)));
      PutGoes(w, c1, room, Clear(""), None, shares, text, key);
      SameTalk(w, c, c1, c', key, []);
    }
  }

  lemma SharesHold(r: Ring, members: set<string>, text: string, me: string, nonces: string -> string, x: C.Message)
    requires SealForMembers(r, members, text, me, nonces).Some? && x.body == text && x.sender == me
    ensures var shares := SealForMembers(r, members, text, me, nonces).value;
      shares.Keys != {} && forall name | name in shares :: Holds(shares[name], x)
  {
    assert me in SealForMembers(r, members, text, me, nonces).value.Keys;
    var ring := As(r, me);
    assert forall name | name in members + {me} :: KeyOf(ring, name).Some?;
  }

  lemma SendGoes(w: World, c: Client, text: string, key: string)
    ensures Goes(w, c, Send(w, c, text), key, [])
  {
    if c.model.active.None? || IsBlank(text) {
      RestGoes(w, c, c, key);
    } else {
      var target := c.model.active.value;
      if !c.sealing { PutGoes(w, c, target, Clear(text), None, None, text, key); }
      else if IsRoom(target) { RoomGoes(w, c, target, text, key); }
      else { PersonGoes(w, c, target, text, key); }
    }
  }

  lemma {:induction false} SendEachGoes(w: World, c: Client, texts: seq<string>, key: string)
    ensures Goes(w, c, SendEach(w, c, texts), key, [])
    decreases |texts|
  {
    if texts == [] {
      RestGoes(w, c, c, key);
    } else {
      SendGoes(w, c, texts[0], key);
      SendEachGoes(w, Send(w, c, texts[0]), texts[1..], key);
      GoesOn(w, c, Send(w, c, texts[0]), SendEach(w, Send(w, c, texts[0]), texts[1..]), key, [], []);
    }
  }

  lemma ReleaseGoes(w: World, c: Client, target: string, key: string)
    ensures Goes(w, c, Release(w, c, target), key, [])
  {
    var waiting, c1 := HeldFor(c, target), c.(held := c.held - {target});
    if waiting == [] {
      RestGoes(w, c, c1, key);
    } else {
      var c2 := OnScreen(c1, Some(target));
      SendEachGoes(w, c2, waiting, key);
      SameTalk(w, c, c2, SendEach(w, c2, waiting), key, []);
      BackOnScreen(w, c, SendEach(w, c2, waiting), c.model.active, key);
    }
  }

  lemma BackOnScreen(w: World, c: Client, c': Client, active: Option<string>, key: string)
    requires Goes(w, c, c', key, [])
    ensures Goes(w, c, OnScreen(c', active), key, [])
  {
    assert Talk(OnScreen(c', active), key) == Talk(c', key);
  }

  lemma {:induction false} RoomsGo(w: World, c: Client, rooms: seq<string>, key: string)
    ensures Goes(w, c, ReleaseRooms(w, c, rooms), key, [])
    decreases |rooms|
  {
    if rooms == [] {
      RestGoes(w, c, c, key);
    } else if Missing(c.ring, OtherMembers(c, rooms[0])) == {} {
      var c1 := Release(w, c, rooms[0]);
      ReleaseGoes(w, c, rooms[0], key);
      RoomsGo(w, c1, rooms[1..], key);
      GoesOn(w, c, c1, ReleaseRooms(w, c1, rooms[1..]), key, [], []);
    } else {
      RoomsGo(w, c, rooms[1..], key);
    }
  }

  // ------------------------------------------------------------------- receiving

  lemma FileGoes(w: World, c: Client, f: Mail, k: string, key: string)
    ensures Goes(w, c, File(w, c, f, k), key, if k == key then [Showing(f, Plaintext(w, c, f))] else [])
  {
    var c' := File(w, c, f, k);
    var x := C.Message(f.id, if f.sender != "" then f.sender else "?", Plaintext(w, c, f),
                       if f.ts != 0 then f.ts else w.now(|c.wire|), false, "SENT");
    AddedTalk(c.model, k, x, key);
    OneMore(Talk(c, key), x);
    FileSendsNothing(w, c, f, k, key);
    HeardOne(w, c, c', k, Showing(f, Plaintext(w, c, f)), x, key);
  }

  lemma FileSendsNothing(w: World, c: Client, f: Mail, k: string, key: string)
    ensures SendsTo(File(w, c, f, k).wire, key) == SendsTo(c.wire, key)
  {
    var more := File(w, c, f, k).wire[|c.wire|..];
    assert File(w, c, f, k).wire == c.wire + more;
    SendsMore(c.wire, more, key);
    NoSends(more, key);
  }

  lemma HeardOne(w: World, c: Client, c': Client, k: string, y: Showing, x: C.Message, key: string)
    requires !x.mine && Shows(w, Bare(x), y) && c'.sealing == c.sealing && SendsTo(c'.wire, key) == SendsTo(c.wire, key)
    requires Talk(c, key) <= Talk(c', key) && SamePeople(c.model, c'.model)
    requires C.TypingIn(c'.model, key) == C.TypingIn(c.model, key) - if k == key then {x.sender} else {}
    requires Own(Talk(c', key)) == Own(Talk(c, key))
    requires Others(Talk(c', key)) == Others(Talk(c, key)) + if k == key then [Bare(x)] else []
    ensures Goes(w, c, c', key, if k == key then [y] else [])
  {
    OneAuthor(y);
    assert Says(c, c', key);
  }

  lemma OneAuthor(y: Showing)
    ensures Authors([y]) == {if y.frame.sender != "" then y.frame.sender else "?"} && Authors([]) == {}
  {
    assert [y][0] == y;
  }

  /** Those of some messages that belong to one conversation. */
  function OfKey(frames: seq<Mail>, key: string): seq<Mail> {
    if frames == [] then [] else
      var front, f := OfKey(frames[..|frames| - 1], key), frames[|frames| - 1];
      if BelongsTo(f, key) then front + [f] else front
  }

  lemma {:induction false} OfKeyMore(a: seq<Mail>, b: seq<Mail>, key: string)
    ensures OfKey(a + b, key) == OfKey(a, key) + OfKey(b, key)
  {
    if b == [] {
      assert a + b == a;
    } else {
      assert (a + b)[..|a + b| - 1] == a + b[..|b| - 1];
      OfKeyMore(a, b[..|b| - 1], key);
    }
  }

  /** Some messages as a client can read them. */
  function Readings(w: World, c: Client, frames: seq<Mail>): seq<Showing> {
    seq(|frames|, i requires 0 <= i < |frames| => Showing(frames[i], Plaintext(w, c, frames[i])))
  }

  /** What opens with the key of one person reads the same for as long as that stays. */
  lemma SameReading(w: World, c0: Client, c: Client, f: Mail, user: string)
    requires c.sealing == c0.sealing && PeerOf(f) == user
    requires user in c0.ring.pubkeys && O.RingGrows(c0.ring, c.ring)
    ensures Plaintext(w, c, f) == Plaintext(w, c0, f)
  {
    assert KeyOf(c.ring, user) == KeyOf(c0.ring, user);
  }

  lemma {:induction false} FileEachGoes(w: World, c0: Client, c: Client, frames: seq<Mail>, user: string, key: string)
    requires c.sealing == c0.sealing && user in c0.ring.pubkeys && O.RingGrows(c0.ring, c.ring)
    requires forall f | f in frames :: PeerOf(f) == user && Attribution(f) != ""
    ensures Goes(w, c, FileEach(w, c, frames, user), key, Readings(w, c0, OfKey(frames, key)))
    decreases |frames|
  {
    if frames == [] {
      RestGoes(w, c, c, key);
    } else {
      var f, rest := frames[0], frames[1..];
      var k := if IsRoom(f.to) then f.to else user;
      var c1 := File(w, c, f, k);
      FirstFiled(w, c0, c, f, user, key);
      FileEachGoes(w, c0, c1, rest, user, key);
      FirstReading(w, c0, frames, key);
      GoesOn(w, c, c1, FileEach(w, c1, rest, user), key, Readings(w, c0, OfKey([f], key)), Readings(w, c0, OfKey(rest, key)));
    }
  }

  lemma FirstFiled(w: World, c0: Client, c: Client, f: Mail, user: string, key: string)
    requires c.sealing == c0.sealing && user in c0.ring.pubkeys && O.RingGrows(c0.ring, c.ring)
    requires PeerOf(f) == user && Attribution(f) != ""
    ensures var c1 := File(w, c, f, if IsRoom(f.to) then f.to else user);
      && c1.sealing == c0.sealing && O.RingGrows(c0.ring, c1.ring)
      && Goes(w, c, c1, key, Readings(w, c0, OfKey([f], key)))
  {
    var k := if IsRoom(f.to) then f.to else user;
    assert k == Attribution(f);
    FileGoes(w, c, f, k, key);
    SameReading(w, c0, c, f, user);
    O.FileIsQuiet(w, c, f, k);
    assert [f][..0] == [];
    AttributionIs(f, key);
    assert Readings(w, c0, OfKey([f], key)) == if k == key then [Showing(f, Plaintext(w, c, f))] else [];
  }

  lemma FirstReading(w: World, c: Client, frames: seq<Mail>, key: string)
    requires frames != []
    ensures Readings(w, c, OfKey(frames, key)) == Readings(w, c, OfKey([frames[0]], key)) + Readings(w, c, OfKey(frames[1..], key))
  {
    assert frames == [frames[0]] + frames[1..];
    OfKeyMore([frames[0]], frames[1..], key);
  }

  lemma DeliverGoes(w: World, c0: Client, c: Client, user: string, key: string)
    requires c.sealing == c0.sealing && user in c0.ring.pubkeys && O.RingGrows(c0.ring, c.ring) && I.WaitsRight(c)
    ensures Goes(w, c, DeliverAwaiting(w, c, user), key, Readings(w, c0, OfKey(AwaitingFrom(c, user), key)))
  {
    var c1 := c.(awaiting := c.awaiting - {user});
    FileEachGoes(w, c0, c1, AwaitingFrom(c, user), user, key);
    SameTalk(w, c, c1, DeliverAwaiting(w, c, user), key, Readings(w, c0, OfKey(AwaitingFrom(c, user), key)));
  }

  /** A client that has just learned a key. */
  function Learned(c: Client, user: string, pubkey: PublicKey): Client {
    c.(ring := Remember(c.ring, user, pubkey))
  }

  lemma KeyGoes(w: World, c: Client, user: string, pubkey: PublicKey, key: string)
    requires c.sealing && O.HeldAreReal(c) && I.WaitsRight(c) && user != ""
    ensures Goes(w, c, KeyArrived(w, c, user, pubkey), key,
                 Readings(w, Learned(c, user, pubkey), OfKey(AwaitingFrom(c, user), key)))
  {
    var c0 := Learned(c, user, pubkey);
    var c1 := Release(w, c0, user);
    var c2 := DeliverAwaiting(w, c1, user);
    var rooms := w.order(|c2.wire|, HeldRooms(c2));
    var ys := Readings(w, c0, OfKey(AwaitingFrom(c, user), key));
    O.ReleaseIsBatch(w, c0, user);
    ReleaseGoes(w, c0, user, key);
    DeliverGoes(w, c0, c1, user, key);
    RoomsGo(w, c2, rooms, key);
    GoesOn(w, c0, c1, c2, key, [], ys);
    GoesOn(w, c0, c2, ReleaseRooms(w, c2, rooms), key, [] + ys, []);
    assert [] + ys + [] == ys;
    SameTalk(w, c, c0, ReleaseRooms(w, c2, rooms), key, ys);
  }

  lemma MessageGoes(w: World, c: Client, f: Mail, key: string)
    ensures Goes(w, c, IncomingMessage(w, c, f), key,
                 if BelongsTo(f, key) && !MustBeKept(c, f) then [Showing(f, Plaintext(w, c, f))] else [])
  {
    AttributionIs(f, key);
    var c' := IncomingMessage(w, c, f);
    KeptIs(c, f);
    if Attribution(f) == "" || MustWait(c, f) {
      Unmoved(c, c', key);
      RestGoes(w, c, c', key);
    } else {
      FileGoes(w, c, f, Attribution(f), key);
    }
  }

  lemma KeptIs(c: Client, f: Mail)
    ensures MustBeKept(c, f) <==> MustWait(c, f)
  {}

  // ----------------------------------------------------------------- other steps

  /** The conversation itself is the same. */
  ghost predicate SameTalking(c: Client, c': Client, key: string) {
    Talk(c', key) == Talk(c, key) && C.TypingIn(c'.model, key) == C.TypingIn(c.model, key)
  }

  lemma QuietRests(c: Client, c': Client, key: string)
    requires O.QuietStep(c, c') && SameTalking(c, c', key) && SamePeople(c.model, c'.model)
    ensures Rests(c, c', key)
  {
    QuietSends(c, c', key);
  }

  lemma QuietSends(c: Client, c': Client, key: string)
    requires O.QuietStep(c, c')
    ensures SendsTo(c'.wire, key) == SendsTo(c.wire, key)
  {
    var more := c'.wire[|c.wire|..];
    assert c'.wire == c.wire + more;
    SendsMore(c.wire, more, key);
    NoSends(more, key);
  }

  lemma ChooseTalks(w: World, c: Client, k: string, key: string)
    ensures SameTalking(c, Choose(w, c, k), key) && SamePeople(c.model, Choose(w, c, k).model)
  {}

  lemma RoomStateTalks(w: World, c: Client, room: string, members: set<string>, key: string)
    ensures SameTalking(c, RoomStateArrived(w, c, room, members), key) && SamePeople(c.model, RoomStateArrived(w, c, room, members).model)
  {
    var c1 := Tell(c, C.SetRoomMembers(c.model, room, members));
    ChooseTalks(w, c1.(pendingRoom := None), room, key);
  }

  lemma ContactsTalk(w: World, c: Client, contacts: map<string, bool>, key: string)
    ensures SameTalking(c, ContactsArrived(w, c, contacts), key)
  {
    var c1 := Tell(c, C.ReplaceContacts(c.model, contacts));
    if c.pendingUser.Some? { ChooseTalks(w, c1.(pendingUser := None), c.pendingUser.value, key); }
  }

  lemma LoginTalks(c: Client, user: string, roster: set<string>, contacts: map<string, bool>, key: string)
    ensures SameTalking(c, LoggedIn(c, user, roster, contacts), key)
  {}

  lemma ErrorTalks(c: Client, code: H.Code, key: string)
    ensures SameTalking(c, ErrorArrived(c, code), key) && SamePeople(c.model, ErrorArrived(c, code).model)
  {
    ErrorKeepsModel(c, code);
  }

  lemma ErrorKeepsModel(c: Client, code: H.Code)
    ensures ErrorArrived(c, code).model == c.model
  {
    CorrectedKeepsModel(c, code);
    assert Raise(Corrected(c, code), CodeName(code)).model == Corrected(c, code).model;
  }

  lemma CorrectedKeepsModel(c: Client, code: H.Code)
    ensures Corrected(c, code).model == c.model
  {}

  lemma FrameTalks(w: World, c: Client, f: H.Frame, key: string)
    requires !f.Msg? && !f.KeyIs? && !ForModel(f) && !(f.HistoryResult? && f.room == key && key != "")
    ensures SameTalking(c, OnFrame(w, c, f), key)
    ensures f.LoginOk? || f.ContactList? || SamePeople(c.model, OnFrame(w, c, f).model)
  {
    OnFrameIs(w, c, f);
    if f.ContactList? { ContactsTalk(w, c, f.contacts, key); }
    else if f.RoomState? { RoomStateTalks(w, c, f.room, f.members, key); }
    else if f.LoginOk? { LoginTalks(c, f.user, f.roster, f.contacts, key); }
    else if f.Error? { ErrorTalks(c, f.code, key); }
    else { HistoryElsewhere(w, c, f.room, f.entries, key); }
  }

  lemma HistoryElsewhere(w: World, c: Client, k: string, entries: seq<H.Entry>, key: string)
    requires k != key || key == ""
    ensures SameTalking(c, HistoryArrived(w, c, k, entries), key) && SamePeople(c.model, HistoryArrived(w, c, k, entries).model)
  {}

  lemma ChatTalks(w: World, c: Client, user: string, key: string)
    ensures SameTalking(c, OpenChat(w, c, user), key) && SamePeople(c.model, OpenChat(w, c, user).model)
  {
    ChooseTalks(w, c, Strip(user), key);
    AskTalks(c, Strip(user), [], key);
    assert Raise(c, "BAD_CONTACT").model == c.model;
  }

  lemma AskTalks(c: Client, room: string, members: seq<string>, key: string)
    ensures SameTalking(c, OpenRoom(c, room, members), key) && SamePeople(c.model, OpenRoom(c, room, members).model)
  {}

  lemma GestureTalks(w: World, c: Client, s: Step, key: string)
    requires !s.Type? && !s.Hear?
    ensures SameTalking(c, Next(w, c, s), key) && SamePeople(c.model, Next(w, c, s).model)
  {
    if s.Open? { ChooseTalks(w, c, s.key, key); }
    else if s.Chat? { ChatTalks(w, c, s.user, key); }
    else if s.Room? { AskTalks(c, s.room, s.members, key); }
  }

  /** A receipt, a hint that somebody types, or one of presence. */
  predicate IsHint(s: Step) {
    s.Hear? && ForModel(s.frame)
  }

  /** A list of people. */
  predicate ListsPeople(s: Step) {
    s.Hear? && (s.frame.LoginOk? || s.frame.ContactList?)
  }

  lemma PeopleGrow(w: World, c: Client, s: Step, key: string)
    requires ListsPeople(s)
    ensures Grows(w, c, Next(w, c, s), key, [])
  {
    O.StepIsQuiet(w, c, s);
    QuietSends(c, Next(w, c, s), key);
    FrameTalks(w, c, s.frame, key);
  }

  lemma ReceiptRelabels(m: C.Model, k: string, id: string, state: string, key: string)
    ensures var ms, ms' := C.ConversationOf(m, key).messages, C.ConversationOf(C.SetReceipt(m, k, id, state).model, key).messages;
      Others(ms') == Others(ms) && Own(ms') == Own(ms)
  {
    var ms := C.ConversationOf(m, key).messages;
    Relabelled(ms, C.Receive(ms, id, state));
  }

  /** A hint changes labels at most. */
  lemma HintGrows(w: World, c: Client, s: Step, key: string)
    requires IsHint(s)
    ensures Grows(w, c, Next(w, c, s), key, [])
  {
    var c', f := Next(w, c, s), s.frame;
    OnFrameIs(w, c, f);
    O.StepIsQuiet(w, c, s);
    QuietSends(c, c', key);
    if f.ReceiptFrom? { ReceiptRelabels(c.model, f.sender, f.ref, LabelName(f.state), key); }
  }

  // -------------------------------------------------------------------- every run

  /** The messages of others that a step shows in a conversation: a message heard that can
      be read, or those that waited for the key just heard. */
  function ShownNow(w: World, c: Client, s: Step, key: string): seq<Showing> {
    if s.Hear? && s.frame.Msg? then
      (if BelongsTo(s.frame, key) && !MustBeKept(c, s.frame) then [Showing(s.frame, Plaintext(w, c, s.frame))] else [])
    else if s.Hear? && s.frame.KeyIs? && s.frame.user != "" && c.sealing then
      Readings(w, Learned(c, s.frame.user, s.frame.pubkey), OfKey(AwaitingFrom(c, s.frame.user), key))
    else []
  }

  predicate Loads(s: Step, key: string) {
    s.Hear? && s.frame.HistoryResult? && s.frame.room == key && key != ""
  }

  /** What every client that runs keeps. */
  ghost predicate Sound(c: Client) {
    c.sealing ==> O.HeldAreReal(c) && I.WaitsRight(c)
  }

  lemma StepGoes(w: World, c: Client, s: Step, key: string)
    requires Sound(c) && !Loads(s, key) && !IsHint(s) && !ListsPeople(s)
    ensures Goes(w, c, Next(w, c, s), key, ShownNow(w, c, s, key))
  {
    var c' := Next(w, c, s);
    if s.Type? {
      SendGoes(w, c, s.text, key);
    } else if s.Hear? && s.frame.Msg? {
      OnFrameIs(w, c, s.frame);
      MessageGoes(w, c, s.frame, key);
    } else if s.Hear? && s.frame.KeyIs? {
      OnFrameIs(w, c, s.frame);
      if s.frame.user != "" && c.sealing { KeyGoes(w, c, s.frame.user, s.frame.pubkey, key); }
      else { RestGoes(w, c, c', key); }
    } else {
      O.StepIsQuiet(w, c, s);
      if s.Hear? { FrameTalks(w, c, s.frame, key); } else { GestureTalks(w, c, s, key); }
      QuietRests(c, c', key);
      RestGoes(w, c, c', key);
    }
  }

  /** The messages of others shown in a conversation by the later ones of some steps, in
      order. */
  function ShownAfter(w: World, c: Client, before: seq<Step>, after: seq<Step>, key: string): seq<Showing> {
    if after == [] then [] else
      var front := after[..|after| - 1];
      ShownAfter(w, c, before, front, key) + ShownNow(w, Run(w, c, before + front), after[|after| - 1], key)
  }

  lemma StepGrows(w: World, c: Client, s: Step, key: string)
    requires Sound(c) && !Loads(s, key)
    ensures Grows(w, c, Next(w, c, s), key, ShownNow(w, c, s, key))
  {
    if IsHint(s) { HintGrows(w, c, s, key); } else if ListsPeople(s) { PeopleGrow(w, c, s, key); } else { StepGoes(w, c, s, key); }
  }

  lemma {:induction false} EveryClientIsSound(w: World, sealing: bool, identity: Identity, steps: seq<Step>)
    ensures var c := Run(w, NewClient(sealing, identity), steps); c.sealing == sealing && Sound(c)
  {
    if sealing {
      O.NothingTypedIsLost(w, identity, steps, "");
      I.EveryMessageIsFiledOnce(w, identity, steps, "");
    } else if steps != [] {
      EveryClientIsSound(w, sealing, identity, steps[..|steps| - 1]);
      StepGrows(w, Run(w, NewClient(sealing, identity), steps[..|steps| - 1]), steps[|steps| - 1], "");
    }
  }

  lemma {:induction false} RunLast(w: World, c: Client, front: seq<Step>, s: Step, all: seq<Step>)
    requires all == front + [s]
    ensures Run(w, c, all) == Next(w, Run(w, c, front), s)
  {
    assert all[..|all| - 1] == front && all[|all| - 1] == s;
  }

  lemma {:induction false} RunOn(w: World, c: Client, before: seq<Step>, after: seq<Step>)
    requires after != []
    ensures var front := after[..|after| - 1];
      Run(w, c, before + after) == Next(w, Run(w, c, before + front), after[|after| - 1])
  {
    RunLast(w, c, before + after[..|after| - 1], after[|after| - 1], before + after);
  }

  /** From any moment of any run on, until its history is loaded, a conversation gains
      exactly the messages that the steps show in it, in order and with their ids, senders,
      times and texts, and exactly one own message for each one that goes out to it. */
  lemma {:induction false} ConversationsGrow(w: World, sealing: bool, identity: Identity, before: seq<Step>, after: seq<Step>, key: string)
    requires forall i | 0 <= i < |after| :: !Loads(after[i], key)
    ensures var c0 := NewClient(sealing, identity);
      Grows(w, Run(w, c0, before), Run(w, c0, before + after), key, ShownAfter(w, c0, before, after, key))
  {
    var c0 := NewClient(sealing, identity);
    if after == [] {
      assert before + after == before;
      RestGoes(w, Run(w, c0, before), Run(w, c0, before), key);
    } else {
      var front, s := after[..|after| - 1], after[|after| - 1];
      ConversationsGrow(w, sealing, identity, before, front, key);
      EveryClientIsSound(w, sealing, identity, before + front);
      RunOn(w, c0, before, after);
      StepGrows(w, Run(w, c0, before + front), s, key);
      GrowsOn(w, Run(w, c0, before), Run(w, c0, before + front), Run(w, c0, before + after), key,
              ShownAfter(w, c0, before, front, key), ShownNow(w, Run(w, c0, before + front), s, key));
    }
  }
}
