/** Every message heard is shown once, in the conversation it belongs to, or still waits
    for its sender's key: told from the frames heard and the model alone. */
module Shown {
  import opened Text
  import opened Crypto
  import opened Keyrings
  import opened Controller
  import opened Conversations
  import C = ChatModel
  import H = Hub
  import O = Outbound
  import I = Inbound

  /** The messages heard for one conversation that one person's key opens, in order. */
  function Heard(steps: seq<Step>, key: string, peer: string): seq<Mail> {
    if steps == [] then [] else
      var front, s := Heard(steps[..|steps| - 1], key, peer), steps[|steps| - 1];
      if s.Hear? && s.frame.Msg? && BelongsTo(s.frame, key) && Sealer(s.frame) == peer then front + [s.frame] else front
  }

  /** Those of the messages shown that one person's key opens. */
  function FramesBy(ys: seq<Showing>, peer: string): seq<Mail> {
    if ys == [] then [] else
      var front, y := FramesBy(ys[..|ys| - 1], peer), ys[|ys| - 1];
      if Sealer(y.frame) == peer then front + [y.frame] else front
  }

  lemma {:induction false} FramesMore(a: seq<Showing>, b: seq<Showing>, peer: string)
    ensures FramesBy(a + b, peer) == FramesBy(a, peer) + FramesBy(b, peer)
  {
    if b == [] {
      assert a + b == a;
    } else {
      assert (a + b)[..|a + b| - 1] == a + b[..|b| - 1];
      FramesMore(a, b[..|b| - 1], peer);
    }
  }

  lemma SealerIs(f: Mail)
    requires Attribution(f) != ""
    ensures Sealer(f) == PeerOf(f)
  {}

  lemma {:induction false} HeardIs(steps: seq<Step>, key: string, peer: string)
    ensures OfKey(I.HeardFrom(steps, peer), key) == Heard(steps, key, peer)
  {
    if steps != [] {
      var front, s := steps[..|steps| - 1], steps[|steps| - 1];
      HeardIs(front, key, peer);
      if I.Brings(s, peer) {
        SealerIs(s.frame);
        OfKeyMore(I.HeardFrom(front, peer), [s.frame], key);
        assert [s.frame][..0] == [];
      } else if s.Hear? && s.frame.Msg? {
        AttributionIs(s.frame, key);
      }
    }
  }

  // ------------------------------------------- what is shown is what was filed

  lemma {:induction false} ReadingFrames(w: World, c: Client, frames: seq<Mail>, user: string, peer: string)
    requires forall f | f in frames :: Sealer(f) == user
    ensures FramesBy(Readings(w, c, frames), peer) == if peer == user then frames else []
  {
    if frames != [] {
      var front := frames[..|frames| - 1];
      ReadingFrames(w, c, front, user, peer);
      assert Readings(w, c, frames)[..|frames| - 1] == Readings(w, c, front);
      assert frames[|frames| - 1] in frames;
    }
  }

  lemma {:induction false} OfKeyIn(frames: seq<Mail>, key: string)
    ensures forall f | f in OfKey(frames, key) :: f in frames
  {
    if frames != [] { OfKeyIn(frames[..|frames| - 1], key); }
  }

  lemma KeyFiles(w: World, c: Client, user: string, pubkey: PublicKey, peer: string)
    requires c.sealing && O.HeldAreReal(c) && I.WaitsRight(c) && user != ""
    ensures I.FiledFrom(KeyArrived(w, c, user, pubkey).filed, peer)
         == I.FiledFrom(c.filed, peer) + if peer == user then AwaitingFrom(c, user) else []
  {
    var c0 := Learned(c, user, pubkey);
    var c1 := Release(w, c0, user);
    var c2 := DeliverAwaiting(w, c1, user);
    O.ReleaseIsBatch(w, c0, user);
    O.BatchIsWhole(c0, c1, user);
    O.DeliverIsStill(w, c1, user);
    I.FileEachFiles(w, c1.(awaiting := c1.awaiting - {user}), AwaitingFrom(c1, user), user, peer);
    I.RoomsAside(w, c2, w.order(|c2.wire|, HeldRooms(c2)));
  }

  /** What a step shows in a conversation is what it files there. */
  lemma StepFiled(w: World, c: Client, s: Step, key: string, peer: string)
    requires c.sealing && O.HeldAreReal(c) && I.WaitsRight(c)
    ensures OfKey(I.FiledFrom(Next(w, c, s).filed, peer), key)
         == OfKey(I.FiledFrom(c.filed, peer), key) + FramesBy(ShownNow(w, c, s, key), peer)
  {
    if s.Hear? && s.frame.Msg? {
      MessageFiled(w, c, s.frame, key, peer);
      OnFrameIs(w, c, s.frame);
    } else if s.Hear? && s.frame.KeyIs? && s.frame.user != "" {
      KeyFiled(w, c, s.frame.user, s.frame.pubkey, key, peer);
      OnFrameIs(w, c, s.frame);
    } else {
      I.StepAside(w, c, s);
      assert OfKey(I.FiledFrom(c.filed, peer), key) + [] == OfKey(I.FiledFrom(c.filed, peer), key);
    }
  }

  lemma MessageFiled(w: World, c: Client, f: Mail, key: string, peer: string)
    ensures OfKey(I.FiledFrom(IncomingMessage(w, c, f).filed, peer), key)
         == OfKey(I.FiledFrom(c.filed, peer), key) + FramesBy(ShownNow(w, c, Hear(f), key), peer)
  {
    AttributionIs(f, key);
    KeptIs(c, f);
    var now := ShownNow(w, c, Hear(f), key);
    assert now != [] ==> now[..0] == [];
    if Attribution(f) != "" && !MustWait(c, f) {
      SealerIs(f);
      I.FileTakes(w, c, f, Attribution(f), peer);
      OfKeyMore(I.FiledFrom(c.filed, peer), if PeerOf(f) == peer then [f] else [], key);
      assert [f][..0] == [];
    }
  }

  lemma KeyFiled(w: World, c: Client, user: string, pubkey: PublicKey, key: string, peer: string)
    requires c.sealing && O.HeldAreReal(c) && I.WaitsRight(c) && user != ""
    ensures OfKey(I.FiledFrom(KeyArrived(w, c, user, pubkey).filed, peer), key)
         == OfKey(I.FiledFrom(c.filed, peer), key)
            + FramesBy(Readings(w, Learned(c, user, pubkey), OfKey(AwaitingFrom(c, user), key)), peer)
  {
    var frames := AwaitingFrom(c, user);
    KeyFiles(w, c, user, pubkey, peer);
    OfKeyMore(I.FiledFrom(c.filed, peer), if peer == user then frames else [], key);
    OfKeyIn(frames, key);
    forall f | f in OfKey(frames, key) ensures Sealer(f) == user { SealerIs(f); }
    ReadingFrames(w, Learned(c, user, pubkey), OfKey(frames, key), user, peer);
  }

  lemma {:induction false} ShownIsFiled(w: World, identity: Identity, steps: seq<Step>, key: string, peer: string)
    ensures var c0 := NewClient(true, identity);
      OfKey(I.FiledFrom(Run(w, c0, steps).filed, peer), key) == FramesBy(ShownAfter(w, c0, [], steps, key), peer)
  {
    var c0 := NewClient(true, identity);
    if steps != [] {
      var front, s := steps[..|steps| - 1], steps[|steps| - 1];
      ShownIsFiled(w, identity, front, key, peer);
      EveryClientIsSound(w, true, identity, front);
      StepFiled(w, Run(w, c0, front), s, key, peer);
      assert [] + front == front;
      FramesMore(ShownAfter(w, c0, [], front, key), ShownNow(w, Run(w, c0, front), s, key), peer);
    }
  }

  // ---------------------------------------------------------------- the theorems

  lemma {:induction false} OfKeyCount(frames: seq<Mail>, key: string, f: Mail)
    ensures multiset(OfKey(frames, key))[f] == if BelongsTo(f, key) then multiset(frames)[f] else 0
  {
    if frames != [] {
      var front, last := frames[..|frames| - 1], frames[|frames| - 1];
      assert frames == front + [last];
      OfKeyCount(front, key, f);
    }
  }

  lemma SplitByKey(all: seq<Mail>, a: seq<Mail>, b: seq<Mail>, key: string)
    requires multiset(all) == multiset(a) + multiset(b)
    ensures multiset(OfKey(all, key)) == multiset(OfKey(a, key)) + multiset(OfKey(b, key))
  {
    var x, y, z := multiset(OfKey(all, key)), multiset(OfKey(a, key)), multiset(OfKey(b, key));
    forall f ensures x[f] == (y + z)[f] {
      OfKeyCount(all, key, f);
      OfKeyCount(a, key, f);
      OfKeyCount(b, key, f);
      CountSum(multiset(all), multiset(a), multiset(b), f);
    }
  }

  lemma CountSum(all: multiset<Mail>, a: multiset<Mail>, b: multiset<Mail>, f: Mail)
    requires all == a + b
    ensures all[f] == a[f] + b[f]
  {}

  /** A conversation as the frames heard and the messages sent make it. */
  ghost predicate IsAsHeard(w: World, c: Client, key: string, shown: seq<Showing>) {
    AllShow(w, Others(Talk(c, key)), shown) && AllBear(SendsTo(c.wire, key), Own(Talk(c, key)))
  }

  lemma {:induction false} ConversationIsAsHeard(w: World, sealing: bool, identity: Identity, steps: seq<Step>, key: string)
    requires forall i | 0 <= i < |steps| :: !Loads(steps[i], key)
    ensures var c0 := NewClient(sealing, identity); IsAsHeard(w, Run(w, c0, steps), key, ShownAfter(w, c0, [], steps, key))
  {
    ConversationsGrow(w, sealing, identity, [], steps, key);
    assert [] + steps == steps;
  }

  /** In every run of a client with a keyring, a conversation whose history was not loaded
      holds of others exactly one message for each frame heard that belongs to it and does
      not wait for its sender's key, with the frame's id, sender, time and the text it
      opened to; and of oneself exactly one for each message that went out to it, with its
      id, time and text. */
  lemma EveryMessageIsShown(w: World, identity: Identity, steps: seq<Step>, key: string, peer: string)
    requires forall i | 0 <= i < |steps| :: !Loads(steps[i], key)
    ensures var c0 := NewClient(true, identity);
      var c, shown := Run(w, c0, steps), ShownAfter(w, c0, [], steps, key);
      && IsAsHeard(w, c, key, shown)
      && multiset(Heard(steps, key, peer)) == multiset(FramesBy(shown, peer)) + multiset(OfKey(AwaitingFrom(c, peer), key))
  {
    ConversationIsAsHeard(w, true, identity, steps, key);
    ShownIsFiled(w, identity, steps, key, peer);
    var c := Run(w, NewClient(true, identity), steps);
    I.EveryMessageIsFiledOnce(w, identity, steps, peer);
    SplitByKey(I.HeardFrom(steps, peer), I.FiledFrom(c.filed, peer), AwaitingFrom(c, peer), key);
    HeardIs(steps, key, peer);
  }

  lemma SealedNext(frames: seq<Mail>, f: Mail)
    ensures I.Sealed(frames + [f]) == if Encrypted(f) then I.Sealed(frames) + [f] else I.Sealed(frames)
  {
    assert (frames + [f])[..|frames|] == frames;
  }

  lemma OfKeyNext(frames: seq<Mail>, f: Mail, key: string)
    ensures OfKey(frames + [f], key) == if BelongsTo(f, key) then OfKey(frames, key) + [f] else OfKey(frames, key)
  {
    assert (frames + [f])[..|frames|] == frames;
  }

  lemma {:induction false} SealedOfKey(frames: seq<Mail>, key: string)
    ensures I.Sealed(OfKey(frames, key)) == OfKey(I.Sealed(frames), key)
  {
    if frames != [] {
      var front, last := frames[..|frames| - 1], frames[|frames| - 1];
      SealedOfKey(front, key);
      SealedNext(OfKey(front, key), last);
      OfKeyNext(I.Sealed(front), last, key);
    }
  }

  /** And the encrypted ones of any person whose name was never taken for the client's own
      are shown there in the order heard; those that wait come after all that are shown. */
  lemma MessagesAreShownInOrder(w: World, identity: Identity, steps: seq<Step>, key: string, peer: string)
    requires I.AlwaysStranger(w, NewClient(true, identity), steps, peer)
    ensures var c0 := NewClient(true, identity);
      var c, shown := Run(w, c0, steps), ShownAfter(w, c0, [], steps, key);
      I.Sealed(Heard(steps, key, peer)) == I.Sealed(FramesBy(shown, peer)) + OfKey(AwaitingFrom(c, peer), key)
  {
    var c := Run(w, NewClient(true, identity), steps);
    I.MessagesAreFiledInOrder(w, identity, steps, peer);
    ShownIsFiled(w, identity, steps, key, peer);
    HeardIs(steps, key, peer);
    SealedOfKey(I.HeardFrom(steps, peer), key);
    SealedOfKey(I.FiledFrom(c.filed, peer), key);
    OfKeyMore(I.Sealed(I.FiledFrom(c.filed, peer)), AwaitingFrom(c, peer), key);
  }

  /** A client without a keyring shows everything at once: what is shown of a person in a
      conversation is all that was heard, in order. */
  lemma {:induction false} PlainClientsShowAll(w: World, identity: Identity, steps: seq<Step>, key: string, peer: string)
    ensures FramesBy(ShownAfter(w, NewClient(false, identity), [], steps, key), peer) == Heard(steps, key, peer)
  {
    var c0 := NewClient(false, identity);
    if steps != [] {
      var front, s := steps[..|steps| - 1], steps[|steps| - 1];
      PlainClientsShowAll(w, identity, front, key, peer);
      EveryClientIsSound(w, false, identity, front);
      assert [] + front == front;
      var now := ShownNow(w, Run(w, c0, front), s, key);
      FramesMore(ShownAfter(w, c0, [], front, key), now, peer);
      assert now != [] ==> now[..0] == [];
    }
  }
}
