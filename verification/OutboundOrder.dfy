/** Texts to one person go out in the order they were typed. */
module OutboundOrder {
  import opened Text
  import opened Crypto
  import opened Keyrings
  import opened Controller
  import opened Outbound
  import H = Hub

  /** A dictionary lists no key it does not hold. */
  ghost predicate Orderly(w: World) {
    forall n: nat, keys: set<string>, key: string | key in w.order(n, keys) :: key in keys
  }

  /** Somebody the ring does not take for the client itself: no room message was last
      sealed under this name. */
  ghost predicate Other(c: Client, t: string) {
    c.ring.me == t ==> t == ""
  }

  /** Texts wait for a person only while their key is unknown. */
  ghost predicate WaitsForKey(c: Client, t: string) {
    HeldFor(c, t) != [] ==> t !in c.ring.pubkeys
  }

  ghost predicate InOrder(c: Client, c': Client, t: string, texts: seq<string>) {
    SentTo(c'.wire, t) + HeldFor(c', t) == SentTo(c.wire, t) + HeldFor(c, t) + texts
  }

  /** What a step keeps about one other person. */
  ghost predicate Kept(c: Client, c': Client, t: string, texts: seq<string>) {
    InOrder(c, c', t, texts) && WaitsForKey(c', t)
  }

  lemma TypingKept(w: World, c: Client, s: Step, t: string)
    requires c.sealing && s.Type? && !IsRoom(t) && Other(c, t) && Other(Next(w, c, s), t) && WaitsForKey(c, t)
    ensures Kept(c, Next(w, c, s), t, TypedNow(c, s, t))
  {
    if c.model.active.Some? && !IsBlank(s.text) {
      TextSends(w, c, s.text);
      if c.model.active.value == t {
        PersonKept(w, c, t, s.text);
      } else {
        UntouchedKept(c, Next(w, c, s), t);
      }
    } else {
      assert SentTo(c.wire, t) + HeldFor(c, t) + [] == SentTo(c.wire, t) + HeldFor(c, t);
    }
  }

  lemma PersonKept(w: World, c: Client, t: string, text: string)
    requires !IsRoom(t) && Other(c, t) && WaitsForKey(c, t)
    ensures Kept(c, SendToPerson(w, c, t, text), t, [text])
  {
    var c' := SendToPerson(w, c, t, text);
    PersonSends(w, c, t, text);
    assert t in c'.ring.pubkeys ==> t in c.ring.pubkeys;
    if t in c'.ring.pubkeys {
      assert HeldFor(c, t) == [];
    } else {
      assert SentTo(c.wire, t) + (HeldFor(c, t) + [text]) == SentTo(c.wire, t) + HeldFor(c, t) + [text];
    }
  }

  lemma UntouchedKept(c: Client, c': Client, t: string)
    requires Other(c, t) && Other(c', t) && WaitsForKey(c, t) && Untouched(c, c', t) && OwnNamesOnly(c, c')
    ensures Kept(c, c', t, [])
  {
    assert SentTo(c.wire, t) + HeldFor(c, t) + [] == SentTo(c.wire, t) + HeldFor(c, t);
  }

  // ------------------------------------------------------------- a key arrives

  /** With the key known, everything goes out at once. */
  ghost predicate GoesOut(c: Client, c': Client, t: string, texts: seq<string>) {
    && HeldFor(c', t) == HeldFor(c, t) && SentTo(c'.wire, t) == SentTo(c.wire, t) + texts
    && t in c'.ring.pubkeys && c'.sealing && c'.model.active == Some(t)
  }

  lemma GoesOutOn(a: Client, b: Client, c: Client, t: string, texts: seq<string>)
    requires texts != [] && GoesOut(a, b, t, [texts[0]]) && GoesOut(b, c, t, texts[1..])
    ensures GoesOut(a, c, t, texts)
  {
    assert texts == [texts[0]] + texts[1..];
    assert SentTo(a.wire, t) + [texts[0]] + texts[1..] == SentTo(a.wire, t) + texts;
  }

  lemma {:induction false} EachGoesOut(w: World, c: Client, t: string, texts: seq<string>)
    requires c.sealing && c.model.active == Some(t) && NoneBlank(texts) && !IsRoom(t) && t in c.ring.pubkeys
    ensures GoesOut(c, SendEach(w, c, texts), t, texts)
    decreases |texts|
  {
    if texts == [] {
      assert SentTo(c.wire, t) + [] == SentTo(c.wire, t);
    } else {
      var c1 := Send(w, c, texts[0]);
      OneGoesOut(w, c, t, texts[0]);
      EachGoesOut(w, c1, t, texts[1..]);
      GoesOutOn(c, c1, SendEach(w, c1, texts[1..]), t, texts);
    }
  }

  lemma OneGoesOut(w: World, c: Client, t: string, text: string)
    requires c.sealing && c.model.active == Some(t) && !IsBlank(text) && !IsRoom(t) && t in c.ring.pubkeys
    ensures GoesOut(c, Send(w, c, text), t, [text])
  {
    PersonSends(w, c, t, text);
  }

  lemma ReleaseGoesOut(w: World, c: Client, t: string)
    requires c.sealing && HeldAreReal(c) && !IsRoom(t) && t in c.ring.pubkeys
    ensures var c' := Release(w, c, t);
      HeldFor(c', t) == [] && SentTo(c'.wire, t) == SentTo(c.wire, t) + HeldFor(c, t)
  {
    var c1 := c.(held := c.held - {t});
    if HeldFor(c, t) != [] {
      EachGoesOut(w, OnScreen(c1, Some(t)), t, HeldFor(c, t));
    }
  }

  /** What the rest of a key's arrival does to one other person: nothing. */
  lemma AfterRelease(w: World, c: Client, c1: Client, user: string, t: string)
    requires Orderly(w) && c.sealing && HeldAreReal(c) && !IsRoom(t) && Batch(c, c1, user, [])
    ensures var c2 := DeliverAwaiting(w, c1, user);
      var c3 := ReleaseRooms(w, c2, w.order(|c2.wire|, HeldRooms(c2)));
      Untouched(c1, c3, t) && Whole(c, c3)
  {
    var c2 := DeliverAwaiting(w, c1, user);
    var rooms := w.order(|c2.wire|, HeldRooms(c2));
    DeliverIsStill(w, c1, user);
    RoomsAreWhole(w, c2, rooms);
    BatchIsWhole(c, c1, user);
    WholeOn(c, c1, c2);
    WholeOn(c, c2, ReleaseRooms(w, c2, rooms));
    assert t !in rooms;
    assert Untouched(c1, c2, t);
  }

  lemma KeyKept(w: World, c: Client, user: string, pubkey: PublicKey, t: string)
    requires Orderly(w) && c.sealing && HeldAreReal(c) && !IsRoom(t) && WaitsForKey(c, t) && user != ""
    requires Other(c, t) && Other(KeyArrived(w, c, user, pubkey), t)
    ensures Kept(c, KeyArrived(w, c, user, pubkey), t, [])
  {
    var c0 := c.(ring := Remember(c.ring, user, pubkey));
    var c1, c' := Release(w, c0, user), KeyArrived(w, c, user, pubkey);
    ReleaseIsBatch(w, c0, user);
    AfterRelease(w, c0, c1, user, t);
    if t == user {
      ReleaseGoesOut(w, c0, t);
      ReleasedKept(c0, c1, c', t);
    } else {
      PassedBy(c0, c1, c', user, t);
    }
    SameForAll(c, c0, c', t);
  }

  lemma ReleasedKept(c0: Client, c1: Client, c': Client, t: string)
    requires HeldFor(c1, t) == [] && SentTo(c1.wire, t) == SentTo(c0.wire, t) + HeldFor(c0, t)
    requires Untouched(c1, c', t) && OwnNamesOnly(c0, c')
    ensures Kept(c0, c', t, [])
  {
    assert SentTo(c'.wire, t) + [] == SentTo(c0.wire, t) + HeldFor(c0, t) + [];
  }

  lemma PassedBy(c0: Client, c1: Client, c': Client, user: string, t: string)
    requires Other(c0, t) && Other(c', t) && t != user && WaitsForKey(c0, t) && Batch(c0, c1, user, [])
    requires Untouched(c1, c', t) && OwnNamesOnly(c0, c')
    ensures Kept(c0, c', t, [])
  {
    assert Untouched(c0, c1, t);
    UntouchedKept(c0, c', t);
  }

  lemma SameForAll(c: Client, c0: Client, c': Client, t: string)
    requires c0 == c.(ring := c0.ring) && Kept(c0, c', t, [])
    ensures Kept(c, c', t, [])
  {}

  // ----------------------------------------------------------------- every run

  lemma StepKept(w: World, c: Client, s: Step, t: string)
    requires Orderly(w) && c.sealing && HeldAreReal(c) && !IsRoom(t) && WaitsForKey(c, t)
    requires Other(c, t) && Other(Next(w, c, s), t)
    ensures Kept(c, Next(w, c, s), t, TypedNow(c, s, t))
  {
    if s.Type? {
      TypingKept(w, c, s, t);
    } else if s.Hear? && s.frame.KeyIs? && s.frame.user != "" {
      KeyKept(w, c, s.frame.user, s.frame.pubkey, t);
    } else if s.Hear? && s.frame.KeyIs? {
      UntouchedKept(c, c, t);
    } else {
      StepIsQuiet(w, c, s);
      QuietSends(c, Next(w, c, s));
      assert Untouched(c, Next(w, c, s), t);
      UntouchedKept(c, Next(w, c, s), t);
    }
  }

  /** At no point of a run did the ring take this name for the client's own, that is, no
      room message was sealed under it. */
  ghost predicate NeverOwn(w: World, c: Client, steps: seq<Step>, t: string) {
    forall k | 0 <= k <= |steps| :: Other(Run(w, c, steps[..k]), t)
  }

  lemma NeverBefore(w: World, c: Client, steps: seq<Step>, t: string)
    requires steps != [] && NeverOwn(w, c, steps, t)
    ensures NeverOwn(w, c, steps[..|steps| - 1], t)
    ensures Other(Run(w, c, steps[..|steps| - 1]), t) && Other(Run(w, c, steps), t)
  {
    var front := steps[..|steps| - 1];
    forall k | 0 <= k <= |front| ensures Other(Run(w, c, front[..k]), t) { assert front[..k] == steps[..k]; }
    assert steps[..|steps|] == steps && front[..|front|] == front;
  }

  /** In every run of a client with a keyring, texts to any one person other than oneself
      go out in the order typed, and wait only while that person's key is unknown. */
  lemma {:induction false} TextsGoOutInOrder(w: World, identity: Identity, steps: seq<Step>, t: string)
    requires Orderly(w) && !IsRoom(t) && NeverOwn(w, NewClient(true, identity), steps, t)
    ensures var c := Run(w, NewClient(true, identity), steps);
      Typed(w, NewClient(true, identity), steps, t) == SentTo(c.wire, t) + HeldFor(c, t) && WaitsForKey(c, t)
  {
    var c0 := NewClient(true, identity);
    if steps != [] {
      var front, s := steps[..|steps| - 1], steps[|steps| - 1];
      NeverBefore(w, c0, steps, t);
      TextsGoOutInOrder(w, identity, front, t);
      NothingTypedIsLost(w, identity, front, t);
      StepKept(w, Run(w, c0, front), s, t);
    }
  }
}
