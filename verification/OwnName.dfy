/** Why the order of outgoing texts is promised only for other people: a run in which a
    later text to one's own name overtakes one that is held. */
module OwnName {
  import opened Text
  import opened Crypto
  import opened Messages
  import opened Keyrings
  import opened Controller
  import opened Outbound
  import V = ControllerViews
  import C = ChatModel
  import H = Hub

  const ME := "bob"
  const ROOM := "#r"

  lemma RunMore(w: World, c: Client, steps: seq<Step>, s: Step, target: string)
    ensures Run(w, c, steps + [s]) == Next(w, Run(w, c, steps), s)
    ensures Typed(w, c, steps + [s], target) == Typed(w, c, steps, target) + TypedNow(Run(w, c, steps), s, target)
  {
    assert (steps + [s])[..|steps|] == steps;
  }

  /** How things stand with one's own name. */
  ghost predicate Stands(c: Client, sent: seq<string>, held: seq<string>, me: string, active: Option<string>) {
    && c.sealing && c.ring.me == me && c.model.rooms == map[] && c.model.active == active
    && (ME in c.ring.pubkeys <==> me == ME)
    && SentTo(c.wire, ME) == sent && HeldFor(c, ME) == held
  }

  lemma Opens(w: World, c: Client, key: string, sent: seq<string>, held: seq<string>, me: string)
    requires Stands(c, sent, held, me, c.model.active)
    ensures Stands(Choose(w, c, key), sent, held, me, Some(key)) && Choose(w, c, key).model.username == c.model.username
  {
    ChooseIsQuiet(w, c, key);
    QuietSends(c, Choose(w, c, key));
    V.ChosenIs(w, c, key);
    assert Untouched(c, Choose(w, c, key), ME);
  }

  lemma LogsIn(w: World, c: Client, sent: seq<string>, held: seq<string>, active: Option<string>)
    requires Stands(c, sent, held, "", active)
    ensures var c' := LoggedIn(c, ME, {}, map[]);
      Stands(c', sent, held, "", active) && c'.model.username == Some(ME)
  {
    var c' := LoggedIn(c, ME, {}, map[]);
    LoginIsQuiet(c, ME, {}, map[]);
    QuietSends(c, c');
    assert Untouched(c, c', ME);
    LoggedInModel(c);
  }

  lemma LoggedInModel(c: Client)
    ensures var c' := LoggedIn(c, ME, {}, map[]);
      c'.model.username == Some(ME) && c'.model.rooms == c.model.rooms && c'.model.active == c.model.active && c'.ring == c.ring
  {
    assert ME != "";
  }

  /** The first text is held: nobody's key is known. */
  lemma FirstIsHeld(w: World, c: Client)
    requires Stands(c, [], [], "", Some(ME))
    ensures Stands(Send(w, c, "a"), [], ["a"], "", Some(ME))
  {
    assert !IsSpace("a"[0]) && !IsRoom(ME);
    PersonSends(w, c, ME, "a");
    assert Asked(c.ring, ME) == c.ring;
  }

  /** A room message goes out under one's name, and the ring takes that name for its own. */
  lemma RoomTeachesTheRing(w: World, c: Client)
    requires Stands(c, [], ["a"], "", Some(ROOM)) && c.model.username == Some(ME)
    ensures Stands(Send(w, c, "x"), [], ["a"], ME, Some(ROOM))
  {
    assert !IsSpace("x"[0]) && IsRoom(ROOM) && MyName(c) == ME && ME[0] != ROOM[0];
    RoomSends(w, c, ROOM, "x");
    assert Untouched(c, SendToRoom(w, c, ROOM, "x"), ME);
    RoomSealsAs(w, c);
  }

  lemma RoomSealsAs(w: World, c: Client)
    requires c.model.rooms == map[] && MyName(c) == ME
    ensures SendToRoom(w, c, ROOM, "x").ring == As(c.ring, ME)
  {
    var none := C.RoomMembers(c.model, ROOM);
    SealsIffNobodyIsMissing(c.ring, none, "x", ME, w.nonces(|c.wire|));
    assert Missing(c.ring, none - {ME}) == {};
  }

  /** So the second text needs no key and goes out at once. */
  lemma SecondOvertakes(w: World, c: Client)
    requires Stands(c, [], ["a"], ME, Some(ME))
    ensures Stands(Send(w, c, "b"), ["b"], ["a"], ME, Some(ME))
  {
    assert !IsSpace("b"[0]) && !IsRoom(ME);
    PersonSends(w, c, ME, "b");
    assert [] + ["b"] == ["b"];
  }

  /** How things stand after some steps, with what was typed so far. */
  ghost predicate After(w: World, c0: Client, steps: seq<Step>, typed: seq<string>, sent: seq<string>, held: seq<string>,
                        me: string, active: Option<string>, named: bool) {
    var c := Run(w, c0, steps);
    Stands(c, sent, held, me, active) && (named ==> c.model.username == Some(ME)) && Typed(w, c0, steps, ME) == typed
  }

  lemma ThenOpen(w: World, c0: Client, steps: seq<Step>, key: string, typed: seq<string>, sent: seq<string>, held: seq<string>,
                 me: string, active: Option<string>, named: bool)
    requires After(w, c0, steps, typed, sent, held, me, active, named)
    ensures After(w, c0, steps + [Open(key)], typed, sent, held, me, Some(key), named)
  {
    RunMore(w, c0, steps, Open(key), ME);
    Opens(w, Run(w, c0, steps), key, sent, held, me);
    assert typed + [] == typed;
  }

  lemma ThenHeard(w: World, c0: Client, steps: seq<Step>, s: Step, typed: seq<string>, sent: seq<string>, held: seq<string>,
                  me: string, active: Option<string>)
    requires s.Hear? && Typed(w, c0, steps, ME) == typed
    requires var c := Next(w, Run(w, c0, steps), s); Stands(c, sent, held, me, active) && c.model.username == Some(ME)
    ensures After(w, c0, steps + [s], typed, sent, held, me, active, true)
  {
    RunMore(w, c0, steps, s, ME);
    assert typed + [] == typed;
  }

  lemma LoginStands(w: World, c: Client, s: Step, sent: seq<string>, held: seq<string>, active: Option<string>)
    requires Stands(c, sent, held, "", active) && s == Hear(H.LoginOk(ME, {}, map[], {}))
    ensures var c' := Next(w, c, s); Stands(c', sent, held, "", active) && c'.model.username == Some(ME)
  {
    OnFrameIs(w, c, s.frame);
    LogsIn(w, c, sent, held, active);
  }

  lemma ThenLogin(w: World, c0: Client, steps: seq<Step>, s: Step, typed: seq<string>, sent: seq<string>, held: seq<string>,
                  active: Option<string>)
    requires After(w, c0, steps, typed, sent, held, "", active, false) && s == Hear(H.LoginOk(ME, {}, map[], {}))
    ensures After(w, c0, steps + [s], typed, sent, held, "", active, true)
  {
    LoginStands(w, Run(w, c0, steps), s, sent, held, active);
    ThenHeard(w, c0, steps, s, typed, sent, held, "", active);
  }

  lemma ThenFirst(w: World, c0: Client, steps: seq<Step>)
    requires After(w, c0, steps, [], [], [], "", Some(ME), false)
    ensures After(w, c0, steps + [Type("a")], ["a"], [], ["a"], "", Some(ME), false)
  {
    RunMore(w, c0, steps, Type("a"), ME);
    assert !IsSpace("a"[0]);
    FirstIsHeld(w, Run(w, c0, steps));
    assert [] + ["a"] == ["a"];
  }

  lemma ThenRoom(w: World, c0: Client, steps: seq<Step>)
    requires After(w, c0, steps, ["a"], [], ["a"], "", Some(ROOM), true)
    ensures After(w, c0, steps + [Type("x")], ["a"], [], ["a"], ME, Some(ROOM), false)
  {
    RunMore(w, c0, steps, Type("x"), ME);
    assert ME[0] != ROOM[0];
    RoomTeachesTheRing(w, Run(w, c0, steps));
    assert ["a"] + [] == ["a"];
  }

  lemma ThenSecond(w: World, c0: Client, steps: seq<Step>)
    requires After(w, c0, steps, ["a"], [], ["a"], ME, Some(ME), false)
    ensures After(w, c0, steps + [Type("b")], ["a", "b"], ["b"], ["a"], ME, Some(ME), false)
  {
    RunMore(w, c0, steps, Type("b"), ME);
    assert !IsSpace("b"[0]);
    SecondOvertakes(w, Run(w, c0, steps));
    assert ["a"] + ["b"] == ["a", "b"];
  }

  /** A text to a name one then logs in under, held because its key is unknown. */
  lemma HeldThenNamed(w: World, c0: Client) returns (steps: seq<Step>)
    requires After(w, c0, [], [], [], [], "", None, false)
    ensures After(w, c0, steps, ["a"], [], ["a"], "", Some(ROOM), true)
  {
    steps := [];
    ThenOpen(w, c0, steps, ME, [], [], [], "", None, false);
    steps := steps + [Open(ME)];
    ThenFirst(w, c0, steps);
    steps := steps + [Type("a")];
    ThenLogin(w, c0, steps, Hear(H.LoginOk(ME, {}, map[], {})), ["a"], [], ["a"], Some(ME));
    steps := steps + [Hear(H.LoginOk(ME, {}, map[], {}))];
    ThenOpen(w, c0, steps, ROOM, ["a"], [], ["a"], "", Some(ME), true);
    steps := steps + [Open(ROOM)];
  }

  /** A text to a room, and then a second one to oneself. */
  lemma RoomThenSelf(w: World, c0: Client, before: seq<Step>) returns (steps: seq<Step>)
    requires After(w, c0, before, ["a"], [], ["a"], "", Some(ROOM), true)
    ensures After(w, c0, steps, ["a", "b"], ["b"], ["a"], ME, Some(ME), false)
  {
    ThenRoom(w, c0, before);
    steps := before + [Type("x")];
    ThenOpen(w, c0, steps, ME, ["a"], [], ["a"], ME, Some(ROOM), false);
    steps := steps + [Open(ME)];
    ThenSecond(w, c0, steps);
    steps := steps + [Type("b")];
  }

  /** In every world there is a run in which "a" and then "b" are typed to one's own name,
      "b" goes out and "a" is still held. */
  lemma OwnTextsOvertake(w: World, identity: Identity)
    ensures exists steps ::
      After(w, NewClient(true, identity), steps, ["a", "b"], ["b"], ["a"], ME, Some(ME), false)
  {
    var c0 := NewClient(true, identity);
    assert After(w, c0, [], [], [], [], "", None, false);
    var before := HeldThenNamed(w, c0);
    var steps := RoomThenSelf(w, c0, before);
  }
}
