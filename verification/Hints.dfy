/** Receipts, typing and presence, told from the frames heard. */
module Hints {
  import opened Text
  import opened Crypto
  import opened Messages
  import opened Keyrings
  import opened Controller
  import opened Conversations
  import C = ChatModel
  import H = Hub
  import Replica

  // --------------------------------------------------------------------- labels

  function LabelText(state: Label): string {
    match state case SENT => "SENT" case DELIVERED => "DELIVERED" case READ => "READ"
  }

  function Rank(shown: string): nat {
    if shown == "READ" then 2 else if shown == "DELIVERED" then 1 else 0
  }

  /** A receipt from the other side of a conversation for one of its messages. */
  predicate Reports(s: Step, key: string, id: string, shown: string) {
    && key != "" && id != "" && s.Hear? && s.frame.ReceiptFrom?
    && s.frame.sender == key && s.frame.ref == id && LabelText(s.frame.state) == shown
  }

  /** The highest of a start and of the receipts heard for a message. */
  ghost predicate HighestHeard(shown: string, start: string, steps: seq<Step>, key: string, id: string) {
    && (shown == start || exists i | 0 <= i < |steps| :: Reports(steps[i], key, id, shown))
    && Rank(start) <= Rank(shown)
    && forall i, l | 0 <= i < |steps| && Reports(steps[i], key, id, l) :: Rank(l) <= Rank(shown)
  }

  /** The i-th message of a conversation is the first of its id, and stays so. */
  ghost predicate Stands(c: Client, key: string, i: nat, x: C.Message) {
    i < |Talk(c, key)| && Talk(c, key)[i] == x && forall j | 0 <= j < i :: Talk(c, key)[j].id != x.id
  }

  function LabelAfter(s: Step, key: string, x: C.Message): C.Message {
    if s.Hear? && s.frame.ReceiptFrom? && Reports(s, key, x.id, LabelText(s.frame.state)) && Rank(LabelText(s.frame.state)) > Rank(x.state)
    then x.(state := LabelText(s.frame.state)) else x
  }

  lemma PrefixStands(c: Client, c': Client, key: string, i: nat, x: C.Message)
    requires Stands(c, key, i, x) && Talk(c, key) <= Talk(c', key)
    ensures Stands(c', key, i, x)
  {}

  lemma ReceivedStands(ms: seq<C.Message>, ref: string, state: string, i: nat, x: C.Message)
    requires i < |ms| && ms[i] == x && forall j | 0 <= j < i :: ms[j].id != x.id
    ensures var ms' := C.Receive(ms, ref, state);
      && |ms'| == |ms| && (forall j | 0 <= j < |ms| :: ms'[j].id == ms[j].id)
      && ms'[i] == if ref == x.id && C.Order(state) > C.Order(x.state) then x.(state := state) else x
  {}

  lemma OrderIsRank(shown: string)
    ensures C.Order(shown) == Rank(shown)
  {}

  lemma LabelStep(w: World, c: Client, s: Step, key: string, i: nat, x: C.Message)
    requires Sound(c) && !Loads(s, key) && Stands(c, key, i, x)
    ensures Stands(Next(w, c, s), key, i, LabelAfter(s, key, x))
  {
    if !IsHint(s) {
      KeepsTalk(w, c, s, key);
      PrefixStands(c, Next(w, c, s), key, i, x);
    } else {
      HintLabels(w, c, s, key, i, x);
    }
  }

  lemma KeepsTalk(w: World, c: Client, s: Step, key: string)
    requires Sound(c) && !Loads(s, key) && !IsHint(s)
    ensures Talk(c, key) <= Talk(Next(w, c, s), key)
  {
    if ListsPeople(s) { FrameTalks(w, c, s.frame, key); } else { StepGoes(w, c, s, key); }
  }

  lemma HintLabels(w: World, c: Client, s: Step, key: string, i: nat, x: C.Message)
    requires IsHint(s) && Stands(c, key, i, x)
    ensures Stands(Next(w, c, s), key, i, LabelAfter(s, key, x))
  {
    var f := s.frame;
    OnFrameIs(w, c, f);
    if f.ReceiptFrom? { ReceiptLabels(c, f, key, i, x); } else { HintKeepsTalk(c, f, key); }
  }

  lemma HintKeepsTalk(c: Client, f: H.Frame, key: string)
    requires !f.ReceiptFrom?
    ensures Talk(Tell(c, ModelHears(c.model, f)), key) == Talk(c, key)
  {}

  lemma ReceiptLabels(c: Client, f: H.Frame, key: string, i: nat, x: C.Message)
    requires f.ReceiptFrom? && Stands(c, key, i, x)
    ensures Stands(Tell(c, ModelHears(c.model, f)), key, i, LabelAfter(Hear(f), key, x))
  {
    var shown := LabelName(f.state);
    assert shown == LabelText(f.state);
    OrderIsRank(shown);
    OrderIsRank(x.state);
    ReceivedStands(Talk(c, key), f.ref, shown, i, x);
    ReceiptTalk(c.model, f.sender, f.ref, shown, key);
  }

  lemma ReceiptTalk(m: C.Model, k: string, id: string, state: string, key: string)
    ensures C.ConversationOf(C.SetReceipt(m, k, id, state).model, key).messages
         == if k == key then C.Receive(C.ConversationOf(m, key).messages, id, state) else C.ConversationOf(m, key).messages
  {}

  /** Whatever happens to a client, until its history is loaded a message keeps its place
      and all but its shown; and its shown is the highest of where it stood and of the
      receipts heard from the other side of its conversation for it. */
  lemma {:induction false} LabelsAreHeard(w: World, sealing: bool, identity: Identity, before: seq<Step>, after: seq<Step>, key: string, i: nat)
    requires forall j | 0 <= j < |after| :: !Loads(after[j], key)
    requires var ms := Talk(Run(w, NewClient(sealing, identity), before), key); i < |ms| && forall j | 0 <= j < i :: ms[j].id != ms[i].id
    ensures var c0 := NewClient(sealing, identity);
      var x, ms := Talk(Run(w, c0, before), key)[i], Talk(Run(w, c0, before + after), key);
      && i < |ms| && Stands(Run(w, c0, before + after), key, i, x.(state := ms[i].state))
      && HighestHeard(ms[i].state, x.state, after, key, x.id)
  {
    var c0 := NewClient(sealing, identity);
    var x := Talk(Run(w, c0, before), key)[i];
    if after == [] {
      assert before + after == before;
    } else {
      var front, s := after[..|after| - 1], after[|after| - 1];
      LabelsAreHeard(w, sealing, identity, before, front, key, i);
      EveryClientIsSound(w, sealing, identity, before + front);
      RunOn(w, c0, before, after);
      var y := x.(state := Talk(Run(w, c0, before + front), key)[i].state);
      LabelStep(w, Run(w, c0, before + front), s, key, i, y);
      HighestMore(y.state, LabelAfter(s, key, y).state, x.state, front, s, key, x.id);
      assert after == front + [s];
    }
  }

  lemma HighestMore(shown: string, shown': string, start: string, front: seq<Step>, s: Step, key: string, id: string)
    requires HighestHeard(shown, start, front, key, id)
    requires shown' == if s.Hear? && s.frame.ReceiptFrom? && Reports(s, key, id, LabelText(s.frame.state)) && Rank(LabelText(s.frame.state)) > Rank(shown)
                       then LabelText(s.frame.state) else shown
    ensures HighestHeard(shown', start, front + [s], key, id)
  {
    var all := front + [s];
    assert all[|front|] == s && forall i | 0 <= i < |front| :: all[i] == front[i];
    if shown' == shown && shown != start {
      var i :| 0 <= i < |front| && Reports(front[i], key, id, shown);
      assert Reports(all[i], key, id, shown');
    }
  }

  // --------------------------------------------------------------------- typing

  /** A hint that somebody types, or stopped, in one conversation. */
  predicate TypingHint(s: Step, key: string, u: string) {
    && s.Hear? && s.frame.TypingFrom? && u != "" && s.frame.sender == u
    && key == if IsRoom(s.frame.to) then s.frame.to else u
  }

  /** Somebody is shown as typing: the last thing heard of it was that they started, and
      nothing of theirs was shown in the conversation since. */
  function IsTyping(w: World, c0: Client, steps: seq<Step>, key: string, u: string): bool {
    if steps == [] then false else
      var front, s := steps[..|steps| - 1], steps[|steps| - 1];
      if TypingHint(s, key, u) then s.frame.on
      else IsTyping(w, c0, front, key, u) && u !in Authors(ShownNow(w, Run(w, c0, front), s, key))
  }

  lemma TypingStep(w: World, c: Client, s: Step, key: string, u: string)
    requires Sound(c)
    ensures u in C.TypingIn(Next(w, c, s).model, key)
       <==> if TypingHint(s, key, u) then s.frame.on else u in C.TypingIn(c.model, key) && u !in Authors(ShownNow(w, c, s, key))
  {
    if IsHint(s) {
      OnFrameIs(w, c, s.frame);
      HintTyping(c, s.frame, key, u);
    } else if Loads(s, key) {
      LoadKeepsTyping(w, c, s.frame.room, s.frame.entries, key);
      OnFrameIs(w, c, s.frame);
    } else if ListsPeople(s) {
      FrameTalks(w, c, s.frame, key);
    } else {
      StepGoes(w, c, s, key);
    }
  }

  lemma HintTyping(c: Client, f: H.Frame, key: string, u: string)
    requires ForModel(f)
    ensures u in C.TypingIn(Tell(c, ModelHears(c.model, f)).model, key)
       <==> if TypingHint(Hear(f), key, u) then f.on else u in C.TypingIn(c.model, key)
  {}

  lemma LoadKeepsTyping(w: World, c: Client, room: string, entries: seq<H.Entry>, key: string)
    ensures C.TypingIn(HistoryArrived(w, c, room, entries).model, key) == C.TypingIn(c.model, key)
  {}

  /** Over every run, exactly those are shown as typing in a conversation who were last
      heard to have started and of whom nothing was shown there since. */
  lemma {:induction false} TypingIsHeard(w: World, sealing: bool, identity: Identity, steps: seq<Step>, key: string, u: string)
    ensures var c0 := NewClient(sealing, identity);
      u in C.TypingIn(Run(w, c0, steps).model, key) <==> IsTyping(w, c0, steps, key, u)
  {
    if steps != [] {
      var front, s := steps[..|steps| - 1], steps[|steps| - 1];
      TypingIsHeard(w, sealing, identity, front, key, u);
      EveryClientIsSound(w, sealing, identity, front);
      TypingStep(w, Run(w, NewClient(sealing, identity), front), s, key, u);
    }
  }

  // --------------------------------------------------------------------- people

  /** The frames among some steps. */
  function FramesHeard(steps: seq<Step>): seq<H.Frame> {
    if steps == [] then [] else
      FramesHeard(steps[..|steps| - 1]) + if steps[|steps| - 1].Hear? then [steps[|steps| - 1].frame] else []
  }

  /** A client hearing a frame does to the people on screen what the frame says. */
  lemma FramePeople(w: World, c: Client, f: H.Frame, m: C.Model)
    requires Sound(c) && SamePeople(c.model, m)
    ensures SamePeople(OnFrame(w, c, f).model, Replica.OnFrame(m, f))
  {
    if f.LoginOk? || f.ContactList? || f.Presence? {
      TellingPeople(w, c, f, m);
    } else {
      SilentPeople(w, c, f);
      SilentFrames(m, f);
      AlikeOn(OnFrame(w, c, f).model, c.model, m, Replica.OnFrame(m, f));
    }
  }

  lemma AlikeOn(a: C.Model, b: C.Model, c: C.Model, d: C.Model)
    requires SamePeople(b, a) && SamePeople(b, c) && SamePeople(c, d)
    ensures SamePeople(a, d)
  {}

  lemma TellingPeople(w: World, c: Client, f: H.Frame, m: C.Model)
    requires SamePeople(c.model, m) && (f.LoginOk? || f.ContactList? || f.Presence?)
    ensures SamePeople(OnFrame(w, c, f).model, Replica.OnFrame(m, f))
  {
    OnFrameIs(w, c, f);
    if f.LoginOk? { LoginPeople(c, f, m); }
    else if f.ContactList? { ContactPeople(w, c, f.contacts, m); }
    else { PresenceAlike(c, f.user, f.online, m); }
  }

  lemma SilentPeople(w: World, c: Client, f: H.Frame)
    requires Sound(c) && !f.LoginOk? && !f.ContactList? && !f.Presence?
    ensures SamePeople(c.model, OnFrame(w, c, f).model)
  {
    OnFrameIs(w, c, f);
    if ForModel(f) { HintPeople(c, f); }
    else if f.HistoryResult? { HistoryElsewhere(w, c, f.room, f.entries, ""); }
    else { StepGoes(w, c, Hear(f), ""); }
  }

  /** Most frames tell nothing of people. */
  lemma SilentFrames(m: C.Model, f: H.Frame)
    ensures f.LoginOk? || f.ContactList? || f.Presence? || SamePeople(m, Replica.OnFrame(m, f))
  {}

  lemma LoginPeople(c: Client, f: H.Frame, m: C.Model)
    requires f.LoginOk? && SamePeople(c.model, m)
    ensures SamePeople(LoggedIn(c, f.user, f.roster, f.contacts).model, Replica.OnFrame(m, f))
  {
    var c1 := if f.user == "" then c else Tell(c, C.SetIdentity(c.model, f.user));
    var m1 := if f.user == "" then m else C.SetIdentity(m, f.user).model;
    RosterAlike(c1.model, m1, f.roster);
    ContactsAlike(C.ReplaceRoster(c1.model, f.roster).model, C.ReplaceRoster(m1, f.roster).model, f.contacts);
  }

  lemma RosterAlike(m: C.Model, m': C.Model, users: set<string>)
    requires SamePeople(m, m')
    ensures SamePeople(C.ReplaceRoster(m, users).model, C.ReplaceRoster(m', users).model)
  {}

  lemma ContactsAlike(m: C.Model, m': C.Model, contacts: map<string, bool>)
    requires SamePeople(m, m')
    ensures SamePeople(C.ReplaceContacts(m, contacts).model, C.ReplaceContacts(m', contacts).model)
  {}

  lemma PresenceAlike(c: Client, user: string, online: bool, m: C.Model)
    requires SamePeople(c.model, m)
    ensures SamePeople(Tell(c, ModelHears(c.model, H.Presence(user, online))).model,
                       if user == "" then m else C.SetPresence(m, user, online).model)
  {
    PresenceIs(c.model, user, online);
    PresencePeople(c.model, m, user, online);
  }

  lemma PresenceIs(m: C.Model, user: string, online: bool)
    ensures ModelHears(m, H.Presence(user, online)).model == if user == "" then m else C.SetPresence(m, user, online).model
  {}

  lemma PresencePeople(m: C.Model, m': C.Model, user: string, online: bool)
    requires SamePeople(m, m')
    ensures SamePeople(C.SetPresence(m, user, online).model, C.SetPresence(m', user, online).model)
  {}

  lemma HintPeople(c: Client, f: H.Frame)
    requires ForModel(f) && !f.Presence?
    ensures SamePeople(c.model, Tell(c, ModelHears(c.model, f)).model)
  {}

  lemma ContactPeople(w: World, c: Client, contacts: map<string, bool>, m: C.Model)
    requires SamePeople(c.model, m)
    ensures SamePeople(ContactsArrived(w, c, contacts).model, C.ReplaceContacts(m, contacts).model)
  {
    ContactsAlike(c.model, m, contacts);
    var c1 := Tell(c, C.ReplaceContacts(c.model, contacts));
    if c.pendingUser.Some? { ChooseTalks(w, c1.(pendingUser := None), c.pendingUser.value, ""); }
  }

  lemma GesturePeople(w: World, c: Client, s: Step)
    requires !s.Hear? && Sound(c)
    ensures SamePeople(c.model, Next(w, c, s).model)
  {
    StepGoes(w, c, s, "");
  }

  /** The people a client shows after any run are the fold of the frames it heard: the same
      fold that gives the server's own view. */
  lemma {:induction false} PeopleAreHeard(w: World, sealing: bool, identity: Identity, steps: seq<Step>)
    ensures SamePeople(Run(w, NewClient(sealing, identity), steps).model, Replica.Fold(C.NEW_MODEL, FramesHeard(steps)))
  {
    var c0 := NewClient(sealing, identity);
    if steps != [] {
      var front, s := steps[..|steps| - 1], steps[|steps| - 1];
      var frames, m := FramesHeard(front), Replica.Fold(C.NEW_MODEL, FramesHeard(front));
      PeopleAreHeard(w, sealing, identity, front);
      EveryClientIsSound(w, sealing, identity, front);
      StepPeople(w, Run(w, c0, front), s, m);
      if s.Hear? { Replica.FoldOne(C.NEW_MODEL, frames, s.frame); } else { assert frames + [] == frames; }
    }
  }

  lemma StepPeople(w: World, c: Client, s: Step, m: C.Model)
    requires Sound(c) && SamePeople(c.model, m)
    ensures SamePeople(Next(w, c, s).model, if s.Hear? then Replica.OnFrame(m, s.frame) else m)
  {
    if s.Hear? { FramePeople(w, c, s.frame, m); } else { GesturePeople(w, c, s); }
  }

  /** A client that heard what its session was sent shows exactly who else is online, and
      its user's contacts with whether they are. */
  lemma PeopleAreTheServers(w: World, sealing: bool, identity: Identity, steps: seq<Step>, h: H.Hub, hsteps: seq<H.Step>, u: string)
    requires Replica.NobodyConnected(h) && u in H.Run(h, hsteps).online
    requires var now := H.Run(h, hsteps); FramesHeard(steps) == H.Box(now, now.online[u])
    ensures Replica.PeopleAgree(H.Run(h, hsteps), u, Run(w, NewClient(sealing, identity), steps).model)
  {
    Replica.ClientsAreFaithfulReplicas(h, hsteps, C.NEW_MODEL);
    PeopleAreHeard(w, sealing, identity, steps);
    var now := H.Run(h, hsteps);
    assert Replica.UpToDate(now, C.NEW_MODEL, u);
  }
}
