/** Receipts on the client: what a conversation holds after any run, and the label
    each of its messages shows. */
module ClientReceipts {
  import opened Text
  import opened ChatModel

  /** What one call does to the messages of one conversation. */
  function NextMessages(messages: seq<Message>, op: Op, key: string): seq<Message> {
    match op
    case Added(k, x) => if k == key then messages + [x] else messages
    case Released(k, xs) => if k == key then messages + xs else messages
    case Loaded(k, xs) => if k == key then xs else messages
    case Receipt(k, id, state) => if k == key then Receive(messages, id, state) else messages
    case _ => messages
  }

  lemma {:induction false} AddAllMessages(m: Model, key: string, xs: seq<Message>, k: string)
    ensures ConversationOf(AddAll(m, key, xs).model, k).messages
         == if k == key then ConversationOf(m, k).messages + xs else ConversationOf(m, k).messages
    decreases |xs|
  {
    if xs == [] {
      assert ConversationOf(m, k).messages + xs == ConversationOf(m, k).messages;
    } else {
      var m' := AddMessage(m, key, xs[0]).model;
      AddChanges(m, key, xs[0]);
      AddAllMessages(m', key, xs[1..], k);
      var was := ConversationOf(m, k).messages;
      assert was + xs == (was + [xs[0]]) + xs[1..];
      assert AddAll(m, key, xs).model == AddAll(m', key, xs[1..]).model;
    }
  }

  lemma StepMessages(m: Model, op: Op, key: string)
    ensures ConversationOf(Apply(m, op).model, key).messages == NextMessages(ConversationOf(m, key).messages, op, key)
  {
    if op.Released? {
      AddAllMessages(m.(active := Some(op.key)), op.key, op.messages, key);
    } else if op.Identify? || op.ConnectionIs? || op.Roster? || op.Contacts? || op.Present? || op.Refused? {
      PeopleStepStays(m, op);
    }
  }

  function MessagesAfter(messages: seq<Message>, ops: seq<Op>, key: string): seq<Message> {
    if ops == [] then messages
    else NextMessages(MessagesAfter(messages, ops[..|ops| - 1], key), ops[|ops| - 1], key)
  }

  /** Every conversation of every run is the fold of the calls that name it. */
  lemma {:induction false} RunMessages(m: Model, ops: seq<Op>, key: string)
    ensures ConversationOf(Run(m, ops).model, key).messages == MessagesAfter(ConversationOf(m, key).messages, ops, key)
  {
    if ops != [] {
      RunMessages(m, ops[..|ops| - 1], key);
      StepMessages(Run(m, ops[..|ops| - 1]).model, ops[|ops| - 1], key);
    }
  }

  ghost predicate Labelled(x: Message) {
    x.state == "SENT" || x.state == "DELIVERED" || x.state == "READ"
  }

  /** `shown` is the highest of a start and the receipts for one message among the calls. */
  ghost predicate IsHighest(shown: string, start: string, ops: seq<Op>, key: string, id: string) {
    && (shown == start || exists i | 0 <= i < |ops| :: ops[i] == Receipt(key, id, shown))
    && Order(start) <= Order(shown)
    && forall i | 0 <= i < |ops| && ops[i].Receipt? && ops[i].key == key && ops[i].id == id ::
         Order(ops[i].state) <= Order(shown)
  }

  /** A message keeps its place and everything but its label, and its label is the
      highest of where it started and the receipts seen, for as long as no history is
      loaded over it. */
  lemma {:induction false} LabelIsHighest(messages: seq<Message>, ops: seq<Op>, key: string, i: nat)
    requires i < |messages| && FirstWithId(messages, messages[i].id) == i
    requires forall j | 0 <= j < |ops| :: !(ops[j].Loaded? && ops[j].key == key)
    ensures var after := MessagesAfter(messages, ops, key);
      && i < |after| && FirstWithId(after, messages[i].id) == i
      && after[i] == messages[i].(state := after[i].state)
      && IsHighest(after[i].state, messages[i].state, ops, key, messages[i].id)
      && (Labelled(messages[i]) ==> Labelled(after[i]))
  {
    if ops != [] {
      var front, op := ops[..|ops| - 1], ops[|ops| - 1];
      assert ops == front + [op];
      assert forall j | 0 <= j < |front| :: front[j] == ops[j];
      LabelIsHighest(messages, front, key, i);
      LabelStep(messages, front, op, key, i);
    }
  }

  lemma LabelStep(messages: seq<Message>, front: seq<Op>, op: Op, key: string, i: nat)
    requires i < |messages| && !(op.Loaded? && op.key == key)
    requires var before, id := MessagesAfter(messages, front, key), messages[i].id;
      && i < |before| && FirstWithId(before, id) == i && before[i] == messages[i].(state := before[i].state)
      && IsHighest(before[i].state, messages[i].state, front, key, id)
    ensures var before, id := MessagesAfter(messages, front, key), messages[i].id;
      var after := NextMessages(before, op, key);
      && i < |after| && FirstWithId(after, id) == i && after[i] == messages[i].(state := after[i].state)
      && IsHighest(after[i].state, messages[i].state, front + [op], key, id)
      && (Labelled(before[i]) ==> Labelled(after[i]))
  {
    var before, id, ops := MessagesAfter(messages, front, key), messages[i].id, front + [op];
    var after := NextMessages(before, op, key);
    assert forall j | 0 <= j < |before| :: after[j].id == before[j].id;
    FirstIsUnique(after, id, i);
    assert forall j | 0 <= j < |front| :: ops[j] == front[j];
    assert ops[|front|] == op;
    if after[i].state == before[i].state && after[i].state != messages[i].state {
      var j :| 0 <= j < |front| && front[j] == Receipt(key, id, after[i].state);
      assert ops[j] == Receipt(key, id, after[i].state);
    }
  }

  lemma FirstIsUnique(messages: seq<Message>, id: string, i: nat)
    requires i < |messages| && messages[i].id == id && forall j | 0 <= j < i :: messages[j].id != id
    ensures FirstWithId(messages, id) == i
  {}
}
