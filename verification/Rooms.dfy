/** Room membership: the in-memory registry, and the two tables that stand in for it. */
module Rooms {
  import opened Text
  import Sorting

  /** im/server/registries.py:81-127 */
  class RoomRegistry {
    var members: map<string, set<string>>

    constructor ()
      ensures members == map[]
    {
      members := map[];
    }

    method Create(room: string) returns (created: bool)
      modifies this
      ensures (members, CreatedAnswer(created)) == Registry(old(members), CreateOp(room))
    {
      if room in members { return false; }
      members := members[room := {}];
      return true;
    }

    method Join(room: string, user: string)
      modifies this
      ensures members == Registry(old(members), JoinOp(room, user)).0
    {
      if room !in members {
        members := members[room := {}];
      }
      members := members[room := members[room] + {user}];
    }

    method Leave(room: string, user: string)
      modifies this
      ensures members == Registry(old(members), LeaveOp(room, user)).0
    {
      if room in members {
        members := members[room := members[room] - {user}];
      }
    }

    method Forget(user: string)
      modifies this
      ensures members == Registry(old(members), ForgetOp(user)).0
    {
      var left := members.Keys;
      ghost var before := members;
      while left != {}
        invariant left <= before.Keys && members.Keys == before.Keys
        invariant forall r | r in before :: members[r] == if r in left then before[r] else before[r] - {user}
      {
        var room :| room in left;
        members := members[room := members[room] - {user}];
        left := left - {room};
      }
    }
  }

  /** im/server/store/rooms.py:19-83: one table of rooms, one of memberships. */
  class SqliteRooms {
    var rooms: set<string>
    var memberships: set<(string, string)>

    ghost function Contents(): Tables reads this { Tables(rooms, memberships) }

    ghost predicate Valid() reads this { Sound(Contents()) }

    /** The registry these tables stand for. */
    ghost function AsRegistry(): map<string, set<string>> reads this { Abstraction(Contents()) }

    constructor ()
      ensures Valid() && Contents() == Tables({}, {}) && AsRegistry() == map[]
    {
      rooms, memberships := {}, {};
    }

    method Create(room: string) returns (created: bool)
      requires Valid()
      modifies this
      ensures Valid() && (AsRegistry(), CreatedAnswer(created)) == Registry(old(AsRegistry()), CreateOp(room))
      ensures Contents() == Sqlite(old(Contents()), CreateOp(room)).0
    {
      StepRefines(Contents(), CreateOp(room));
      if room in rooms { return false; }
      rooms := rooms + {room};
      return true;
    }

    method Join(room: string, user: string)
      requires Valid()
      modifies this
      ensures Valid() && AsRegistry() == Registry(old(AsRegistry()), JoinOp(room, user)).0
      ensures Contents() == Sqlite(old(Contents()), JoinOp(room, user)).0
    {
      StepRefines(Contents(), JoinOp(room, user));
      rooms := rooms + {room};
      memberships := memberships + {(room, user)};
    }

    method Leave(room: string, user: string)
      requires Valid()
      modifies this
      ensures Valid() && AsRegistry() == Registry(old(AsRegistry()), LeaveOp(room, user)).0
      ensures Contents() == Sqlite(old(Contents()), LeaveOp(room, user)).0
    {
      StepRefines(Contents(), LeaveOp(room, user));
      memberships := memberships - {(room, user)};
    }

    method Forget(user: string)
      requires Valid()
      modifies this
      ensures Valid() && AsRegistry() == Registry(old(AsRegistry()), ForgetOp(user)).0
      ensures Contents() == Sqlite(old(Contents()), ForgetOp(user)).0
    {
      StepRefines(Contents(), ForgetOp(user));
      memberships := set p | p in memberships && p.1 != user;
    }
  }

  datatype Tables = Tables(rooms: set<string>, memberships: set<(string, string)>)

  datatype Op =
    | CreateOp(room: string) | JoinOp(room: string, user: string) | LeaveOp(room: string, user: string)
    | ForgetOp(user: string) | MembersOp(room: string) | ExistsOp(room: string) | RoomsOfOp(user: string)

  datatype Answer =
    | NoAnswer | CreatedAnswer(created: bool) | MembersAnswer(members: set<string>)
    | ExistsAnswer(exists_: bool) | RoomsAnswer(rooms: seq<string>)

  function MembersOf(m: map<string, set<string>>, room: string): set<string> {
    if room in m then m[room] else {}
  }

  function RoomsOf(m: map<string, set<string>>, user: string): seq<string> {
    SortNames(set r | r in m && user in m[r])
  }

  /** One registry call: the new state and the answer. */
  function Registry(m: map<string, set<string>>, op: Op): (map<string, set<string>>, Answer) {
    match op
    case CreateOp(r) => if r in m then (m, CreatedAnswer(false)) else (m[r := {}], CreatedAnswer(true))
    case JoinOp(r, u) => (m[r := MembersOf(m, r) + {u}], NoAnswer)
    case LeaveOp(r, u) => (if r in m then m[r := m[r] - {u}] else m, NoAnswer)
    case ForgetOp(u) => (map r | r in m :: m[r] - {u}, NoAnswer)
    case MembersOp(r) => (m, MembersAnswer(MembersOf(m, r)))
    case ExistsOp(r) => (m, ExistsAnswer(r in m))
    case RoomsOfOp(u) => (m, RoomsAnswer(RoomsOf(m, u)))
  }

  /** One call on the tables. */
  function Sqlite(t: Tables, op: Op): (Tables, Answer) {
    match op
    case CreateOp(r) =>
      if r in t.rooms then (t, CreatedAnswer(false)) else (t.(rooms := t.rooms + {r}), CreatedAnswer(true))
    case JoinOp(r, u) => (Tables(t.rooms + {r}, t.memberships + {(r, u)}), NoAnswer)
    case LeaveOp(r, u) => (t.(memberships := t.memberships - {(r, u)}), NoAnswer)
    case ForgetOp(u) => (t.(memberships := set p | p in t.memberships && p.1 != u), NoAnswer)
    case MembersOp(r) => (t, MembersAnswer(set p | p in t.memberships && p.0 == r :: p.1))
    case ExistsOp(r) => (t, ExistsAnswer(r in t.rooms))
    case RoomsOfOp(u) => (t, RoomsAnswer(SortNames(set p | p in t.memberships && p.1 == u :: p.0)))
  }

  function Answers(m: map<string, set<string>>, ops: seq<Op>): seq<Answer>
    decreases |ops|
  {
    if ops == [] then [] else
      var (m', a) := Registry(m, ops[0]);
      [a] + Answers(m', ops[1..])
  }

  function SqliteAnswers(t: Tables, ops: seq<Op>): seq<Answer>
    decreases |ops|
  {
    if ops == [] then [] else
      var (t', a) := Sqlite(t, ops[0]);
      [a] + SqliteAnswers(t', ops[1..])
  }

  /** Membership rows only ever name existing rooms. */
  ghost predicate Sound(t: Tables) {
    forall p | p in t.memberships :: p.0 in t.rooms
  }

  /** The map of sets the two tables stand for. */
  function Abstraction(t: Tables): map<string, set<string>> {
    map r | r in t.rooms :: set p | p in t.memberships && p.0 == r :: p.1
  }

  lemma StepRefines(t: Tables, op: Op)
    requires Sound(t)
    ensures var (t', a) := Sqlite(t, op);
      Sound(t') && Registry(Abstraction(t), op) == (Abstraction(t'), a)
  {
    var m := Abstraction(t);
    var (t', a) := Sqlite(t, op);
    var m' := Registry(m, op).0;
    forall r, u ensures r in t.rooms ==> (u in m[r] <==> (r, u) in t.memberships) {}
    match op
    case RoomsOfOp(u) =>
      assert (set r | r in m && u in m[r]) == set p | p in t.memberships && p.1 == u :: p.0;
    case MembersOp(r) =>
      assert MembersOf(m, r) == set p | p in t.memberships && p.0 == r :: p.1;
    case _ =>
      assert m'.Keys == Abstraction(t').Keys;
      forall r | r in m' ensures m'[r] == Abstraction(t')[r] {
        forall u ensures u in m'[r] <==> (r, u) in t'.memberships {}
      }
      assert m' == Abstraction(t');
  }

  /** The router cannot tell the two apart: any sequence of calls gets the same answers. */
  lemma {:induction false} TablesRefineRegistry(t: Tables, ops: seq<Op>)
    requires Sound(t)
    ensures SqliteAnswers(t, ops) == Answers(Abstraction(t), ops)
    decreases |ops|
  {
    if ops != [] {
      StepRefines(t, ops[0]);
      TablesRefineRegistry(Sqlite(t, ops[0]).0, ops[1..]);
    }
  }

  lemma FreshTablesRefineFreshRegistry(ops: seq<Op>)
    ensures SqliteAnswers(Tables({}, {}), ops) == Answers(map[], ops)
  {
    TablesRefineRegistry(Tables({}, {}), ops);
    assert Abstraction(Tables({}, {})) == map[];
  }

  /** Without that invariant the two disagree: a membership row naming no room. */
  lemma DanglingMembershipDisagrees(room: string, user: string)
    ensures var t := Tables({}, {(room, user)});
      !Sound(t) && SqliteAnswers(t, [RoomsOfOp(user)]) != Answers(Abstraction(t), [RoomsOfOp(user)])
  {
    var t := Tables({}, {(room, user)});
    assert (room, user) in t.memberships;
    var listed := set p | p in t.memberships && p.1 == user :: p.0;
    assert room in listed && room in SortNames(listed) by {
      assert (room, user) in t.memberships && room in listed;
      assert room in Sorting.Elements(SortNames(listed));
    }
    assert RoomsOf(Abstraction(t), user) == [] by {
      assert Abstraction(t) == map[];
    }
    assert SqliteAnswers(t, [RoomsOfOp(user)])[0] == RoomsAnswer(SortNames(listed));
    assert Answers(Abstraction(t), [RoomsOfOp(user)])[0] == RoomsAnswer([]);
  }
}
