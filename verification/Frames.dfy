/** im/common/frames.py: a frame, its JSON object, and back. */
module Frames {
  import opened Text

  /** A finite double, by its bits (binary64 of IEEE 754): what Python reads a number with
      a point or an exponent into. */
  type Double = n: int | 0 <= n < 0x1_0000_0000_0000_0000 && n / 0x10_0000_0000_0000 % 0x800 != 0x7FF witness 0

  const DOUBLE_ONE: Double := 0x3FF0_0000_0000_0000
  const DOUBLE_MINUS_ZERO: Double := 0x8000_0000_0000_0000

  /** JSON as Python reads it: a number with a point is not an int, and a bool is one. */
  datatype Json =
    | JNull
    | JBool(flag: bool)
    | JInt(whole: int)
    | JReal(bits: Double)
    | JStr(text: string)
    | JArr(items: seq<Json>)
    | JObj(fields: map<string, Json>)

  datatype MessageType =
    | REGISTER | LOGIN | GET_KEY | MSG | CREATE_ROOM | JOIN | LEAVE | INVITE | ADD_CONTACT | REMOVE_CONTACT
    | TYPING | RECEIPT | HISTORY | PING
    | OK | ERROR | LOGIN_OK | KEY | ACK | ROOM_STATE | CONTACTS | HISTORY_RESULT | PONG | PRESENCE

  function TypeName(t: MessageType): string {
    match t
    case REGISTER => "REGISTER" case LOGIN => "LOGIN" case GET_KEY => "GET_KEY" case MSG => "MSG"
    case CREATE_ROOM => "CREATE_ROOM" case JOIN => "JOIN" case LEAVE => "LEAVE" case INVITE => "INVITE"
    case ADD_CONTACT => "ADD_CONTACT" case REMOVE_CONTACT => "REMOVE_CONTACT" case TYPING => "TYPING"
    case RECEIPT => "RECEIPT" case HISTORY => "HISTORY" case PING => "PING" case OK => "OK" case ERROR => "ERROR"
    case LOGIN_OK => "LOGIN_OK" case KEY => "KEY" case ACK => "ACK" case ROOM_STATE => "ROOM_STATE"
    case CONTACTS => "CONTACTS" case HISTORY_RESULT => "HISTORY_RESULT" case PONG => "PONG" case PRESENCE => "PRESENCE"
  }

  /** Length and first two letters tell every name from every other. */
  function Mark(t: MessageType): (nat, char, char) {
    match t
    case REGISTER => (8, 'R', 'E') case LOGIN => (5, 'L', 'O') case GET_KEY => (7, 'G', 'E') case MSG => (3, 'M', 'S')
    case CREATE_ROOM => (11, 'C', 'R') case JOIN => (4, 'J', 'O') case LEAVE => (5, 'L', 'E') case INVITE => (6, 'I', 'N')
    case ADD_CONTACT => (11, 'A', 'D') case REMOVE_CONTACT => (14, 'R', 'E') case TYPING => (6, 'T', 'Y')
    case RECEIPT => (7, 'R', 'E') case HISTORY => (7, 'H', 'I') case PING => (4, 'P', 'I') case OK => (2, 'O', 'K')
    case ERROR => (5, 'E', 'R') case LOGIN_OK => (8, 'L', 'O') case KEY => (3, 'K', 'E') case ACK => (3, 'A', 'C')
    case ROOM_STATE => (10, 'R', 'O') case CONTACTS => (8, 'C', 'O') case HISTORY_RESULT => (14, 'H', 'I')
    case PONG => (4, 'P', 'O') case PRESENCE => (8, 'P', 'R')
  }

  lemma MarkOfName(t: MessageType)
    ensures var s := TypeName(t); |s| >= 2 && Mark(t) == (|s|, s[0], s[1])
  {}

  lemma NamesAreDistinct(a: MessageType, b: MessageType)
    requires TypeName(a) == TypeName(b)
    ensures a == b
  {
    MarkOfName(a);
    MarkOfName(b);
    assert Mark(a) == Mark(b);
  }

  /** `MessageType(raw)`: the member whose value it is. */
  function TypeOf(raw: Json): Option<MessageType> {
    if raw.JStr? && exists t :: TypeName(t) == raw.text then
      assert forall a, b | TypeName(a) == raw.text == TypeName(b) :: a == b by {
        forall a, b | TypeName(a) == raw.text == TypeName(b) ensures a == b { NamesAreDistinct(a, b); }
      }
      var t :| TypeName(t) == raw.text;
      Some(t)
    else None
  }

  lemma TypeRoundTrip(t: MessageType)
    ensures TypeOf(JStr(TypeName(t))) == Some(t)
  {
    assert TypeOf(JStr(TypeName(t))).Some?;
    NamesAreDistinct(t, TypeOf(JStr(TypeName(t))).value);
  }

  // ------------------------------------------------------------- the own keys

  /** The keys a frame owns. */
  datatype Field = V | ID | TYPE | TS | FROM | TO | BODY | N

  function Wire(x: Field): string {
    match x
    case V => "v" case ID => "id" case TYPE => "type" case TS => "ts"
    case FROM => "from" case TO => "to" case BODY => "body" case N => "n"
  }

  lemma WireIsInjective(x: Field, y: Field)
    requires Wire(x) == Wire(y)
    ensures x == y
  {
    assert |Wire(x)| == |Wire(y)| && Wire(x)[0] == Wire(y)[0] && Wire(x)[|Wire(x)| - 1] == Wire(y)[|Wire(y)| - 1];
  }

  predicate Reserved(key: string) {
    exists x :: Wire(x) == key
  }

  /** One protocol message. JNull is Python's None: an optional field left out. */
  datatype Frame = Frame(
    kind: MessageType, sender: Json, to: Json, body: Json, nonce: Json,
    data: map<string, Json>, id: Json, ts: int, v: Json)
  {
    /** What each own key holds on the wire. */
    function Value(x: Field): Json {
      match x
      case V => v case ID => id case TYPE => JStr(TypeName(kind)) case TS => JInt(ts)
      case FROM => sender case TO => to case BODY => body case N => nonce
    }
  }

  predicate Optional(x: Field) {
    x == FROM || x == TO || x == BODY || x == N
  }

  predicate Written(f: Frame, x: Field) {
    Optional(x) ==> f.Value(x) != JNull
  }

  const FIELDS := [V, ID, TYPE, TS, FROM, TO, BODY, N]

  /** Own keys in turn, those left out skipped. */
  function Filled(f: Frame, fields: seq<Field>): map<string, Json> {
    if fields == [] then map[] else
      var before, x := Filled(f, fields[..|fields| - 1]), fields[|fields| - 1];
      if Written(f, x) then before[Wire(x) := f.Value(x)] else before
  }

  lemma {:induction false} FilledHolds(f: Frame, fields: seq<Field>, x: Field)
    ensures Wire(x) in Filled(f, fields) <==> x in fields && Written(f, x)
    ensures Wire(x) in Filled(f, fields) ==> Filled(f, fields)[Wire(x)] == f.Value(x)
    ensures forall key | key in Filled(f, fields) :: Reserved(key)
  {
    if fields != [] {
      var y := fields[|fields| - 1];
      FilledHolds(f, fields[..|fields| - 1], x);
      if Wire(x) == Wire(y) { WireIsInjective(x, y); }
      assert Reserved(Wire(y));
    }
  }

  /** The JSON-ready form; None when a payload key collides with an own one. */
  function ToDict(f: Frame): Option<map<string, Json>> {
    if exists key | key in f.data :: Reserved(key) then None else Some(Filled(f, FIELDS) + f.data)
  }

  // ----------------------------------------------------------------- parsing

  datatype Fault = NOT_AN_OBJECT | BAD_VERSION | NO_TYPE | UNKNOWN_TYPE | BAD_TIME

  datatype Parsed = Good(frame: Frame) | Bad(fault: Fault)

  /** Python's `== 1`: the whole number, the decimal and True are all equal to it. */
  predicate IsOne(j: Json) {
    j == JInt(1) || j == JReal(DOUBLE_ONE) || j == JBool(true)
  }

  predicate Truthy(j: Json) {
    match j
    case JNull => false
    case JBool(b) => b
    case JInt(n) => n != 0
    case JReal(b) => b != 0 && b != DOUBLE_MINUS_ZERO
    case JStr(s) => s != ""
    case JArr(items) => items != []
    case JObj(fields) => fields != map[]
  }

  function Get(raw: map<string, Json>, x: Field, default: Json): Json {
    if Wire(x) in raw then raw[Wire(x)] else default
  }

  /** A fresh id and the clock stand in for what a frame leaves out. */
  function FromDict(raw: Json, newId: string, now: int): Parsed {
    if !raw.JObj? then Bad(NOT_AN_OBJECT)
    else if !IsOne(Get(raw.fields, V, JInt(1))) then Bad(BAD_VERSION)
    else if Get(raw.fields, TYPE, JNull) == JNull then Bad(NO_TYPE)
    else if TypeOf(Get(raw.fields, TYPE, JNull)).None? then Bad(UNKNOWN_TYPE)
    else if !Get(raw.fields, TS, JInt(now)).JInt? then Bad(BAD_TIME)
    else Good(Frame(
      TypeOf(Get(raw.fields, TYPE, JNull)).value,
      Get(raw.fields, FROM, JNull), Get(raw.fields, TO, JNull), Get(raw.fields, BODY, JNull), Get(raw.fields, N, JNull),
      map key | key in raw.fields && !Reserved(key) :: raw.fields[key],
      if Truthy(Get(raw.fields, ID, JNull)) then Get(raw.fields, ID, JNull) else JStr(newId),
      Get(raw.fields, TS, JInt(now)).whole,
      Get(raw.fields, V, JInt(1))))
  }

  // -------------------------------------------------------------- round trips

  /** A frame somebody can send: it has an id and speaks this version. */
  predicate Sendable(f: Frame) {
    Truthy(f.id) && IsOne(f.v) && forall key | key in f.data :: !Reserved(key)
  }

  lemma GetOwn(f: Frame, x: Field, default: Json)
    requires ToDict(f).Some?
    ensures Get(ToDict(f).value, x, default) == if Written(f, x) then f.Value(x) else default
  {
    assert Wire(x) !in f.data by { assert Reserved(Wire(x)); }
    assert x in FIELDS by { assert FIELDS[0] == V && FIELDS[1] == ID && FIELDS[2] == TYPE && FIELDS[3] == TS
                                && FIELDS[4] == FROM && FIELDS[5] == TO && FIELDS[6] == BODY && FIELDS[7] == N; }
    FilledHolds(f, FIELDS, x);
  }

  /** Every frame that can be sent comes back field by field. */
  lemma FrameRoundTrip(f: Frame, newId: string, now: int)
    requires Sendable(f)
    ensures ToDict(f).Some? && FromDict(JObj(ToDict(f).value), newId, now) == Good(f)
  {
    var dict := ToDict(f).value;
    GetOwn(f, V, JInt(1));
    GetOwn(f, ID, JNull);
    GetOwn(f, TYPE, JNull);
    GetOwn(f, TS, JInt(now));
    GetOwn(f, FROM, JNull);
    GetOwn(f, TO, JNull);
    GetOwn(f, BODY, JNull);
    GetOwn(f, N, JNull);
    TypeRoundTrip(f.kind);
    PayloadComesBack(f);
  }

  lemma PayloadComesBack(f: Frame)
    requires Sendable(f)
    ensures var dict := ToDict(f).value; (map key | key in dict && !Reserved(key) :: dict[key]) == f.data
  {
    var dict := ToDict(f).value;
    FilledHolds(f, FIELDS, V);
    assert forall key :: key in dict && !Reserved(key) <==> key in f.data;
  }

  /** What parses can be sent on and parsed again, to the same frame. */
  lemma ParsedComesBack(raw: Json, newId: string, now: int, newId': string, now': int)
    requires newId != "" && FromDict(raw, newId, now).Good?
    ensures var f := FromDict(raw, newId, now).frame;
      Sendable(f) && FromDict(JObj(ToDict(f).value), newId', now') == Good(f)
  {
    FrameRoundTrip(FromDict(raw, newId, now).frame, newId', now');
  }

  /** Printing what was parsed loses nothing the sender wrote, but an empty id. */
  lemma NothingWrittenIsLost(raw: Json, newId: string, now: int, key: string)
    requires newId != "" && FromDict(raw, newId, now).Good? && key in raw.fields && raw.fields[key] != JNull
    requires key == Wire(ID) ==> Truthy(raw.fields[key])
    ensures var dict := ToDict(FromDict(raw, newId, now).frame).value; key in dict && dict[key] == raw.fields[key]
  {
    var f := FromDict(raw, newId, now).frame;
    ParsedComesBack(raw, newId, now, newId, now);
    if Reserved(key) {
      var x :| Wire(x) == key;
      GetOwn(f, x, JNull);
    }
  }

  /** `to_dict` as it fills its dictionary. */
  method BuildDict(f: Frame) returns (out: Option<map<string, Json>>)
    ensures out == ToDict(f)
  {
    var own := FillOwn(f);
    out := AddPayload(own, f.data);
  }

  method FillOwn(f: Frame) returns (dict: map<string, Json>)
    ensures dict == Filled(f, FIELDS)
  {
    dict := map[Wire(V) := f.v, Wire(ID) := f.id, Wire(TYPE) := JStr(TypeName(f.kind)), Wire(TS) := JInt(f.ts)];
    FirstFour(f);
    for i := 4 to |FIELDS|
      invariant dict == Filled(f, FIELDS[..i])
    {
      var value := f.Value(FIELDS[i]);
      assert FIELDS[..i + 1][..i] == FIELDS[..i] && Optional(FIELDS[i]);
      if value != JNull {
        dict := dict[Wire(FIELDS[i]) := value];
      }
    }
    assert FIELDS[..|FIELDS|] == FIELDS;
  }

  method AddPayload(own: map<string, Json>, data: map<string, Json>) returns (out: Option<map<string, Json>>)
    ensures out == if exists key | key in data :: Reserved(key) then None else Some(own + data)
  {
    var dict, todo := own, data.Keys;
    while todo != {}
      invariant todo <= data.Keys
      invariant forall key | key in data.Keys - todo :: !Reserved(key)
      invariant dict == own + (map key | key in data.Keys - todo :: data[key])
    {
      var key :| key in todo;
      if Reserved(key) {
        return None;
      }
      dict := dict[key := data[key]];
      todo := todo - {key};
    }
    assert (map key | key in data.Keys - todo :: data[key]) == data;
    out := Some(dict);
  }

  lemma FirstFour(f: Frame)
    ensures Filled(f, FIELDS[..4])
         == map[Wire(V) := f.v, Wire(ID) := f.id, Wire(TYPE) := JStr(TypeName(f.kind)), Wire(TS) := JInt(f.ts)]
  {
    assert FIELDS[..4][..3] == FIELDS[..3] && FIELDS[..3][..2] == FIELDS[..2];
    assert FIELDS[..2][..1] == FIELDS[..1] && FIELDS[..1][..0] == [];
    assert Filled(f, FIELDS[..1]) == map[Wire(V) := f.v];
    assert Filled(f, FIELDS[..2]) == map[Wire(V) := f.v, Wire(ID) := f.id];
    assert Filled(f, FIELDS[..3]) == map[Wire(V) := f.v, Wire(ID) := f.id, Wire(TYPE) := JStr(TypeName(f.kind))];
  }
}
