/**
 SET requests: the decoded message, its classification, its validation and its encoding
 (translation/transport_utils.go and translation/wdmp_type.go).
 */
module Wdmp {
  import opened Wrappers

  const SET := "SET"
  const SET_ATTRIBUTES := "SET_ATTRIBUTES"
  const TEST_AND_SET := "TEST_AND_SET"

  // JSON after parsing. Other stands for the literals no field of a message can hold.
  datatype Json =
    | Null | Str(s: string) | Int(n: int) | Other(literal: string)
    | Arr(items: seq<Json>) | Obj(fields: map<string, Json>)

  type Int8 = n: int | -128 <= n < 128
  type Present = j: Json | j != Null witness Str("")

  // A nil pointer, interface or map is None; an empty map that is not nil is Some(map[]).
  datatype SetParam = SetParam(
    name: Option<string>, dataType: Option<Int8>, value: Option<Present>, attributes: Option<map<string, Json>>)

  datatype Message = Message(
    command: string, oldCid: string, newCid: string, syncCmc: string, parameters: seq<SetParam>)

  // The three WebPA sync headers; an absent header reads as "".
  datatype Sync = Sync(newCid: string, oldCid: string, syncCmc: string)

  datatype LoadError = InvalidStructure | NewCIDRequired | InvalidSet

  const ZERO_PARAM := SetParam(None, None, None, None)
  const ZERO_MESSAGE := Message("", "", "", "", [])

  // ---------- what a body says ----------

  ghost predicate Absent(o: map<string, Json>, key: string) {
    key !in o || o[key] == Null
  }

  ghost predicate Holds(o: map<string, Json>, key: string, j: Json) {
    key in o && o[key] == j
  }

  ghost predicate SaysString(o: map<string, Json>, key: string, s: string) {
    Holds(o, key, Str(s)) || (Absent(o, key) && s == "")
  }

  // The JSON object has a member for every field the parameter has, of the field's own type,
  // and no member for those it has not; a null parameter has none.
  ghost predicate SaysParam(j: Json, p: SetParam) {
    || (j == Null && p == SetParam(None, None, None, None))
    || (j.Obj?
        && (if p.name.Some? then Holds(j.fields, "name", Str(p.name.value)) else Absent(j.fields, "name"))
        && (if p.dataType.Some? then Holds(j.fields, "dataType", Int(p.dataType.value)) else Absent(j.fields, "dataType"))
        && (if p.value.Some? then Holds(j.fields, "value", p.value.value) else Absent(j.fields, "value"))
        && (if p.attributes.Some? then Holds(j.fields, "attributes", Obj(p.attributes.value)) else Absent(j.fields, "attributes")))
  }

  ghost predicate SaysAll(items: seq<Json>, ps: seq<SetParam>) {
    |items| == |ps| && forall i :: 0 <= i < |items| ==> SaysParam(items[i], ps[i])
  }

  ghost predicate SaysParams(o: map<string, Json>, ps: seq<SetParam>) {
    || (Absent(o, "parameters") && ps == [])
    || ("parameters" in o && o["parameters"].Arr? && SaysAll(o["parameters"].items, ps))
  }

  // The parsed body is the message m, member by member.
  ghost predicate Says(j: Json, m: Message) {
    || (j == Null && m == Message("", "", "", "", []))
    || (j.Obj? && SaysString(j.fields, "command", m.command)
        && SaysString(j.fields, "old-cid", m.oldCid) && SaysString(j.fields, "new-cid", m.newCid)
        && SaysString(j.fields, "sync-cmc", m.syncCmc) && SaysParams(j.fields, m.parameters))
  }

  ghost predicate Arrives(parse: string -> Option<Json>, body: string, m: Message) {
    if body == "" then m == Message("", "", "", "", []) else parse(body).Some? && Says(parse(body).value, m)
  }

  // ---------- decoding ----------

  // A missing member and a null one both leave the field as it was.
  function Member(o: map<string, Json>, key: string): Json {
    if key in o then o[key] else Null
  }

  function DecodeString(j: Json): Result<string, LoadError> {
    match j
    case Null => Ok("")
    case Str(s) => Ok(s)
    case _ => Err(InvalidStructure)
  }

  function DecodeParam(j: Json): Result<SetParam, LoadError> {
    match j
    case Null => Ok(ZERO_PARAM)
    case Obj(o) =>
      var name, dataType, value, attributes :=
        Member(o, "name"), Member(o, "dataType"), Member(o, "value"), Member(o, "attributes");
      if !(name.Null? || name.Str?) || !(attributes.Null? || attributes.Obj?)
         || !(dataType.Null? || (dataType.Int? && -128 <= dataType.n < 128))
      then Err(InvalidStructure)
      else Ok(SetParam(
        if name.Null? then None else Some(name.s),
        if dataType.Null? then None else Some(dataType.n),
        if value.Null? then None else Some(value),
        if attributes.Null? then None else Some(attributes.fields)))
    case _ => Err(InvalidStructure)
  }

  function DecodeParams(items: seq<Json>): Result<seq<SetParam>, LoadError> {
    if items == [] then Ok([])
    else match (DecodeParams(items[..|items| - 1]), DecodeParam(items[|items| - 1]))
         case (Ok(ps), Ok(p)) => Ok(ps + [p])
         case _ => Err(InvalidStructure)
  }

  function DecodeList(j: Json): Result<seq<SetParam>, LoadError> {
    match j
    case Null => Ok([])
    case Arr(items) => DecodeParams(items)
    case _ => Err(InvalidStructure)
  }

  function Decode(j: Json): Result<Message, LoadError> {
    match j
    case Null => Ok(ZERO_MESSAGE)
    case Obj(o) =>
      (match (DecodeString(Member(o, "command")), DecodeString(Member(o, "old-cid")),
              DecodeString(Member(o, "new-cid")), DecodeString(Member(o, "sync-cmc")), DecodeList(Member(o, "parameters")))
       case (Ok(command), Ok(oldCid), Ok(newCid), Ok(syncCmc), Ok(parameters)) =>
         Ok(Message(command, oldCid, newCid, syncCmc, parameters))
       case _ => Err(InvalidStructure))
    case _ => Err(InvalidStructure)
  }

  /** What the body decodes to; an empty body is an empty message, which TEST_AND_SET allows. */
  function DecodeBody(parse: string -> Option<Json>, body: string): (r: Result<Message, LoadError>)
    ensures r.Err? ==> r.error == InvalidStructure
  {
    if body == "" then Ok(ZERO_MESSAGE)
    else match parse(body)
         case None => Err(InvalidStructure)
         case Some(j) => Decode(j)
  }

  lemma StringExactly(o: map<string, Json>, key: string, s: string)
    ensures DecodeString(Member(o, key)) == Ok(s) <==> SaysString(o, key, s)
  {
  }

  lemma ParamExactly(j: Json, p: SetParam)
    ensures DecodeParam(j) == Ok(p) <==> SaysParam(j, p)
  {
  }

  lemma {:induction false} ParamsExactly(items: seq<Json>, ps: seq<SetParam>)
    ensures DecodeParams(items) == Ok(ps) <==> SaysAll(items, ps)
  {
    if items != [] && ps != [] {
      var k, n := |items| - 1, |ps| - 1;
      ParamsExactly(items[..k], ps[..n]);
      ParamExactly(items[k], ps[n]);
      assert ps == ps[..n] + [ps[n]];
      assert SaysAll(items, ps) <==> SaysAll(items[..k], ps[..n]) && SaysParam(items[k], ps[n]);
    }
  }

  lemma ListExactly(o: map<string, Json>, ps: seq<SetParam>)
    ensures DecodeList(Member(o, "parameters")) == Ok(ps) <==> SaysParams(o, ps)
  {
    var j := Member(o, "parameters");
    if j.Arr? { ParamsExactly(j.items, ps); }
  }

  /**
   Decoding accepts exactly the JSON whose members have the types of their fields, and makes
   of it the message it says: a member of another type, or a data type beyond 8 bits, is
   refused, a null one counts as missing and one of another name does not count.
   */
  lemma DecodesExactly(j: Json, m: Message)
    ensures Decode(j) == Ok(m) <==> Says(j, m)
  {
    if j.Obj? {
      StringExactly(j.fields, "command", m.command);
      StringExactly(j.fields, "old-cid", m.oldCid);
      StringExactly(j.fields, "new-cid", m.newCid);
      StringExactly(j.fields, "sync-cmc", m.syncCmc);
      ListExactly(j.fields, m.parameters);
    }
  }

  lemma BodyExactly(parse: string -> Option<Json>, body: string, m: Message)
    ensures DecodeBody(parse, body) == Ok(m) <==> Arrives(parse, body, m)
  {
    if body != "" && parse(body).Some? { DecodesExactly(parse(body).value, m); }
  }

  // ---------- encoding ----------

  // omitempty: a member that would be null is left out altogether.
  function Put(o: map<string, Json>, key: string, j: Json): map<string, Json> {
    if j.Null? then o else o[key := j]
  }

  function NonEmpty(s: string): Json {
    if s == "" then Null else Str(s)
  }

  function EncodeParam(p: SetParam): Json {
    var named := map["name" := if p.name.None? then Null else Str(p.name.value)];
    var typed := Put(named, "dataType", if p.dataType.None? then Null else Int(p.dataType.value));
    var valued := Put(typed, "value", if p.value.None? then Null else p.value.value);
    Obj(Put(valued, "attributes",
            if p.attributes.None? || p.attributes.value == map[] then Null else Obj(p.attributes.value)))
  }

  function EncodeParams(ps: seq<SetParam>): seq<Json> {
    if ps == [] then [] else EncodeParams(ps[..|ps| - 1]) + [EncodeParam(ps[|ps| - 1])]
  }

  function EncodeList(ps: seq<SetParam>): Json {
    if ps == [] then Null else Arr(EncodeParams(ps))
  }

  function Encode(m: Message): Json {
    var synced := Put(Put(Put(map["command" := Str(m.command)],
                              "old-cid", NonEmpty(m.oldCid)), "new-cid", NonEmpty(m.newCid)), "sync-cmc", NonEmpty(m.syncCmc));
    Obj(Put(synced, "parameters", EncodeList(m.parameters)))
  }

  // ---------- what a payload holds ----------

  // The member is there exactly when the string is not empty.
  ghost predicate HoldsUnlessEmpty(o: map<string, Json>, key: string, s: string) {
    if s == "" then key !in o else Holds(o, key, Str(s))
  }

  // `name` is always there, null if need be; every other member only for a field that has a value.
  ghost predicate IsParam(j: Json, p: SetParam) {
    && j.Obj?
    && (forall k :: k in j.fields ==> k == "name" || k == "dataType" || k == "value" || k == "attributes")
    && (if p.name.Some? then Holds(j.fields, "name", Str(p.name.value)) else Holds(j.fields, "name", Null))
    && (if p.dataType.Some? then Holds(j.fields, "dataType", Int(p.dataType.value)) else "dataType" !in j.fields)
    && (if p.value.Some? then Holds(j.fields, "value", p.value.value) else "value" !in j.fields)
    && (if p.attributes.Some? && p.attributes.value != map[] then Holds(j.fields, "attributes", Obj(p.attributes.value))
        else "attributes" !in j.fields)
  }

  ghost predicate AreParams(items: seq<Json>, ps: seq<SetParam>) {
    |items| == |ps| && forall i :: 0 <= i < |items| ==> IsParam(items[i], ps[i])
  }

  // `command` is always there; every other member only where it is not empty.
  ghost predicate IsPayload(j: Json, m: Message) {
    && j.Obj?
    && (forall k :: k in j.fields ==>
          k == "command" || k == "old-cid" || k == "new-cid" || k == "sync-cmc" || k == "parameters")
    && Holds(j.fields, "command", Str(m.command))
    && HoldsUnlessEmpty(j.fields, "old-cid", m.oldCid)
    && HoldsUnlessEmpty(j.fields, "new-cid", m.newCid)
    && HoldsUnlessEmpty(j.fields, "sync-cmc", m.syncCmc)
    && (if m.parameters == [] then "parameters" !in j.fields
        else "parameters" in j.fields && j.fields["parameters"].Arr? && AreParams(j.fields["parameters"].items, m.parameters))
  }

  lemma EncodedParam(p: SetParam)
    ensures IsParam(EncodeParam(p), p)
  {
    var named := map["name" := if p.name.None? then Null else Str(p.name.value)];
    var typed := Put(named, "dataType", if p.dataType.None? then Null else Int(p.dataType.value));
    var valued := Put(typed, "value", if p.value.None? then Null else p.value.value);
    assert EncodeParam(p).fields == Put(valued, "attributes",
      if p.attributes.None? || p.attributes.value == map[] then Null else Obj(p.attributes.value));
  }

  lemma {:induction false} EncodedParams(ps: seq<SetParam>)
    ensures AreParams(EncodeParams(ps), ps)
  {
    if ps != [] {
      EncodedParams(ps[..|ps| - 1]);
      EncodedParam(ps[|ps| - 1]);
    }
  }

  lemma Encoded(m: Message)
    ensures IsPayload(Encode(m), m)
  {
    EncodedParams(m.parameters);
    var o := map["command" := Str(m.command)];
    var withOld := Put(o, "old-cid", NonEmpty(m.oldCid));
    var withNew := Put(withOld, "new-cid", NonEmpty(m.newCid));
    var sync := Put(withNew, "sync-cmc", NonEmpty(m.syncCmc));
    assert Encode(m).fields == Put(sync, "parameters", EncodeList(m.parameters));
  }

  lemma OneParam(j: Json, k: Json, p: SetParam)
    requires IsParam(j, p) && IsParam(k, p)
    ensures j == k
  {
    assert forall x :: x in j.fields <==> x in k.fields;
    assert j.fields == k.fields;
  }

  lemma OneParams(js: seq<Json>, ks: seq<Json>, ps: seq<SetParam>)
    requires AreParams(js, ps) && AreParams(ks, ps)
    ensures js == ks
  {
    forall i | 0 <= i < |ps| ensures js[i] == ks[i] {
      OneParam(js[i], ks[i], ps[i]);
    }
  }

  /**
   The payload of a message is the one JSON object with exactly these members: fields that
   are empty are left out, all but the command and the names of parameters.
   */
  lemma EncodesExactly(m: Message, j: Json)
    ensures Encode(m) == j <==> IsPayload(j, m)
  {
    Encoded(m);
    if IsPayload(j, m) { OnePayload(Encode(m), j, m); }
  }

  lemma OnePayload(j: Json, k: Json, m: Message)
    requires IsPayload(j, m) && IsPayload(k, m)
    ensures j == k
  {
    if m.parameters != [] { OneParams(j.fields["parameters"].items, k.fields["parameters"].items, m.parameters); }
    assert forall x :: x in j.fields <==> x in k.fields;
    assert j.fields == k.fields;
  }

  // ---------- what a valid message is ----------

  // A name, and no value without a data type that is not negative.
  ghost predicate Sound(ps: seq<SetParam>) {
    forall i :: 0 <= i < |ps| ==>
      && ps[i].name.Some? && ps[i].name.value != ""
      && (ps[i].value.Some? ==> ps[i].dataType.Some? && ps[i].dataType.value >= 0)
  }

  // All parameters set attributes and nothing else.
  ghost predicate OnlyAttributes(ps: seq<SetParam>) {
    forall i :: 0 <= i < |ps| ==> ps[i].attributes.Some? && ps[i].dataType.None? && ps[i].value.None?
  }

  // No parameter does.
  ghost predicate NoneAttributeOnly(ps: seq<SetParam>) {
    forall i :: 0 <= i < |ps| ==> ps[i].attributes.None? || ps[i].dataType.Some? || ps[i].value.Some?
  }

  ghost predicate AllWithAttributes(ps: seq<SetParam>) {
    forall i :: 0 <= i < |ps| ==> ps[i].attributes.Some?
  }

  // Validity without the test that SET_ATTRIBUTES parameters carry attributes.
  ghost predicate ValidShape(m: Message) {
    if m.parameters == [] then m.command == "TEST_AND_SET"
    else Sound(m.parameters) && (OnlyAttributes(m.parameters) || NoneAttributeOnly(m.parameters))
  }

  ghost predicate Valid(m: Message) {
    ValidShape(m) && (m.command == "SET_ATTRIBUTES" ==> AllWithAttributes(m.parameters))
  }

  // ---------- the command ----------

  /** The command by the first parameter alone. */
  function CommandFor(ps: seq<SetParam>): string {
    if |ps| >= 1 && ps[0].attributes.Some? && ps[0].name.Some? && ps[0].dataType.None? && ps[0].value.None?
    then SET_ATTRIBUTES else SET
  }

  function Deduce(m: Message, h: Sync): Result<Message, LoadError> {
    if h.newCid == "" && h.oldCid != "" then Err(NewCIDRequired)
    else if h == Sync("", "", "") then Ok(m.(command := CommandFor(m.parameters)))
    else Ok(m.(command := TEST_AND_SET, newCid := h.newCid, oldCid := h.oldCid, syncCmc := h.syncCmc))
  }

  ghost function Decide(m: Message, h: Sync): Result<Message, LoadError> {
    match Deduce(m, h)
    case Err(e) => Err(e)
    case Ok(d) => if Valid(d) then Ok(d) else Err(InvalidSet)
  }

  ghost function Load(parse: string -> Option<Json>, body: string, h: Sync): Result<Message, LoadError> {
    match DecodeBody(parse, body)
    case Err(e) => Err(e)
    case Ok(m) => Decide(m, h)
  }

  // ---------- which messages are accepted ----------

  // The message m with these headers is accepted as r, which the whole list decides.
  ghost predicate Accepted(m: Message, h: Sync, r: Message) {
    var ps := m.parameters;
    && Sound(ps) && (OnlyAttributes(ps) || NoneAttributeOnly(ps))
    && (if h.newCid == "" && h.oldCid == "" && h.syncCmc == ""
        then ps != [] && r == m.(command := if OnlyAttributes(ps) then "SET_ATTRIBUTES" else "SET")
        else (h.newCid != "" || h.oldCid == "") && r == Message("TEST_AND_SET", h.oldCid, h.newCid, h.syncCmc, ps))
  }

  // The body with these headers is accepted as r.
  ghost predicate Loads(parse: string -> Option<Json>, body: string, h: Sync, r: Message) {
    exists m :: Arrives(parse, body, m) && Accepted(m, h, r)
  }

  lemma CommandsDiffer()
    ensures SET != SET_ATTRIBUTES && SET != TEST_AND_SET && SET_ATTRIBUTES != TEST_AND_SET
  {
    assert |SET| == 3 && |SET_ATTRIBUTES| == 14 && |TEST_AND_SET| == 12;
  }

  lemma DecidesExactly(m: Message, h: Sync, r: Message)
    ensures Decide(m, h) == Ok(r) <==> Accepted(m, h, r)
  {
    CommandsDiffer();
    var d := Deduce(m, h);
    if d.Ok? {
      if m.parameters != [] {
        assert OnlyAttributes(m.parameters) ==> m.parameters[0].attributes.Some?;
      }
    }
  }

  /**
   A body is accepted exactly as the message it says and the headers make of it together,
   although only the first parameter is looked at to choose the command.
   */
  lemma LoadsExactly(parse: string -> Option<Json>, body: string, h: Sync, r: Message)
    ensures Load(parse, body, h) == Ok(r) <==> Loads(parse, body, h, r)
  {
    if Loads(parse, body, h, r) {
      var m :| Arrives(parse, body, m) && Accepted(m, h, r);
      BodyExactly(parse, body, m);
      DecidesExactly(m, h, r);
    } else if DecodeBody(parse, body).Ok? {
      BodyExactly(parse, body, DecodeBody(parse, body).value);
      DecidesExactly(DecodeBody(parse, body).value, h, r);
    }
  }

  /** Why a body is refused. */
  lemma RefusedExactly(parse: string -> Option<Json>, body: string, h: Sync)
    ensures Load(parse, body, h) == Err(InvalidStructure) <==> forall m :: !Arrives(parse, body, m)
    ensures Load(parse, body, h) == Err(NewCIDRequired) <==>
      (exists m :: Arrives(parse, body, m)) && h.newCid == "" && h.oldCid != ""
  {
    var d := DecodeBody(parse, body);
    if d.Ok? {
      BodyExactly(parse, body, d.value);
    } else {
      forall m ensures !Arrives(parse, body, m) {
        BodyExactly(parse, body, m);
      }
    }
  }

  // ---------- the record and the methods that work on it ----------

  class SetWDMP {
    var command: string
    var oldCid: string
    var newCid: string
    var syncCmc: string
    var parameters: seq<SetParam>

    constructor (m: Message)
      ensures Contents() == m
    {
      command, oldCid, newCid, syncCmc, parameters := m.command, m.oldCid, m.newCid, m.syncCmc, m.parameters;
    }

    function Contents(): Message
      reads this
    {
      Message(command, oldCid, newCid, syncCmc, parameters)
    }

    method DeduceSET(h: Sync) returns (err: Option<LoadError>)
      modifies this
      ensures err.Some? <==> Deduce(old(Contents()), h).Err?
      ensures err.Some? ==> err.value == NewCIDRequired && Contents() == old(Contents())
      ensures err.None? ==> Deduce(old(Contents()), h) == Ok(Contents())
      ensures err.Some? <==> h.newCid == "" && h.oldCid != ""
      ensures err.None? && h == Sync("", "", "") ==>
        var ps := old(parameters);
        Contents() == old(Contents()).(command :=
          if ps != [] && ps[0].attributes.Some? && ps[0].name.Some? && ps[0].dataType.None? && ps[0].value.None?
          then "SET_ATTRIBUTES" else "SET")
      ensures err.None? && h != Sync("", "", "") ==>
        Contents() == Message("TEST_AND_SET", h.oldCid, h.newCid, h.syncCmc, old(parameters))
    {
      if h.newCid == "" && h.oldCid != "" {
        return Some(NewCIDRequired);
      } else if h.newCid == "" && h.oldCid == "" && h.syncCmc == "" {
        command := GetCommandForParams(parameters);
      } else {
        command := TEST_AND_SET;
        newCid, oldCid, syncCmc := h.newCid, h.oldCid, h.syncCmc;
      }
      err := None;
    }

    /** The early-exit loop with its two counters decides the declarative property. */
    method IsValid() returns (valid: bool)
      ensures valid <==> Valid(Contents())
    {
      if |parameters| == 0 {
        return command == TEST_AND_SET;
      }
      var cmdSetAttr, cmdSet := 0, 0;
      for i := 0 to |parameters|
        invariant Sound(parameters[..i])
        invariant command == SET_ATTRIBUTES ==> AllWithAttributes(parameters[..i])
        invariant cmdSetAttr >= 0 && cmdSet >= 0 && cmdSetAttr + cmdSet == i
        invariant cmdSet == 0 <==> OnlyAttributes(parameters[..i])
        invariant cmdSetAttr == 0 <==> NoneAttributeOnly(parameters[..i])
        invariant cmdSetAttr == 0 || cmdSet == 0
      {
        var param := parameters[i];
        assert parameters[..i + 1] == parameters[..i] + [param];
        if param.name.None? || param.name.value == "" {
          return false;
        }
        if param.value.Some? && (param.dataType.None? || param.dataType.value < 0) {
          return false;
        }
        if command == SET_ATTRIBUTES && param.attributes.None? {
          return false;
        }
        if param.attributes.Some? && param.dataType.None? && param.value.None? {
          cmdSetAttr := cmdSetAttr + 1;
        } else {
          cmdSet := cmdSet + 1;
        }
        if cmdSetAttr > 0 && cmdSet > 0 {
          return false;
        }
      }
      assert parameters[..|parameters|] == parameters;
      valid := true;
    }
  }

  method GetCommandForParams(params: seq<SetParam>) returns (command: string)
    ensures command == CommandFor(params)
  {
    command := SET;
    if |params| < 1 {
      return;
    }
    var first := params[0];
    if first.attributes.Some? && first.name.Some? && first.dataType.None? && first.value.None? {
      command := SET_ATTRIBUTES;
    }
  }

  method LoadWDMP(parse: string -> Option<Json>, body: string, h: Sync) returns (r: Result<SetWDMP, LoadError>)
    ensures r.Ok? ==> fresh(r.value) && Load(parse, body, h) == Ok(r.value.Contents())
    ensures r.Err? ==> Load(parse, body, h) == Err(r.error)
    ensures r.Ok? ==> Loads(parse, body, h, r.value.Contents())
    ensures r.Err? ==> forall m :: !Loads(parse, body, h, m)
    ensures r == Err(InvalidStructure) <==> forall m :: !Arrives(parse, body, m)
    ensures r == Err(NewCIDRequired) <==> (exists m :: Arrives(parse, body, m)) && h.newCid == "" && h.oldCid != ""
  {
    forall m {
      LoadsExactly(parse, body, h, m);
    }
    RefusedExactly(parse, body, h);
    var decoded := DecodeBody(parse, body);
    if decoded.Err? {
      return Err(decoded.error);
    }
    var wdmp := new SetWDMP(decoded.value);
    var err := wdmp.DeduceSET(h);
    if err.Some? {
      return Err(err.value);
    }
    var valid := wdmp.IsValid();
    if !valid {
      return Err(InvalidSet);
    }
    r := Ok(wdmp);
  }
}
