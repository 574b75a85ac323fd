/**
 The life of a PATCH body: the logger reads it first and puts it back, then the payload is
 made from it (translation/transport_utils.go, translation/transport.go).
 */
module SetRequest {
  import opened Wrappers
  import opened Wdmp
  import WdmpTheorems

  // A request body: what has been read from it is gone.
  class Body {
    var unread: string

    constructor (data: string)
      ensures unread == data
    {
      unread := data;
    }

    method ReadAll() returns (data: string)
      modifies this
      ensures data == old(unread) && unread == ""
    {
      data := unread;
      unread := "";
    }
  }

  // The fields the request logger is enriched with.
  datatype LogFields = LogFields(command: string, parameters: seq<string>)

  predicate AllNamed(params: seq<SetParam>) {
    forall i :: 0 <= i < |params| ==> params[i].name.Some?
  }

  function Names(params: seq<SetParam>): seq<string>
    requires AllNamed(params)
  {
    seq(|params|, i requires 0 <= i < |params| => params[i].name.value)
  }

  method GetParamNames(params: seq<SetParam>) returns (paramNames: array<string>)
    requires AllNamed(params) // a nil name would be dereferenced
    ensures fresh(paramNames) && paramNames[..] == Names(params)
    ensures paramNames.Length == |params| && forall i :: 0 <= i < |params| ==> paramNames[i] == params[i].name.value
  {
    paramNames := new string[|params|](_ => "");
    for i := 0 to |params|
      invariant forall k :: 0 <= k < i ==> paramNames[k] == params[k].name.value
    {
      paramNames[i] := params[i].name.value;
    }
  }

  /** Accepted messages never make GetParamNames dereference a nil name. */
  lemma AcceptedNamed(parse: string -> Option<Json>, body: string, h: Sync)
    requires Load(parse, body, h).Ok?
    ensures AllNamed(Load(parse, body, h).value.parameters)
  {
  }

  /** The payload sent on for a body, and what the logger is given for it. */
  ghost function Payload(parse: string -> Option<Json>, body: string, h: Sync): Result<Json, LoadError> {
    match Load(parse, body, h)
    case Err(e) => Err(e)
    case Ok(m) => Ok(Encode(m))
  }

  // The payload is that of a message the body and the headers make together. Its CIDs are the
  // headers' where there are any, and the body's otherwise.
  ghost predicate Sent(parse: string -> Option<Json>, body: string, h: Sync, payload: Json, m: Message) {
    && Loads(parse, body, h, m) && IsPayload(payload, m)
    && Decode(payload) == Ok(m.(parameters := WdmpTheorems.ForgetAll(m.parameters)))
    && exists b :: Arrives(parse, body, b) && m.parameters == b.parameters
         && (var cids := if h.newCid != "" || h.oldCid != "" || h.syncCmc != "" then h else Sync(b.newCid, b.oldCid, b.syncCmc);
             && HoldsUnlessEmpty(payload.fields, "new-cid", cids.newCid)
             && HoldsUnlessEmpty(payload.fields, "old-cid", cids.oldCid)
             && HoldsUnlessEmpty(payload.fields, "sync-cmc", cids.syncCmc))
  }

  /** What is sent on, member by member, and that nothing is sent when the body is not accepted. */
  lemma PayloadSent(parse: string -> Option<Json>, body: string, h: Sync)
    ensures Payload(parse, body, h).Ok? ==> exists m :: Sent(parse, body, h, Payload(parse, body, h).value, m)
    ensures Payload(parse, body, h).Err? <==> forall m :: !Loads(parse, body, h, m)
  {
    forall r {
      LoadsExactly(parse, body, h, r);
    }
    if Load(parse, body, h).Ok? {
      var m := Load(parse, body, h).value;
      Encoded(m);
      WdmpTheorems.DecodeEncode(m);
      var b :| Arrives(parse, body, b) && Accepted(b, h, m);
      assert Sent(parse, body, h, Encode(m), m);
    }
  }

  ghost function Logged(parse: string -> Option<Json>, body: string, h: Sync): Option<LogFields> {
    match Load(parse, body, h)
    case Err(_) => None
    case Ok(m) => AcceptedNamed(parse, body, h); Some(LogFields(m.command, Names(m.parameters)))
  }

  class Request {
    const verb: string
    const sync: Sync
    var body: Body

    constructor (verb: string, sync: Sync, body: Body)
      ensures this.verb == verb && this.sync == sync && this.body == body
    {
      this.verb, this.sync, this.body := verb, sync, body;
    }

    /** Reads the body for the logger and leaves a request whose body reads the same. */
    method CaptureWDMPParameters(parse: string -> Option<Json>) returns (log: Option<LogFields>)
      modifies this, body
      ensures body.unread == old(body.unread)
      ensures verb == "PATCH" ==> fresh(body) && log == Logged(parse, old(body.unread), sync)
      ensures verb != "PATCH" ==> body == old(body) && log.None?
    {
      log := None;
      if verb == "PATCH" {
        var bodyBytes := body.ReadAll();
        body := new Body(bodyBytes);
        var wdmp := LoadWDMP(parse, bodyBytes, sync);
        if wdmp.Ok? {
          AcceptedNamed(parse, bodyBytes, sync);
          var names := GetParamNames(wdmp.value.parameters);
          log := Some(LogFields(wdmp.value.command, names[..]));
        }
      }
    }

    method RequestSetPayload(parse: string -> Option<Json>) returns (payload: Result<Json, LoadError>)
      modifies body
      ensures payload == Payload(parse, old(body.unread), sync)
      ensures payload.Ok? ==> exists m :: Sent(parse, old(body.unread), sync, payload.value, m)
      ensures payload.Err? <==> forall m :: !Loads(parse, old(body.unread), sync, m)
      ensures payload.Err? ==> Load(parse, old(body.unread), sync) == Err(payload.error)
    {
      PayloadSent(parse, body.unread, sync);
      var data := body.ReadAll();
      var wdmp := LoadWDMP(parse, data, sync);
      if wdmp.Err? {
        return Err(wdmp.error);
      }
      payload := Ok(Encode(wdmp.value.Contents()));
    }

    /**
     What the server does with a PATCH: the logger first, then the payload. The logger
     leaves no trace in the payload, it is enriched iff the payload is accepted, and then
     the two name the same command and the same parameters in the same order.
     */
    method ServePatch(parse: string -> Option<Json>)
      returns (log: Option<LogFields>, payload: Result<Json, LoadError>)
      requires verb == "PATCH"
      modifies this, body
      ensures payload == Payload(parse, old(body.unread), sync)
      ensures payload.Ok? ==> exists m :: Sent(parse, old(body.unread), sync, payload.value, m)
      ensures payload.Err? <==> forall m :: !Loads(parse, old(body.unread), sync, m)
      ensures payload.Err? ==> Load(parse, old(body.unread), sync) == Err(payload.error)
      ensures log.Some? <==> payload.Ok?
      ensures payload.Ok? ==> Agree(log.value, payload.value)
    {
      log := CaptureWDMPParameters(parse);
      ghost var data := body.unread;
      payload := RequestSetPayload(parse);
      if payload.Ok? {
        LogMatchesPayload(parse, data, sync);
      }
    }
  }

  // ---------- the log and the payload ----------

  function NameIn(item: Json): Json {
    if item.Obj? then Member(item.fields, "name") else Null
  }

  // The command and the names, read off the payload itself.
  ghost predicate Agree(log: LogFields, payload: Json) {
    && payload.Obj? && Member(payload.fields, "command") == Str(log.command)
    && var list := Member(payload.fields, "parameters");
       (if log.parameters == [] then list == Null
        else list.Arr? && |list.items| == |log.parameters| &&
             forall i :: 0 <= i < |log.parameters| ==> NameIn(list.items[i]) == Str(log.parameters[i]))
  }

  lemma {:induction false} EncodedName(ps: seq<SetParam>, i: nat)
    requires AllNamed(ps) && i < |ps|
    ensures |EncodeParams(ps)| == |ps| && NameIn(EncodeParams(ps)[i]) == Str(ps[i].name.value)
  {
    var init := ps[..|ps| - 1];
    if i < |init| {
      EncodedName(init, i);
    } else if init != [] {
      EncodedName(init, 0);
    }
  }

  lemma LogMatchesPayload(parse: string -> Option<Json>, body: string, h: Sync)
    requires Load(parse, body, h).Ok?
    ensures Agree(Logged(parse, body, h).value, Payload(parse, body, h).value)
  {
    var m := Load(parse, body, h).value;
    AcceptedNamed(parse, body, h);
    forall i | 0 <= i < |m.parameters|
      ensures |EncodeParams(m.parameters)| == |m.parameters|
      ensures NameIn(EncodeParams(m.parameters)[i]) == Str(m.parameters[i].name.value)
    {
      EncodedName(m.parameters, i);
    }
    WdmpTheorems.Members(m);
  }
}
