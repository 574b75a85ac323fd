/** What classification, validation and encoding of SET messages promise together. */
module WdmpTheorems {
  import opened Wrappers
  import opened Wdmp

  const NO_SYNC := Sync("", "", "")

  // ---------- the first parameter decides for the whole list ----------

  /**
   Without sync headers the peek at the first parameter and the loop over all of them
   classify the body's message exactly: SET_ATTRIBUTES iff the list is non-empty and every
   parameter has a name and attributes and nothing else, SET iff it is non-empty, sound and
   no parameter sets attributes only. Nothing else of the message is changed, in particular
   not the CIDs found in the body.
   */
  lemma ClassifiesExactly(parse: string -> Option<Json>, body: string, m: Message)
    requires Arrives(parse, body, m)
    ensures Load(parse, body, NO_SYNC) == Ok(m.(command := "SET_ATTRIBUTES")) <==>
            m.parameters != [] && forall i :: 0 <= i < |m.parameters| ==>
              var p := m.parameters[i];
              p.name.Some? && p.name.value != "" && p.attributes.Some? && p.dataType.None? && p.value.None?
    ensures Load(parse, body, NO_SYNC) == Ok(m.(command := "SET")) <==>
            m.parameters != [] && Sound(m.parameters) && NoneAttributeOnly(m.parameters)
    ensures Load(parse, body, NO_SYNC).Err? <==>
            Load(parse, body, NO_SYNC) != Ok(m.(command := "SET_ATTRIBUTES")) && Load(parse, body, NO_SYNC) != Ok(m.(command := "SET"))
  {
    LoadDecides(parse, body, NO_SYNC, m);
    DecidesAnyway(m, NO_SYNC);
    CommandsDiffer();
  }

  // What the body says is what is decided about.
  lemma LoadDecides(parse: string -> Option<Json>, body: string, h: Sync, m: Message)
    requires Arrives(parse, body, m)
    ensures Load(parse, body, h) == Decide(m, h)
  {
    BodyExactly(parse, body, m);
  }

  lemma DecidesAnyway(m: Message, h: Sync)
    ensures forall r :: Decide(m, h) == Ok(r) <==> Accepted(m, h, r)
  {
    forall r {
      DecidesExactly(m, h, r);
    }
  }

  /**
   With sync headers the body's message becomes TEST_AND_SET with the headers' values in
   place of the body's, accepted iff the list, which may be empty, is sound and not mixed.
   */
  lemma ClassifiesSync(parse: string -> Option<Json>, body: string, m: Message, h: Sync)
    requires Arrives(parse, body, m) && h != NO_SYNC
    ensures Load(parse, body, h) == Err(NewCIDRequired) <==> h.newCid == "" && h.oldCid != ""
    ensures Load(parse, body, h) == Ok(Message("TEST_AND_SET", h.oldCid, h.newCid, h.syncCmc, m.parameters)) <==>
            && (h.newCid != "" || h.oldCid == "") && Sound(m.parameters)
            && (OnlyAttributes(m.parameters) || NoneAttributeOnly(m.parameters))
    ensures Load(parse, body, h).Ok? ==> Load(parse, body, h).value.command == "TEST_AND_SET"
  {
    LoadDecides(parse, body, h, m);
    DecidesAnyway(m, h);
  }

  /** An empty body is a TEST_AND_SET without parameters: the headers alone decide. */
  lemma EmptyBody(parse: string -> Option<Json>, h: Sync)
    ensures Load(parse, "", h) == Ok(Message("TEST_AND_SET", h.oldCid, h.newCid, h.syncCmc, [])) <==>
            h.newCid != "" || (h.oldCid == "" && h.syncCmc != "")
    ensures h == NO_SYNC ==> Load(parse, "", h) == Err(InvalidSet)
  {
  }

  // ---------- the redundant test ----------

  /**
   Once the command has been deduced, the per-parameter test that SET_ATTRIBUTES carries
   attributes decides nothing: validity without it is validity.
   */
  lemma AttributeTestRedundant(m: Message, h: Sync)
    requires Deduce(m, h).Ok?
    ensures var d := Deduce(m, h).value; Valid(d) <==> ValidShape(d)
  {
  }

  /**
   For a command set by hand the test matters, and exactly here: SET_ATTRIBUTES over a
   non-empty well-formed list in which no parameter is attribute-only and one has no attributes.
   */
  lemma AttributeTestMatters(m: Message)
    ensures ValidShape(m) && !Valid(m) <==>
            && m.command == "SET_ATTRIBUTES" && m.parameters != [] && Sound(m.parameters)
            && NoneAttributeOnly(m.parameters) && !AllWithAttributes(m.parameters)
  {
  }

  lemma AttributeTestExample()
    ensures var m := Message("SET_ATTRIBUTES", "", "", "", [SetParam(Some("p"), None, None, None)]);
            ValidShape(m) && !Valid(m)
  {
    var p := SetParam(Some("p"), None, None, None);
    assert [p][0] == p && "p" != "";
    AttributeTestMatters(Message("SET_ATTRIBUTES", "", "", "", [p]));
  }

  // ---------- encode and load again ----------

  // What the encoding keeps of a parameter: empty attributes are dropped.
  function Forget(p: SetParam): SetParam {
    if p.attributes == Some(map[]) then p.(attributes := None) else p
  }

  function ForgetAll(ps: seq<SetParam>): (qs: seq<SetParam>)
    ensures |qs| == |ps| && forall i :: 0 <= i < |ps| ==> qs[i] == Forget(ps[i])
  {
    seq(|ps|, i requires 0 <= i < |ps| => Forget(ps[i]))
  }

  lemma MemberPut(o: map<string, Json>, key: string, j: Json)
    ensures forall k :: Member(Put(o, key, j), k) == if k == key && j != Null then j else Member(o, k)
  {
  }

  lemma DecodeEncodeParam(p: SetParam)
    ensures DecodeParam(EncodeParam(p)) == Ok(Forget(p))
  {
    var named := map["name" := if p.name.None? then Null else Str(p.name.value)];
    var dataType := if p.dataType.None? then Null else Int(p.dataType.value);
    var value := if p.value.None? then Null else p.value.value;
    MemberPut(named, "dataType", dataType);
    MemberPut(Put(named, "dataType", dataType), "value", value);
    MemberPut(Put(Put(named, "dataType", dataType), "value", value), "attributes",
      if p.attributes.None? || p.attributes.value == map[] then Null else Obj(p.attributes.value));
  }

  lemma DecodeSnoc(items: seq<Json>, ps: seq<SetParam>, j: Json, p: SetParam)
    requires DecodeParams(items) == Ok(ps) && DecodeParam(j) == Ok(p)
    ensures DecodeParams(items + [j]) == Ok(ps + [p])
  {
    assert (items + [j])[..|items|] == items;
  }

  // Decoding one by one: p and its encoding j follow an encoded list.
  lemma DecodeNext(items: seq<Json>, ps: seq<SetParam>, p: SetParam)
    requires DecodeParams(items) == Ok(ForgetAll(ps))
    ensures DecodeParams(items + [EncodeParam(p)]) == Ok(ForgetAll(ps + [p]))
  {
    DecodeEncodeParam(p);
    DecodeSnoc(items, ForgetAll(ps), EncodeParam(p), Forget(p));
    assert ForgetAll(ps + [p]) == ForgetAll(ps) + [Forget(p)];
  }

  lemma {:induction false} DecodeEncodeParams(ps: seq<SetParam>)
    ensures DecodeParams(EncodeParams(ps)) == Ok(ForgetAll(ps))
  {
    if ps != [] {
      var init, p := ps[..|ps| - 1], ps[|ps| - 1];
      DecodeEncodeParams(init);
      DecodeNext(EncodeParams(init), init, p);
      assert init + [p] == ps;
    }
  }

  /** Under each key the payload has its field of the message, or nothing where that is empty. */
  lemma Members(m: Message)
    ensures var o := Encode(m).fields;
      && Member(o, "command") == Str(m.command)
      && Member(o, "old-cid") == NonEmpty(m.oldCid)
      && Member(o, "new-cid") == NonEmpty(m.newCid)
      && Member(o, "sync-cmc") == NonEmpty(m.syncCmc)
      && Member(o, "parameters") == EncodeList(m.parameters)
  {
    var o := map["command" := Str(m.command)];
    MemberPut(o, "old-cid", NonEmpty(m.oldCid));
    o := Put(o, "old-cid", NonEmpty(m.oldCid));
    MemberPut(o, "new-cid", NonEmpty(m.newCid));
    o := Put(o, "new-cid", NonEmpty(m.newCid));
    MemberPut(o, "sync-cmc", NonEmpty(m.syncCmc));
    o := Put(o, "sync-cmc", NonEmpty(m.syncCmc));
    MemberPut(o, "parameters", EncodeList(m.parameters));
  }

  /** Decoding an encoded message gives it back, except for attributes that were empty. */
  lemma DecodeEncode(m: Message)
    ensures Decode(Encode(m)) == Ok(m.(parameters := ForgetAll(m.parameters)))
  {
    Members(m);
    DecodeEncodeParams(m.parameters);
  }

  lemma {:induction false} EncodeForgets(ps: seq<SetParam>)
    ensures EncodeParams(ForgetAll(ps)) == EncodeParams(ps)
  {
    if ps != [] {
      var init := ps[..|ps| - 1];
      EncodeForgets(init);
      assert ForgetAll(ps)[..|ps| - 1] == ForgetAll(init);
    }
  }

  /** Two messages with one payload have the same command and the same parameters, empty attributes aside. */
  lemma EncodeInjective(m: Message, n: Message)
    ensures Encode(m) == Encode(n) <==>
            m.(parameters := ForgetAll(m.parameters)) == n.(parameters := ForgetAll(n.parameters))
  {
    DecodeEncode(m);
    DecodeEncode(n);
    EncodeForgets(m.parameters);
    EncodeForgets(n.parameters);
  }

  // The payload of m, loaded again with the same headers, is accepted and encodes to itself.
  ghost predicate RoundTrips(m: Message, h: Sync) {
    var again := Decode(Encode(m));
    again.Ok? && Decide(again.value, h).Ok? && Encode(Decide(again.value, h).value) == Encode(m)
  }

  predicate AttributeOnly(p: SetParam) {
    p.attributes.Some? && p.dataType.None? && p.value.None?
  }

  predicate EmptyAttributeOnly(p: SetParam) {
    AttributeOnly(p) && p.attributes == Some(map[])
  }

  // No attribute-only parameter has empty attributes, or a TEST_AND_SET has nothing else.
  ghost predicate Sturdy(m: Message) {
    || (forall i :: 0 <= i < |m.parameters| ==> !EmptyAttributeOnly(m.parameters[i]))
    || (m.command == TEST_AND_SET && forall i :: 0 <= i < |m.parameters| ==> EmptyAttributeOnly(m.parameters[i]))
  }

  /** An accepted message survives the round trip exactly when it is sturdy. */
  lemma RoundTrip(d: Message, h: Sync, m: Message)
    requires Decide(d, h) == Ok(m)
    ensures RoundTrips(m, h) <==> Sturdy(m)
  {
    DecodeEncode(m);
    if Sturdy(m) {
      SturdyReturns(d, h, m);
    } else {
      FrailBreaks(d, h, m);
    }
  }

  // What dropping empty attributes does to the shape of the list.
  lemma ForgetShape(ps: seq<SetParam>)
    ensures Sound(ForgetAll(ps)) <==> Sound(ps)
    ensures (forall i :: 0 <= i < |ps| ==> !EmptyAttributeOnly(ps[i])) ==>
              && (OnlyAttributes(ForgetAll(ps)) <==> OnlyAttributes(ps))
              && (NoneAttributeOnly(ForgetAll(ps)) <==> NoneAttributeOnly(ps))
              && CommandFor(ForgetAll(ps)) == CommandFor(ps)
    ensures (forall i :: 0 <= i < |ps| ==> EmptyAttributeOnly(ps[i])) ==> NoneAttributeOnly(ForgetAll(ps))
  {
    var qs := ForgetAll(ps);
    forall i | 0 <= i < |ps|
      ensures AttributeOnly(qs[i]) <==> AttributeOnly(ps[i]) && !EmptyAttributeOnly(ps[i])
    {
      assert qs[i] == Forget(ps[i]);
    }
  }

  lemma SturdyReturns(d: Message, h: Sync, m: Message)
    requires Decide(d, h) == Ok(m) && Sturdy(m)
    ensures RoundTrips(m, h)
  {
    CommandsDiffer();
    var n := m.(parameters := ForgetAll(m.parameters));
    DecodeEncode(m);
    ForgetShape(m.parameters);
    assert Deduce(n, h) == Ok(n);
    AttributeTestRedundant(n, h);
    EncodeForgets(m.parameters);
  }

  lemma FrailBreaks(d: Message, h: Sync, m: Message)
    requires Decide(d, h) == Ok(m) && !Sturdy(m)
    ensures !RoundTrips(m, h)
  {
    CommandsDiffer();
    DecodeEncode(m);
    var n := m.(parameters := ForgetAll(m.parameters));
    var k :| 0 <= k < |m.parameters| && EmptyAttributeOnly(m.parameters[k]);
    assert AttributeOnly(m.parameters[k]) && !AttributeOnly(n.parameters[k]);
    assert OnlyAttributes(m.parameters);
    assert AttributeOnly(m.parameters[0]);
    if Decide(n, h).Ok? {
      assert NoneAttributeOnly(Decide(n, h).value.parameters);
      assert !AttributeOnly(n.parameters[0]);
      EncodeInjective(m, Decide(n, h).value);
      assert forall i :: 0 <= i < |m.parameters| ==> AttributeOnly(m.parameters[i]) && n.parameters[i] == Forget(m.parameters[i]) && !AttributeOnly(n.parameters[i]);
    }
  }

  /** A body that is a payload is decided about as the message it encodes, empty attributes aside. */
  lemma PayloadLoads(parse: string -> Option<Json>, body: string, h: Sync, m: Message)
    requires body != "" && parse(body) == Some(Encode(m))
    ensures Load(parse, body, h) == Decide(m.(parameters := ForgetAll(m.parameters)), h)
  {
    DecodeEncode(m);
  }

  /**
   The same for bodies: the payload made from an accepted body, sent as a body in its turn
   with the same headers, gives the same payload exactly when the message is sturdy.
   */
  lemma BodyRoundTrip(parse: string -> Option<Json>, body: string, h: Sync, m: Message, again: string)
    requires Load(parse, body, h) == Ok(m) && again != "" && parse(again) == Some(Encode(m))
    ensures (exists n :: Load(parse, again, h) == Ok(n) && Encode(n) == Encode(m)) <==> Sturdy(m)
  {
    DecodeEncode(m);
    PayloadLoads(parse, again, h, m);
    RoundTrip(DecodeBody(parse, body).value, h, m);
  }

  /** The simplest message that does not survive: one parameter whose attributes are empty. */
  lemma RoundTripExample()
    ensures var d := Message("", "", "", "", [SetParam(Some("p"), None, None, Some(map[]))]);
            Decide(d, NO_SYNC).Ok? && !RoundTrips(Decide(d, NO_SYNC).value, NO_SYNC)
  {
    CommandsDiffer();
    var p := SetParam(Some("p"), None, None, Some(map[]));
    var d := Message("", "", "", "", [p]);
    assert d.parameters[0] == p && "p" != "";
    DecidesExactly(d, NO_SYNC, d.(command := "SET_ATTRIBUTES"));
    assert EmptyAttributeOnly(d.parameters[0]);
    RoundTrip(d, NO_SYNC, d.(command := SET_ATTRIBUTES));
  }
}
