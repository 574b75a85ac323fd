/** The GET payload (translation/transport.go, requestGetPayload). */
module GetRequest {
  import opened Wrappers
  import opened Text

  const GET := "GET"
  const GET_ATTRIBUTES := "GET_ATTRIBUTES"

  datatype GetError = EmptyNames
  datatype GetWDMP = GetWDMP(command: string, names: seq<string>, attributes: string)

  function GetPayload(names: string, attributes: string): Result<GetWDMP, GetError> {
    if |names| < 1 then Err(EmptyNames)
    else
      var wdmp := GetWDMP(GET, Split(names, ','), "");
      Ok(if attributes != "" then wdmp.(command := GET_ATTRIBUTES, attributes := attributes) else wdmp)
  }

  /** Among comma-free lists the payload's is the one, and the only one, that joins back to the input. */
  lemma NamesUnique(names: string, attributes: string, list: seq<string>)
    requires names != ""
    ensures GetPayload(names, attributes).Ok?
    ensures GetPayload(names, attributes).value.names == list <==>
            list != [] && AllWithout(list, ',') && Join(list, ",") == names
  {
    JoinSplit(names, ',');
    SplitParts(names, ',');
    if list != [] && AllWithout(list, ',') && Join(list, ",") == names {
      SplitJoin(list, ',');
    }
  }

  /** Only an empty names argument is refused. */
  lemma OnlyEmptyRefused(names: string, attributes: string)
    ensures GetPayload(names, attributes) == Err(EmptyNames) <==> names == ""
  {
  }

  /** Nothing is lost: the two arguments can be read off the payload. */
  lemma {:induction false} PayloadReadable(names: string, attributes: string)
    requires names != ""
    ensures var p := GetPayload(names, attributes).value;
      && Join(p.names, ",") == names && p.attributes == attributes
      && p.command == (if attributes == "" then "GET" else "GET_ATTRIBUTES")
      && |p.names| == Occurrences(names, ',') + 1
  {
    JoinSplit(names, ',');
    SplitLength(names, ',');
  }
}
