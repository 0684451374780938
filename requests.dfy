/**
 * The request decoder (`decodeRequest`): from the payload string to the service,
 * the method name and the decoded positional parameters, or an error code.
 * Parsing the payload text is json-lib's and is passed in as `parse`.
 */
module Requests {
  import opened Outcomes
  import opened Wire
  import opened JavaString
  import opened Registry
  import opened Values
  import opened Dispatch
  import opened Decoder

  /** The outcome of `JSONObject.fromObject(payload)`. */
  datatype ParseOutcome = Unparseable | Parsed(json: Json)

  /**
   * How `decodeRequest` fails: one of the `ILException` codes it throws, or an
   * exception of json-lib's that escapes it uncaught.
   */
  datatype RpcError =
    | ReceivedEmptyMessagePayload
    | MessageParseError
    | ImproperlyFormedRequest
    | InvalidServiceRequest
    | BadParameterType
    | Uncaught(thrown: Thrown)
    /** A parameter holds a value this model does not decode (`NotModelled`); not a code of the Java. */
    | Unmodelled

  /** The `JSONRPCRequest` handed to the service layer. */
  datatype RpcRequest = RpcRequest(
    service: Service,
    methodName: string,
    parameterTypes: seq<Option<Kind>>,
    parameterObjects: seq<Value>)

  /**
   * One element of "parameters": `getJSONObject(i)`, then `getParameterType` and
   * `parseParameter` on it.
   */
  function DecodeParameter(elem: Json): Result<(Option<Kind>, Value), Thrown>
  {
    if !IsParameter(elem) then Fail(JSONException)
    else
      match ParameterType(elem)
      case Fail(e) => Fail(e)
      case Ok(t) =>
        match ParseParameter(elem)
        case Fail(e) => Fail(e)
        case Ok(v) => Ok((t, v))
  }

  /**
   * The first `|pa|` parameters decoded in order, their classes and their values
   * side by side; the first element that throws ends the loop.
   */
  function DecodedPrefix(pa: seq<Json>): (r: Result<(seq<Option<Kind>>, seq<Value>), Thrown>)
    ensures r.Ok? ==> |r.value.0| == |pa| && |r.value.1| == |pa|
  {
    if pa == [] then Ok(([], []))
    else
      match DecodedPrefix(pa[..|pa| - 1])
      case Fail(e) => Fail(e)
      case Ok(acc) =>
        match DecodeParameter(pa[|pa| - 1])
        case Fail(e) => Fail(e)
        case Ok(d) => Ok((acc.0 + [d.0], acc.1 + [d.1]))
  }

  /**
   * The parameter list: all elements decode, or the request fails with
   * `BadParameterType`. A value this model does not decode passes through the
   * catch as `Unmodelled`.
   */
  function DecodeParameters(service: Service, name: string, pa: seq<Json>): Result<RpcRequest, RpcError>
  {
    match DecodedPrefix(pa)
    case Fail(e) => Fail(Rejected(e))
    case Ok(d) => Ok(RpcRequest(service, name, d.0, d.1))
  }

  /**
   * The `catch` around each parameter: every exception becomes `BAD_PARAMETER_TYPE`;
   * a value this model does not decode stays apart as `Unmodelled`.
   */
  function Rejected(e: Thrown): RpcError
  {
    if e == NotModelled then Unmodelled else BadParameterType
  }

  lemma {:induction false} DecodedPrefixFailurePersists(pa: seq<Json>, i: nat)
    requires i <= |pa| && DecodedPrefix(pa[..i]).Fail?
    ensures DecodedPrefix(pa) == DecodedPrefix(pa[..i])
    decreases |pa| - i
  {
    if i < |pa| {
      assert pa[..i + 1][..i] == pa[..i];
      DecodedPrefixFailurePersists(pa, i + 1);
    } else {
      assert pa[..i] == pa;
    }
  }

  /**
   * `decodeRequest(payload)` with the dispatch table `table`. A missing or
   * non-textual "method", or a missing or non-array "parameters", makes json-lib
   * throw, and nothing in `decodeRequest` catches that. `Parsed(JNull)` is
   * `fromObject` returning a Java null, not a parsed JSON null.
   */
  function DecodeRequestSpec(payload: Option<string>, parse: string -> ParseOutcome,
                             table: map<string, Service>): Result<RpcRequest, RpcError>
  {
    if payload.None? || IsBlank(payload.value) then Fail(ReceivedEmptyMessagePayload)
    else
      match parse(payload.value)
      case Unparseable => Fail(MessageParseError)
      case Parsed(JNull) => Fail(ImproperlyFormedRequest)
      case Parsed(JObj(m)) =>
        (match GetMethodName(m)
         case Fail(e) => Fail(Uncaught(e))
         case Ok(name) =>
           if name.None? || name.value !in table then Fail(InvalidServiceRequest)
           else
             match GetArray(m, "parameters")
             case Fail(e) => Fail(Uncaught(e))
             case Ok(pa) => DecodeParameters(table[name.value], name.value, pa))
      case Parsed(_) => Fail(MessageParseError)
  }

  /**
   * `request.getString("method")`. The JSON text of a double, an array or an object
   * is not modelled (`None`); it could never be a Java method name, so such a
   * request is refused as an unknown method.
   */
  function GetMethodName(m: seq<(string, Json)>): Result<Option<string>, Thrown>
  {
    match Lookup(m, "method")
    case None => Fail(JSONException)
    case Some(v) => Ok(TextOf(v))
  }

  /** `decodeRequest`, step by step. */
  method DecodeRequest(payload: Option<string>, parse: string -> ParseOutcome,
                       table: map<string, Service>) returns (r: Result<RpcRequest, RpcError>)
    ensures r == DecodeRequestSpec(payload, parse, table)
  {
    if payload.None? || IsBlank(payload.value) {
      return Fail(ReceivedEmptyMessagePayload);
    }
    var outcome := parse(payload.value);
    if outcome.Unparseable? {
      return Fail(MessageParseError);
    }
    var request := outcome.json;
    if request.JNull? {
      return Fail(ImproperlyFormedRequest);
    }
    if !request.JObj? {
      return Fail(MessageParseError);
    }
    var methodName := GetMethodName(request.members);
    if methodName.Fail? {
      return Fail(Uncaught(methodName.error));
    }
    if methodName.value.None? || methodName.value.value !in table {
      return Fail(InvalidServiceRequest);
    }
    var name := methodName.value.value;
    var srvc := table[name];
    var parameters := GetArray(request.members, "parameters");
    if parameters.Fail? {
      return Fail(Uncaught(parameters.error));
    }
    r := FillParameters(srvc, name, parameters.value);
  }

  /**
   * The loop of `decodeRequest` that fills `parameterTypes` and `parameterObjects`
   * position by position; the first element that throws fails the whole request.
   */
  method FillParameters(srvc: Service, name: string, pa: seq<Json>) returns (r: Result<RpcRequest, RpcError>)
    ensures r == DecodeParameters(srvc, name, pa)
  {
    var paramCount := |pa|;
    var parameterTypes := new Option<Kind>[paramCount];
    var parameterObjects := new Value[paramCount];
    for i := 0 to paramCount
      invariant DecodedPrefix(pa[..i]) == Ok((parameterTypes[..i], parameterObjects[..i]))
    {
      assert pa[..i + 1][..i] == pa[..i];
      var decoded := DecodeParameter(pa[i]);
      if decoded.Fail? {
        assert DecodedPrefix(pa[..i + 1]) == Fail(decoded.error);
        DecodedPrefixFailurePersists(pa, i + 1);
        return Fail(Rejected(decoded.error));
      }
      parameterTypes[i] := decoded.value.0;
      parameterObjects[i] := decoded.value.1;
      assert parameterTypes[..i + 1] == parameterTypes[..i] + [decoded.value.0];
      assert parameterObjects[..i + 1] == parameterObjects[..i] + [decoded.value.1];
    }
    assert pa[..paramCount] == pa;
    assert parameterTypes[..paramCount] == parameterTypes[..];
    assert parameterObjects[..paramCount] == parameterObjects[..];
    r := Ok(RpcRequest(srvc, name, parameterTypes[..], parameterObjects[..]));
  }
}
