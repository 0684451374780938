/** What `decodeRequest` promises about the request it returns and the codes it throws. */
module RequestProps {
  import opened Outcomes
  import opened Wire
  import opened JavaString
  import opened Registry
  import opened Values
  import opened Dispatch
  import opened Decoder
  import opened Requests
  import opened Encoder
  import opened RoundTrip

  /** Element `i` is the first element of `pa` that does not decode. */
  predicate FirstFailure(pa: seq<Json>, i: int)
  {
    0 <= i < |pa| && DecodeParameter(pa[i]).Fail? && forall k :: 0 <= k < i ==> DecodeParameter(pa[k]).Ok?
  }

  /**
   * The parameter arrays are filled position by position: they exist exactly when
   * every element decodes, and position `i` holds the class and the value of
   * element `i`.
   */
  lemma {:induction false} ParametersPointwise(pa: seq<Json>)
    ensures DecodedPrefix(pa).Ok? <==> forall i :: 0 <= i < |pa| ==> DecodeParameter(pa[i]).Ok?
    ensures DecodedPrefix(pa).Ok? ==>
              forall i :: 0 <= i < |pa| ==>
                DecodeParameter(pa[i]) == Ok((DecodedPrefix(pa).value.0[i], DecodedPrefix(pa).value.1[i]))
  {
    if pa != [] {
      var n := |pa| - 1;
      var init := pa[..n];
      ParametersPointwise(init);
      assert forall i :: 0 <= i < n ==> init[i] == pa[i];
      var prev, last := DecodedPrefix(init), DecodeParameter(pa[n]);
      assert DecodedPrefix(pa) ==
             if prev.Fail? then Fail(prev.error)
             else if last.Fail? then Fail(last.error)
             else Ok((prev.value.0 + [last.value.0], prev.value.1 + [last.value.1]));
      if prev.Fail? {
        var i :| 0 <= i < n && DecodeParameter(init[i]).Fail?;
        assert DecodeParameter(pa[i]).Fail?;
      } else if last.Ok? {
        var ts, os := prev.value.0 + [last.value.0], prev.value.1 + [last.value.1];
        forall i | 0 <= i < |pa| ensures DecodeParameter(pa[i]) == Ok((ts[i], os[i])) {
          if i < n {
            assert ts[i] == prev.value.0[i] && os[i] == prev.value.1[i];
          }
        }
      }
    }
  }

  /** When the parameter arrays cannot be filled, the first element that does not decode decides the exception. */
  lemma {:induction false} FirstFailureDecides(pa: seq<Json>)
    ensures DecodedPrefix(pa).Fail? ==>
              exists i :: FirstFailure(pa, i) && DecodedPrefix(pa).error == DecodeParameter(pa[i]).error
  {
    if pa != [] {
      var n := |pa| - 1;
      var init := pa[..n];
      FirstFailureDecides(init);
      ParametersPointwise(init);
      assert forall i :: 0 <= i < n ==> init[i] == pa[i];
      var prev, last := DecodedPrefix(init), DecodeParameter(pa[n]);
      assert DecodedPrefix(pa) ==
             if prev.Fail? then Fail(prev.error)
             else if last.Fail? then Fail(last.error)
             else Ok((prev.value.0 + [last.value.0], prev.value.1 + [last.value.1]));
      if prev.Fail? {
        var i0 :| FirstFailure(init, i0) && prev.error == DecodeParameter(init[i0]).error;
        assert FirstFailure(pa, i0);
      } else if last.Fail? {
        assert FirstFailure(pa, n);
      }
    }
  }

  /**
   * A parameter is accepted only as an object with a tag; its class is the one
   * registered for the tag, or none for a tag outside the registry.
   */
  lemma AcceptedParameter(elem: Json)
    requires DecodeParameter(elem).Ok?
    ensures elem.JObj? && TagKey in KeySet(elem.members)
    ensures TextOf(Lookup(elem.members, TagKey).value).Some? ==>
              DecodeParameter(elem).value.0 == KindOfTag(TextOf(Lookup(elem.members, TagKey).value).value)
  {
  }

  /** A parameter without a tag, or the null object, makes `getParameterType` throw. */
  lemma UntaggedParameterRejected(elem: Json)
    requires elem.JNull? || (elem.JObj? && TagKey !in KeySet(elem.members))
    ensures DecodeParameter(elem) == Fail(JSONException)
  {
  }

  /**
   * A parameter whose tag is outside the registry is accepted, of no class and
   * with the value null: `parseObject` on a null class returns null.
   */
  lemma UnregisteredTagIsNull(tag: string, value: Json)
    requires KindOfTag(tag).None?
    ensures DecodeParameter(Tagged(tag, value)) == Ok((None, Null))
  {
    DecodeTagged(tag, value);
  }

  /**
   * What the encoder sends for a List is accepted as a parameter, but of no class
   * and with the value null, since "List" is not registered.
   */
  lemma ListParameterIsNull(js: seq<Json>)
    ensures DecodeParameter(Tagged("List", JArr(js))) == Ok((None, Null))
  {
    ListNotRegistered();
    UnregisteredTagIsNull("List", JArr(js));
  }

  /**
   * The checks run in a fixed order: an absent or blank payload is refused before
   * it is parsed, a payload that does not parse before anything is read from it,
   * the null object before its method is looked up, and an unknown method before
   * "parameters" is read.
   */
  lemma ErrorOrder(payload: Option<string>, parse: string -> ParseOutcome, table: map<string, Service>)
    ensures payload.None? || IsBlank(payload.value) ==>
              DecodeRequestSpec(payload, parse, table) == Fail(ReceivedEmptyMessagePayload)
    ensures payload.Some? && !IsBlank(payload.value) && parse(payload.value).Unparseable? ==>
              DecodeRequestSpec(payload, parse, table) == Fail(MessageParseError)
    ensures payload.Some? && !IsBlank(payload.value) && parse(payload.value) == Parsed(JNull) ==>
              DecodeRequestSpec(payload, parse, table) == Fail(ImproperlyFormedRequest)
    ensures payload.Some? && !IsBlank(payload.value) && parse(payload.value).Parsed? &&
            parse(payload.value).json.JObj? &&
            GetMethodName(parse(payload.value).json.members).Ok? &&
            (GetMethodName(parse(payload.value).json.members).value.None? ||
             GetMethodName(parse(payload.value).json.members).value.value !in table) ==>
              DecodeRequestSpec(payload, parse, table) == Fail(InvalidServiceRequest)
  {
  }

  /** The request was parsed to an object with a known method and an array of parameters. */
  predicate WellFormed(payload: Option<string>, parse: string -> ParseOutcome, table: map<string, Service>)
  {
    payload.Some? && !IsBlank(payload.value) &&
    parse(payload.value).Parsed? && parse(payload.value).json.JObj? &&
    GetMethodName(parse(payload.value).json.members).Ok? &&
    GetMethodName(parse(payload.value).json.members).value.Some? &&
    GetMethodName(parse(payload.value).json.members).value.value in table &&
    GetArray(parse(payload.value).json.members, "parameters").Ok?
  }

  /**
   * A decoded request names a method of the table and the interface that declares
   * it, and carries one class and one value per element of "parameters", decoded
   * from that element.
   */
  lemma AcceptedRequest(payload: Option<string>, parse: string -> ParseOutcome, table: map<string, Service>)
    requires DecodeRequestSpec(payload, parse, table).Ok?
    ensures WellFormed(payload, parse, table)
    ensures var m := parse(payload.value).json.members;
            var r := DecodeRequestSpec(payload, parse, table).value;
            var pa := GetArray(m, "parameters").value;
            Lookup(m, "method").Some? && TextOf(Lookup(m, "method").value) == Some(r.methodName) &&
            r.methodName in table && r.service == table[r.methodName] &&
            |r.parameterTypes| == |pa| && |r.parameterObjects| == |pa| &&
            forall i :: 0 <= i < |pa| ==> DecodeParameter(pa[i]) == Ok((r.parameterTypes[i], r.parameterObjects[i]))
  {
    var m := parse(payload.value).json.members;
    ParametersPointwise(GetArray(m, "parameters").value);
  }

  /**
   * A well-formed request is decoded exactly when every parameter decodes.
   * Otherwise the first parameter that does not decode decides: its exception is
   * caught as `BAD_PARAMETER_TYPE`, and a value this model does not decode gives
   * `Unmodelled`.
   */
  lemma BadParameterIff(payload: Option<string>, parse: string -> ParseOutcome, table: map<string, Service>)
    requires WellFormed(payload, parse, table)
    ensures var pa := GetArray(parse(payload.value).json.members, "parameters").value;
            (DecodeRequestSpec(payload, parse, table).Ok? <==>
               forall i :: 0 <= i < |pa| ==> DecodeParameter(pa[i]).Ok?) &&
            (DecodeRequestSpec(payload, parse, table) == Fail(BadParameterType) <==>
               exists i :: FirstFailure(pa, i) && DecodeParameter(pa[i]) != Fail(NotModelled)) &&
            (DecodeRequestSpec(payload, parse, table) == Fail(Unmodelled) <==>
               exists i :: FirstFailure(pa, i) && DecodeParameter(pa[i]) == Fail(NotModelled))
    ensures DecodeRequestSpec(payload, parse, table).Fail? ==>
              DecodeRequestSpec(payload, parse, table).error in {BadParameterType, Unmodelled}
  {
    var m := parse(payload.value).json.members;
    var name := GetMethodName(m).value.value;
    var pa := GetArray(m, "parameters").value;
    assert DecodeRequestSpec(payload, parse, table) == DecodeParameters(table[name], name, pa);
    ParametersPointwise(pa);
    FirstFailureDecides(pa);
    if DecodedPrefix(pa).Fail? {
      var i0 :| FirstFailure(pa, i0) && DecodedPrefix(pa).error == DecodeParameter(pa[i0]).error;
      forall k | FirstFailure(pa, k) ensures k == i0 {
        assert !(k < i0) && !(i0 < k);
      }
    }
  }

  /**
   * Any other failure is one of the codes thrown before the parameters are read,
   * or a json-lib exception that escapes: a request that is not well formed never
   * decodes.
   */
  lemma MalformedRequestFails(payload: Option<string>, parse: string -> ParseOutcome, table: map<string, Service>)
    requires !WellFormed(payload, parse, table)
    ensures DecodeRequestSpec(payload, parse, table).Fail?
    ensures DecodeRequestSpec(payload, parse, table).error != BadParameterType
    ensures DecodeRequestSpec(payload, parse, table).error != Unmodelled
  {
  }
}
