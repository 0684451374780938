/**
 * Encoding followed by decoding: which values `parseParameter(encode(v))` gives
 * back, and the ones it does not.
 */
module RoundTrip {
  import opened Outcomes
  import opened Wire
  import opened JavaString
  import opened Registry
  import opened Dates
  import opened Values
  import opened Decoder
  import opened Encoder
  import opened EncoderProps
  import opened DecoderProps

  /** A tagged value decodes under its tag's class, reading the "value" member. */
  lemma DecodeTagged(tag: string, value: Json)
    ensures ParameterType(Tagged(tag, value)) == Ok(KindOfTag(tag))
    ensures FindKey(Tagged(tag, value).members, ValueKey) == Some(1)
  {
  }

  /** An Integer travels as "Integer" with its number and comes back unchanged. */
  lemma IntRoundTrip(n: Int32)
    ensures EncodeObject(Int(n)) == Ok(Tagged("Integer", JInt(n)))
    ensures ParseParameter(Tagged("Integer", JInt(n))) == Ok(Int(n))
  {
    DecodeTagged("Integer", JInt(n));
  }

  /** A Long travels as "Long" with its number and comes back unchanged. */
  lemma LongRoundTrip(n: Int64)
    ensures EncodeObject(Long(n)) == Ok(Tagged("Long", JInt(n)))
    ensures ParseParameter(Tagged("Long", JInt(n))) == Ok(Long(n))
  {
    DecodeTagged("Long", JInt(n));
  }

  /** A Double travels as "Double" with its number and comes back unchanged. */
  lemma DoubleRoundTrip(f: Float)
    ensures EncodeObject(Dbl(f)) == Ok(Tagged("Double", JFloat(f)))
    ensures ParseParameter(Tagged("Double", JFloat(f))) == Ok(Dbl(f))
  {
    DecodeTagged("Double", JFloat(f));
  }

  /** A Boolean travels as "Boolean" with the string "true" or "false" and comes back unchanged. */
  lemma BoolRoundTrip(b: bool)
    ensures EncodeObject(Bool(b)) == Ok(Tagged("Boolean", JStr(if b then "true" else "false")))
    ensures ParseParameter(Tagged("Boolean", JStr(if b then "true" else "false"))) == Ok(Bool(b))
  {
    DecodeTagged("Boolean", JStr(if b then "true" else "false"));
  }

  /**
   * A "Boolean" parameter decodes a JSON boolean as it is, and the strings "true"
   * and "false" in any letter case; any other string makes `getBoolean` throw.
   */
  lemma BoolDecodes(b: bool, s: string)
    ensures ParseParameter(Tagged("Boolean", JBool(b))) == Ok(Bool(b))
    ensures EqualsIgnoreCase(s, "true") ==> ParseParameter(Tagged("Boolean", JStr(s))) == Ok(Bool(true))
    ensures EqualsIgnoreCase(s, "false") ==> ParseParameter(Tagged("Boolean", JStr(s))) == Ok(Bool(false))
    ensures !EqualsIgnoreCase(s, "true") && !EqualsIgnoreCase(s, "false") ==>
              ParseParameter(Tagged("Boolean", JStr(s))) == Fail(JSONException)
  {
    DecodeTagged("Boolean", JBool(b));
    DecodeTagged("Boolean", JStr(s));
  }

  /** A Date travels as "Date" with its pattern text. */
  lemma DateEncodes(d: DateRec)
    ensures EncodeObject(Date(d)) == Ok(Tagged("Date", JStr(FormatDate(d))))
  {
  }

  /** The Date branch of `parseParameter` reads the pattern text back. */
  lemma DateDecodes(d: DateRec)
    requires Representable(d)
    ensures ParseParameter(Tagged("Date", JStr(FormatDate(d)))) == Ok(Date(d))
  {
    var j := Tagged("Date", JStr(FormatDate(d)));
    DecodeTagged("Date", JStr(FormatDate(d)));
    TagNameRegistered(DateType);
    FormatThenParse(d);
    assert FindKey(j.members, ValueKey) == Some(1) && j.members[1].1 == JStr(FormatDate(d));
    assert ParameterType(j) == Ok(Some(DateType));
  }

  /** A Date whose fields fit the pattern travels as "Date" with its 14 digits and comes back unchanged. */
  lemma DateRoundTrip(d: DateRec)
    requires Representable(d)
    ensures EncodeObject(Date(d)) == Ok(Tagged("Date", JStr(FormatDate(d))))
    ensures ParseParameter(Tagged("Date", JStr(FormatDate(d)))) == Ok(Date(d))
  {
    DateEncodes(d);
    DateDecodes(d);
  }

  /**
   * The scalars the encoder tags travel back unchanged: Integer, Long, Double,
   * Boolean, and a Date whose fields fit its pattern; null encodes to null and
   * decodes to null.
   */
  lemma ScalarRoundTrip(v: Value)
    requires v.Null? || v.Int? || v.Long? || v.Dbl? || v.Bool? || (v.Date? && Representable(v.date))
    ensures EncodeObject(v).Ok? && IsParameter(EncodeObject(v).value)
    ensures ParseParameter(EncodeObject(v).value) == Ok(v)
  {
    match v
    case Null =>
    case Int(n) => IntRoundTrip(n);
    case Long(n) => LongRoundTrip(n);
    case Dbl(f) => DoubleRoundTrip(f);
    case Bool(b) => BoolRoundTrip(b);
    case Date(d) => DateRoundTrip(d);
  }

  /** `encode(Object)` on a String writes no tag, so the string decodes to null. */
  lemma StringDecodesToNull(s: string)
    ensures EncodeObject(Str(s)) == Ok(EncodeStringObject(s))
    ensures ParseParameter(EncodeStringObject(s)) == Ok(Null)
  {
    var m := EncodeStringObject(s).members;
    assert m[1..] == [];
    assert TagKey !in KeySet(m) by { KeySetCons(m); }
  }

  /** A List is encoded under the tag "List", which is not registered, so it decodes to null. */
  lemma ListDecodesToNull(v: Value)
    requires v.List? && EncodeObject(v).Ok?
    ensures IsParameter(EncodeObject(v).value)
    ensures ParseParameter(EncodeObject(v).value) == Ok(Null)
  {
    CollectionEncoding(v);
    var js :| EncodeObject(v).value == Tagged("List", JArr(js));
    DecodeTagged("List", JArr(js));
    ListNotRegistered();
  }

  /** The first two `put`s of `encode(ProvisioningParameter)`: the raw name, then "value". */
  lemma ParameterFirstPuts(v: Value)
    requires v.Object? && v.kind == ProvisioningParameter
    requires "name" in v.fields && v.fields["name"].Str?
    requires "value" in v.fields && EncodeTyped(v.fields["value"]).Ok?
    ensures Projected(v, Projection(ProvisioningParameter)[..2]) ==
            Partial([(TagKey, JStr("ProvisioningParameter")),
                     ("name", JStr(v.fields["name"].s)),
                     (ValueKey, EncodeTyped(v.fields["value"]).value)], true)
  {
    var es := Projection(ProvisioningParameter);
    var tag := (TagKey, JStr("ProvisioningParameter"));
    var name := ("name", JStr(v.fields["name"].s));
    var value := ("value", EncodeTyped(v.fields["value"]).value);
    assert es[..1][..0] == es[..0] && es[..2][..1] == es[..1];
    assert Projected(v, es[..0]).members == [tag];
    assert FieldJson(v, es[0]) == Ok(name.1);
    ProjectedStep(v, es[..1]);
    assert "name" !in KeySet([tag]) by { KeySetCons([tag]); }
    PutFresh([tag], "name", name.1);
    assert FieldJson(v, es[1]) == Ok(value.1);
    ProjectedStep(v, es[..2]);
    assert "value" !in KeySet([tag, name]) by { KeySetCons([tag, name]); KeySetCons([name]); }
    PutFresh([tag, name], "value", value.1);
  }

  /**
   * The `put`s of `encode(ProvisioningParameter)` for a parameter whose name is a
   * String and whose value encodes: the tag, the raw name, and "value" come first.
   */
  lemma ParameterProjection(v: Value)
    requires v.Object? && v.kind == ProvisioningParameter
    requires "name" in v.fields && v.fields["name"].Str?
    requires "value" in v.fields && EncodeTyped(v.fields["value"]).Ok?
    ensures var m := Projected(v, Projection(ProvisioningParameter)).members;
            |m| >= 3 && m[..3] == [(TagKey, JStr("ProvisioningParameter")),
                                   ("name", JStr(v.fields["name"].s)),
                                   (ValueKey, EncodeTyped(v.fields["value"]).value)]
  {
    var es := Projection(ProvisioningParameter);
    ParameterFirstPuts(v);
    var m3 := Projected(v, es[..2]).members;
    assert es[..3][..2] == es[..2] && es[..3] == es;
    ProjectedStep(v, es);
    if Projected(v, es).complete {
      assert "type" !in KeySet(m3) by { KeySetCons(m3); KeySetCons(m3[1..]); KeySetCons(m3[2..]); }
      PutFresh(m3, "type", FieldJson(v, es[2]).value);
    }
  }

  /** An active such parameter is sent as those members by `encode(Object)`. */
  lemma EncodedParameterPrefix(v: Value)
    requires v.Object? && v.kind == ProvisioningParameter && ActiveFlag(v.fields) == Ok(true)
    requires "name" in v.fields && v.fields["name"].Str?
    requires "value" in v.fields && EncodeTyped(v.fields["value"]).Ok?
    ensures EncodeObject(v).Ok? && EncodeObject(v).value.JObj?
    ensures EncodeObject(v).value.members == Projected(v, Projection(ProvisioningParameter)).members
  {
    EntityDispatch(v);
  }

  /**
   * A ProvisioningParameter object whose "name" member is a bare string decodes to
   * null: `getJSONObject("name")` throws inside `parseObject`, whose catch gives null.
   */
  lemma StringNameDecodesToNull(m: seq<(string, Json)>)
    requires |m| >= 3 && m[0] == (TagKey, JStr("ProvisioningParameter"))
    requires m[1].0 == "name" && m[1].1.JStr? && m[2].0 == ValueKey
    ensures IsParameter(JObj(m)) && ParseParameter(JObj(m)) == Ok(Null)
  {
    var p := JObj(m);
    assert FindKey(m, ValueKey) == Some(2);
    if m[2].1 != JNull {
      assert Lookup(m, TagKey) == Some(JStr("ProvisioningParameter"));
      TagNameRegistered(EntityType(ProvisioningParameter));
      assert ParameterType(p) == Ok(Some(EntityType(ProvisioningParameter)));
      var fields := DeclaredFields(ProvisioningParameter);
      var start := NewInstance(ProvisioningParameter);
      assert TagKey in KeySet(m);
      UnmatchedKeyIgnored(p, fields, TagKey, start, |fields|);
      assert ApplyKeys(p, fields, start, 1) == Ok(start);
      assert FindKey(m, "name") == Some(1);
      assert MemberValue(p, "name") == Fail(JSONException);
      assert EqualsIgnoreCase(fields[0], "name");
      assert ApplyKey(p, fields, "name", start, 1) == Fail(JSONException);
      ApplyKeyFailurePersists(p, fields, "name", start, 1);
      assert ApplyKeys(p, fields, start, 2) == Fail(JSONException);
      ApplyKeysFailurePersists(p, fields, start, 2);
    }
  }

  /**
   * An active ProvisioningParameter whose name is a String, sent by
   * `encode(ProvisioningParameter)`, comes back null.
   */
  lemma ParameterDecodesToNull(v: Value)
    requires v.Object? && v.kind == ProvisioningParameter && ActiveFlag(v.fields) == Ok(true)
    requires "name" in v.fields && v.fields["name"].Str?
    requires "value" in v.fields && EncodeTyped(v.fields["value"]).Ok?
    ensures EncodeObject(v).Ok? && IsParameter(EncodeObject(v).value)
    ensures ParseParameter(EncodeObject(v).value) == Ok(Null)
  {
    EncodedParameterPrefix(v);
    ParameterProjection(v);
    var m := EncodeObject(v).value.members;
    assert m[0] == m[..3][0] && m[1] == m[..3][1] && m[2] == m[..3][2];
    StringNameDecodesToNull(m);
  }

  /**
   * The values that survive a round trip: null, the tagged scalars, representable
   * dates, and HashSets of such values without repeats.
   */
  predicate RoundTrips(v: Value)
  {
    match v
    case Null => true
    case Int(_) => true
    case Long(_) => true
    case Dbl(_) => true
    case Bool(_) => true
    case Date(d) => Representable(d)
    case HashSet(es) => NoDuplicates(es) && forall i :: 0 <= i < |es| ==> RoundTrips(es[i])
    case _ => false
  }

  /** `parseParameter(encode(v))` gives `v` back for every value that `RoundTrips`. */
  lemma {:induction false} RoundTrip(v: Value)
    requires RoundTrips(v)
    ensures EncodeObject(v).Ok? && IsParameter(EncodeObject(v).value)
    ensures ParseParameter(EncodeObject(v).value) == Ok(v)
  {
    if !v.HashSet? {
      ScalarRoundTrip(v);
    } else {
      var es := v.elems;
      forall i | 0 <= i < |es|
        ensures EncodeObject(es[i]).Ok? && DecodeElement(EncodeObject(es[i]).value) == Ok(es[i])
      {
        RoundTrip(es[i]);
      }
      ItemsJsonPointwise(v, es);
      var js := ItemsJson(v, es).value;
      var j := Tagged("HashSet", JArr(js));
      assert EncodeObject(v) == Ok(j);
      DecodeTagged("HashSet", JArr(js));
      TagNameRegistered(HashSetType);
      DecodeDistinct(JArr(js), js, es);
    }
  }
}
