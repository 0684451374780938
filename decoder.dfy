/**
 * The value decoder: `getParameterType`, `parseParameter` and `parseObject`.
 * The functions below state what each call yields; the methods at the end
 * run the loops of `parseParameter`'s HashSet branch and of `parseObject`
 * and are proved to yield the same.
 */
module Decoder {
  import opened Outcomes
  import opened Wire
  import opened JavaString
  import opened Registry
  import opened Dates
  import opened Values

  const TagKey := "__jsonclass__"
  const ValueKey := "value"

  /** What `getJSONObject` can return: an object, or the null object. */
  predicate IsParameter(p: Json) { p.JObj? || p.JNull? }

  /**
   * `getParameterType(param)`: the class registered for the parameter's tag, `None`
   * for a tag outside the registry (`objectTypes.get` returns null). Reading the tag
   * of the null object, or of an object without one, throws. A tag that is a double,
   * an array or an object reads as JSON text, which names no registered class.
   */
  function ParameterType(param: Json): (r: Result<Option<Kind>, Thrown>)
    requires IsParameter(param)
    ensures r.Ok? <==> param.JObj? && TagKey in KeySet(param.members)
  {
    match param
    case JNull => Fail(JSONException)
    case JObj(m) =>
      match Lookup(m, TagKey)
      case None => Fail(JSONException)
      case Some(t) => Ok(if TextOf(t).Some? then KindOfTag(TextOf(t).value) else None)
  }

  /**
   * `parseParameter(parameter)`.
   * - the null object decodes to null;
   * - a parameter without a "value" member throws (`v.getClass()` on null);
   * - a null "value" decodes to null;
   * - a parameter whose tag cannot be read decodes to null (the exception is caught);
   * - an unregistered tag reaches `parseObject`, whose `newInstance` on a null class
   *   throws inside its own try, so it decodes to null;
   * - the scalar tags read "value" with json-lib's typed getters, whose exceptions
   *   propagate; a Date string that does not parse decodes to null;
   * - a HashSet decodes its elements in order and collects them;
   * - an entity tag decodes through `parseObject`.
   */
  function ParseParameter(p: Json): Result<Value, Thrown>
    requires IsParameter(p)
    decreases p, 3, 0
  {
    if p.JNull? then Ok(Null)
    else
      match FindKey(p.members, ValueKey)
      case None => Fail(NullPointerException)
      case Some(i) =>
        var v := p.members[i].1;
        if v.JNull? then Ok(Null)
        else
          match ParameterType(p)
          case Fail(_) => Ok(Null)
          case Ok(None) => Ok(Null)
          case Ok(Some(k)) =>
            match k
            case DoubleType =>
              (match GetDouble(p.members, ValueKey)
               case Ok(f) => Ok(Dbl(f))
               case Fail(e) => Fail(e))
            case IntegerType =>
              (match GetInt(p.members, ValueKey)
               case Ok(n) => Ok(Int(n))
               case Fail(e) => Fail(e))
            case LongType =>
              (match GetLong(p.members, ValueKey)
               case Ok(n) => Ok(Long(n))
               case Fail(e) => Fail(e))
            case StringType =>
              (match GetString(p.members, ValueKey)
               case Ok(s) => Ok(Str(s))
               case Fail(e) => Fail(e))
            case BooleanType =>
              (match GetBoolean(p.members, ValueKey)
               case Ok(b) => Ok(Bool(b))
               case Fail(e) => Fail(e))
            case DateType =>
              (match TextOf(v)
               case None => Ok(Null)
               case Some(s) => Ok(match ParseDate(s) case None => Null case Some(d) => Date(d)))
            case HashSetType =>
              if v.JArr? then
                match DecodeElements(v, v.elems)
                case Ok(vs) => Ok(HashSet(vs))
                case Fail(e) => Fail(e)
              else Fail(JSONException)
            case EntityType(e) => ParseObject(p, e)
  }

  /**
   * The HashSet branch over the first `|es|` elements of the array `parent`: each
   * element must be an object or null (`getJSONObject(i)`), is decoded recursively,
   * and is added to the set; the first exception propagates.
   */
  function DecodeElements(parent: Json, es: seq<Json>): Result<seq<Value>, Thrown>
    requires parent.JArr? && es <= parent.elems
    decreases parent, |es|, 0
  {
    if es == [] then Ok([])
    else
      match DecodeElements(parent, es[..|es| - 1])
      case Fail(e) => Fail(e)
      case Ok(acc) =>
        match DecodeElement(es[|es| - 1])
        case Fail(e) => Fail(e)
        case Ok(d) => Ok(SetAdd(acc, d))
  }

  /**
   * One element of the HashSet's array: `getJSONObject(i)` throws unless it is an
   * object or null, and `parseParameter` decodes it.
   */
  function DecodeElement(x: Json): Result<Value, Thrown>
    decreases x, 4, 0
  {
    if !IsParameter(x) then Fail(JSONException) else ParseParameter(x)
  }

  /**
   * `parseObject(parameter)` for an entity tag: a fresh instance whose declared
   * fields are set from the matching members, or null when anything on the way
   * throws. A member value this model does not decode is not an exception of the
   * Java code: it passes through the catch as `NotModelled`.
   */
  function ParseObject(p: Json, e: EntityKind): Result<Value, Thrown>
    requires p.JObj?
    decreases p, 2, 0
  {
    match ApplyKeys(p, DeclaredFields(e), NewInstance(e), |p.members|)
    case Ok(fs) => Ok(Object(e, fs))
    case Fail(NotModelled) => Fail(NotModelled)
    case Fail(_) => Ok(Null)
  }

  /**
   * The outer loop of `parseObject` over the first `n` member keys, starting from the
   * instance `start` and matching against `fields`; the first exception stops it.
   */
  function ApplyKeys(p: Json, fields: seq<string>, start: map<string, Value>, n: nat)
    : Result<map<string, Value>, Thrown>
    requires p.JObj? && n <= |p.members|
    decreases p, 1, n
  {
    if n == 0 then Ok(start)
    else
      match ApplyKeys(p, fields, start, n - 1)
      case Fail(x) => Fail(x)
      case Ok(fs) => ApplyKey(p, fields, p.members[n - 1].0, fs, |fields|)
  }

  /**
   * The inner loop of `parseObject` over the first `j` of `fields`: every field
   * whose name equals `key` ignoring case is set to the decoded member value.
   */
  function ApplyKey(p: Json, fields: seq<string>, key: string, fs: map<string, Value>, j: nat)
    : Result<map<string, Value>, Thrown>
    requires p.JObj? && key in KeySet(p.members) && j <= |fields|
    decreases p, 0, j
  {
    if j == 0 then Ok(fs)
    else
      match ApplyKey(p, fields, key, fs, j - 1)
      case Fail(x) => Fail(x)
      case Ok(fs') =>
        var f := fields[j - 1];
        if !EqualsIgnoreCase(f, key) then Ok(fs')
        else
          match MemberValue(p, key)
          case Fail(x) => Fail(x)
          case Ok(d) => Ok(fs'[f := d])
  }

  /** `parseParameter(parameter.getJSONObject(key))`: the member's value decoded as a parameter. */
  function MemberValue(p: Json, key: string): Result<Value, Thrown>
    requires p.JObj? && key in KeySet(p.members)
    decreases p, 0, 0
  {
    var i := FindKey(p.members, key).value;
    DecodeElement(p.members[i].1)
  }

  // ---------------------------------------------------------------------------
  // The loops, as the Java code runs them.
  // ---------------------------------------------------------------------------

  lemma {:induction false} DecodeElementsFailurePersists(parent: Json, es: seq<Json>, i: nat)
    requires parent.JArr? && es <= parent.elems && i <= |es|
    requires DecodeElements(parent, es[..i]).Fail?
    ensures DecodeElements(parent, es) == DecodeElements(parent, es[..i])
    decreases |es| - i
  {
    if i < |es| {
      assert es[..i + 1][..i] == es[..i];
      DecodeElementsFailurePersists(parent, es, i + 1);
    } else {
      assert es[..i] == es;
    }
  }

  /** The HashSet branch's loop: decode each element and add it to a fresh set. */
  method DecodeHashSet(elems: seq<Json>) returns (r: Result<Value, Thrown>)
    ensures r == match DecodeElements(JArr(elems), elems)
                 case Ok(vs) => Ok(HashSet(vs))
                 case Fail(e) => Fail(e)
  {
    var parent := JArr(elems);
    var collected: seq<Value> := [];
    var i := 0;
    while i < |elems|
      invariant 0 <= i <= |elems|
      invariant DecodeElements(parent, elems[..i]) == Ok(collected)
    {
      assert elems[..i + 1][..i] == elems[..i];
      var elem := elems[i];
      if !IsParameter(elem) {
        DecodeElementsFailurePersists(parent, elems, i + 1);
        return Fail(JSONException);
      }
      var d := ParseParameter(elem);
      if d.Fail? {
        DecodeElementsFailurePersists(parent, elems, i + 1);
        return Fail(d.error);
      }
      collected := SetAdd(collected, d.value);
      i := i + 1;
    }
    assert elems[..i] == elems;
    r := Ok(HashSet(collected));
  }

  lemma {:induction false} ApplyKeyFailurePersists(p: Json, fields: seq<string>, key: string,
                                                   fs: map<string, Value>, j: nat)
    requires p.JObj? && key in KeySet(p.members) && j <= |fields|
    requires ApplyKey(p, fields, key, fs, j).Fail?
    ensures ApplyKey(p, fields, key, fs, |fields|) == ApplyKey(p, fields, key, fs, j)
    decreases |fields| - j
  {
    if j < |fields| {
      ApplyKeyFailurePersists(p, fields, key, fs, j + 1);
    }
  }

  lemma {:induction false} ApplyKeysFailurePersists(p: Json, fields: seq<string>, start: map<string, Value>, n: nat)
    requires p.JObj? && n <= |p.members|
    requires ApplyKeys(p, fields, start, n).Fail?
    ensures ApplyKeys(p, fields, start, |p.members|) == ApplyKeys(p, fields, start, n)
    decreases |p.members| - n
  {
    if n < |p.members| {
      ApplyKeysFailurePersists(p, fields, start, n + 1);
    }
  }

  /**
   * `parseObject`: the nested loops below, then the catch that turns any exception
   * into null; a member value this model does not decode yields `NotModelled`.
   */
  method ParseObjectFields(p: Json, e: EntityKind) returns (r: Result<Value, Thrown>)
    requires p.JObj?
    ensures r == ParseObject(p, e)
  {
    var fields := SetFields(p, DeclaredFields(e), NewInstance(e));
    r := match fields
         case Ok(fs) => Ok(Object(e, fs))
         case Fail(NotModelled) => Fail(NotModelled)
         case Fail(_) => Ok(Null);
  }

  /**
   * `parseObject`'s nested loops: for each member key, for each of `fields`, set
   * the field of `start` when the names match ignoring case; the first member value
   * that does not decode ends both loops.
   */
  method SetFields(p: Json, fields: seq<string>, start: map<string, Value>)
    returns (r: Result<map<string, Value>, Thrown>)
    requires p.JObj?
    ensures r == ApplyKeys(p, fields, start, |p.members|)
  {
    var m := p.members;
    var result := start;
    var n := 0;
    while n < |m|
      invariant 0 <= n <= |m|
      invariant ApplyKeys(p, fields, start, n) == Ok(result)
    {
      var key := m[n].0;
      assert key in KeySet(m);
      ghost var before := result;
      var j := 0;
      while j < |fields|
        invariant 0 <= j <= |fields|
        invariant ApplyKey(p, fields, key, before, j) == Ok(result)
      {
        if EqualsIgnoreCase(fields[j], key) {
          var d := MemberValue(p, key);
          if d.Fail? {
            ApplyKeyFailurePersists(p, fields, key, before, j + 1);
            ApplyKeysFailurePersists(p, fields, start, n + 1);
            return Fail(d.error);
          }
          result := result[fields[j] := d.value];
        }
        j := j + 1;
      }
      n := n + 1;
    }
    r := Ok(result);
  }
}
