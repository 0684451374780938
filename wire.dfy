/**
 * The wire side: a parsed JSON tree, the keyed access json-lib's `JSONObject`
 * offers on it, and the conversions its typed getters (`getInt`, `getLong`,
 * `getBoolean`, `getString`, `getJSONArray`, `getJSONObject`) perform.
 */
module Wire {
  import opened Outcomes
  import opened JavaString
  import Decimal

  /** A Java `double`, kept opaque: the marshaller only copies doubles, never computes with them. */
  datatype Float = Float(bits: nat)

  /**
   * A parsed JSON value. `JNull` also stands for json-lib's "null object", the
   * `JSONObject` that `getJSONObject` hands back for a JSON `null`.
   * Object members are kept in insertion order.
   */
  datatype Json =
    | JNull
    | JBool(b: bool)
    | JInt(n: int)
    | JFloat(f: Float)
    | JStr(s: string)
    | JArr(elems: seq<Json>)
    | JObj(members: seq<(string, Json)>)

  type Int32 = n: int | -0x8000_0000 <= n < 0x8000_0000
  type Int64 = n: int | -0x8000_0000_0000_0000 <= n < 0x8000_0000_0000_0000

  /** `Number.intValue()` of an integral JSON number: keep the low 32 bits, two's complement. */
  function Wrap32(n: int): (r: Int32)
    ensures (r - n) % 0x1_0000_0000 == 0
    ensures -0x8000_0000 <= n < 0x8000_0000 ==> r == n
  {
    var low := n % 0x1_0000_0000;
    if low < 0x8000_0000 then low else low - 0x1_0000_0000
  }

  /** `Number.longValue()` of an integral JSON number: keep the low 64 bits, two's complement. */
  function Wrap64(n: int): (r: Int64)
    ensures (r - n) % 0x1_0000_0000_0000_0000 == 0
    ensures -0x8000_0000_0000_0000 <= n < 0x8000_0000_0000_0000 ==> r == n
  {
    var low := n % 0x1_0000_0000_0000_0000;
    if low < 0x8000_0000_0000_0000 then low else low - 0x1_0000_0000_0000_0000
  }

  /** The keys of an object's members. */
  function KeySet(m: seq<(string, Json)>): set<string>
  {
    set i | 0 <= i < |m| :: m[i].0
  }

  lemma KeySetCons(m: seq<(string, Json)>)
    requires m != []
    ensures KeySet(m) == {m[0].0} + KeySet(m[1..])
  {
    forall k | k in KeySet(m) ensures k in {m[0].0} + KeySet(m[1..]) {
      var i :| 0 <= i < |m| && m[i].0 == k;
      if i > 0 { assert m[1..][i - 1].0 == k; }
    }
    forall k | k in KeySet(m[1..]) ensures k in KeySet(m) {
      var i :| 0 <= i < |m[1..]| && m[1..][i].0 == k;
      assert m[i + 1].0 == k;
    }
  }

  /** The position of the first member named `k`. */
  function FindKey(m: seq<(string, Json)>, k: string): (r: Option<nat>)
    ensures r.Some? ==> r.value < |m| && m[r.value].0 == k
    ensures r.Some? ==> forall j :: 0 <= j < r.value ==> m[j].0 != k
    ensures r.None? <==> k !in KeySet(m)
  {
    if m == [] then None
    else if m[0].0 == k then Some(0)
    else
      match FindKey(m[1..], k)
      case None => KeySetCons(m); None
      case Some(i) => Some(i + 1)
  }

  /** `JSONObject.get(k)`: the value of the member named `k`, if any. */
  function Lookup(m: seq<(string, Json)>, k: string): Option<Json>
  {
    match FindKey(m, k)
    case None => None
    case Some(i) => Some(m[i].1)
  }

  /**
   * `Map.put(k, v)` on a map that keeps insertion order: overwrite the member
   * named `k` where it stands, or append a new member.
   */
  function Put(m: seq<(string, Json)>, k: string, v: Json): (r: seq<(string, Json)>)
    ensures KeySet(r) == KeySet(m) + {k}
  {
    if m == [] then
      assert KeySet([(k, v)]) == {k} by { KeySetCons([(k, v)]); }
      [(k, v)]
    else if m[0].0 == k then
      var r := [(k, v)] + m[1..];
      assert r[1..] == m[1..];
      KeySetCons(r);
      KeySetCons(m);
      r
    else
      var r := [m[0]] + Put(m[1..], k, v);
      assert r[1..] == Put(m[1..], k, v);
      KeySetCons(r);
      KeySetCons(m);
      r
  }

  /** `put` of a key the map does not hold appends a member at the end. */
  lemma {:induction false} PutFresh(m: seq<(string, Json)>, k: string, v: Json)
    requires k !in KeySet(m)
    ensures Put(m, k, v) == m + [(k, v)]
  {
    if m != [] {
      KeySetCons(m);
      PutFresh(m[1..], k, v);
      assert [m[0]] + (m[1..] + [(k, v)]) == m + [(k, v)];
    }
  }

  lemma LookupCons(m: seq<(string, Json)>, k: string)
    requires m != []
    ensures Lookup(m, k) == if m[0].0 == k then Some(m[0].1) else Lookup(m[1..], k)
  {
  }

  /** After `put(k, v)`, `get(k)` is `v` and every other key reads as before. */
  lemma {:induction false} LookupPut(m: seq<(string, Json)>, k: string, v: Json, k': string)
    ensures Lookup(Put(m, k, v), k') == if k' == k then Some(v) else Lookup(m, k')
  {
    var r := Put(m, k, v);
    if m == [] {
      LookupCons(r, k');
    } else if m[0].0 == k {
      LookupCons(r, k');
      LookupCons(m, k');
      assert r[1..] == m[1..];
    } else {
      LookupCons(r, k');
      LookupCons(m, k');
      assert r[1..] == Put(m[1..], k, v);
      LookupPut(m[1..], k, v, k');
    }
  }

  /**
   * `toString()` of a scalar JSON value, as json-lib's `getString` returns it.
   * The JSON text of a double, an array or an object is not part of this model (`None`).
   */
  function TextOf(v: Json): Option<string>
  {
    match v
    case JNull => Some("null")
    case JBool(b) => Some(if b then "true" else "false")
    case JInt(n) => Some(Decimal.DecimalText(n))
    case JStr(s) => Some(s)
    case _ => None
  }

  /** `getJSONObject` on a value: an object, or the null object for a JSON null. */
  function AsObject(v: Json): (r: Result<Json, Thrown>)
    ensures r.Ok? <==> v.JObj? || v.JNull?
    ensures r.Ok? ==> r.value == v
  {
    if v.JObj? || v.JNull? then Ok(v) else Fail(JSONException)
  }

  /** `getJSONObject(k)` on an object. */
  function GetObject(m: seq<(string, Json)>, k: string): Result<Json, Thrown>
  {
    match Lookup(m, k)
    case None => Fail(JSONException)
    case Some(v) => AsObject(v)
  }

  /** `getString(k)`. */
  function GetString(m: seq<(string, Json)>, k: string): Result<string, Thrown>
  {
    match Lookup(m, k)
    case None => Fail(JSONException)
    case Some(v) => if TextOf(v).Some? then Ok(TextOf(v).value) else Fail(NotModelled)
  }

  /** `getInt(k)` on an integral number; the string-to-number coercion is not modelled. */
  function GetInt(m: seq<(string, Json)>, k: string): Result<Int32, Thrown>
  {
    match Lookup(m, k)
    case Some(JInt(n)) => Ok(Wrap32(n))
    case Some(JStr(_)) => Fail(NotModelled)
    case Some(JFloat(_)) => Fail(NotModelled)
    case _ => Fail(JSONException)
  }

  /** `getLong(k)` on an integral number; the string-to-number coercion is not modelled. */
  function GetLong(m: seq<(string, Json)>, k: string): Result<Int64, Thrown>
  {
    match Lookup(m, k)
    case Some(JInt(n)) => Ok(Wrap64(n))
    case Some(JStr(_)) => Fail(NotModelled)
    case Some(JFloat(_)) => Fail(NotModelled)
    case _ => Fail(JSONException)
  }

  /** `getDouble(k)` on a floating-point number; conversions from integers and strings are not modelled. */
  function GetDouble(m: seq<(string, Json)>, k: string): Result<Float, Thrown>
  {
    match Lookup(m, k)
    case Some(JFloat(f)) => Ok(f)
    case Some(JInt(_)) => Fail(NotModelled)
    case Some(JStr(_)) => Fail(NotModelled)
    case _ => Fail(JSONException)
  }

  /** `getBoolean(k)`: a JSON boolean, or the string "true" or "false" in any letter case. */
  function GetBoolean(m: seq<(string, Json)>, k: string): (r: Result<bool, Thrown>)
    ensures forall b :: Lookup(m, k) == Some(JBool(b)) ==> r == Ok(b)
    ensures forall s :: Lookup(m, k) == Some(JStr(s)) ==>
                          (r == Ok(true) <==> EqualsIgnoreCase(s, "true")) &&
                          (r == Ok(false) <==> EqualsIgnoreCase(s, "false"))
    ensures r.Ok? <==> Lookup(m, k).Some? &&
                       (Lookup(m, k).value.JBool? ||
                        (Lookup(m, k).value.JStr? &&
                         (EqualsIgnoreCase(Lookup(m, k).value.s, "true") ||
                          EqualsIgnoreCase(Lookup(m, k).value.s, "false"))))
    ensures r.Fail? ==> r.error == JSONException
  {
    match Lookup(m, k)
    case Some(JBool(b)) => Ok(b)
    case Some(JStr(s)) =>
      if EqualsIgnoreCase(s, "false") then Ok(false)
      else if EqualsIgnoreCase(s, "true") then Ok(true)
      else Fail(JSONException)
    case _ => Fail(JSONException)
  }

  /** `getJSONArray(k)`. */
  function GetArray(m: seq<(string, Json)>, k: string): Result<seq<Json>, Thrown>
  {
    match Lookup(m, k)
    case Some(JArr(es)) => Ok(es)
    case _ => Fail(JSONException)
  }
}
