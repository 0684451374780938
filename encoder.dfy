/**
 * The value encoder: the `encode` overloads. The functions state what each
 * overload yields; the methods at the end run the loops of `encode(Set)`,
 * `encode(List)`, the entity encoders' sequences of `put`s and `encode(Provisioning)`,
 * and are proved to yield the same.
 *
 * Which overload a Java call site binds to is decided by static types. A getter's
 * static type is taken to be the class of the value it returns (`EncodeTyped`);
 * `encode(Object)` dispatches on the runtime class (`EncodeObject`).
 */
module Encoder {
  import opened Outcomes
  import opened Wire
  import opened Registry
  import opened Dates
  import opened Values
  import opened Decoder

  /** A tagged wire value: the tag member, then the "value" member. */
  function Tagged(tag: string, value: Json): (r: Json)
    ensures r.JObj? && KeySet(r.members) == {TagKey, ValueKey}
    ensures Lookup(r.members, TagKey) == Some(JStr(tag))
    ensures Lookup(r.members, ValueKey) == Some(value)
  {
    var r := JObj([(TagKey, JStr(tag)), (ValueKey, value)]);
    KeySetCons(r.members);
    assert r.members[1..] == [(ValueKey, value)];
    KeySetCons(r.members[1..]);
    r
  }

  /** `encode(int)`. */
  function EncodeInt(n: Int32): Json { Tagged("Integer", JInt(n)) }

  /** `encode(long)`. */
  function EncodeLong(n: Int64): Json { Tagged("Long", JInt(n)) }

  /** `encode(double)`. */
  function EncodeDouble(f: Float): Json { Tagged("Double", JFloat(f)) }

  /** `encode(boolean)`: the value travels as the string "true" or "false". */
  function EncodeBool(b: bool): Json { Tagged("Boolean", JStr(if b then "true" else "false")) }

  /** `encodeStringObject(s)`: a "value" member and no tag. */
  function EncodeStringObject(s: string): Json { JObj([(ValueKey, JStr(s))]) }

  /** `encode(Date)`: the date printed with the `yyyyMMddHHmmss` pattern. */
  function EncodeDate(d: DateRec): Json { Tagged("Date", JStr(FormatDate(d))) }

  // ---------------------------------------------------------------------------
  // Entities
  // ---------------------------------------------------------------------------

  /**
   * How an entity encoder writes one getter's result: through the `encode` overload
   * for its type (`Typed`), as the raw object (`Raw`), or as the `encode` of the
   * id of the account it returns (`IdOf`).
   */
  datatype Mode = Typed | Raw | IdOf

  /** One `result.put(wire, ...)` of an entity encoder, reading the getter of `field`. */
  datatype Entry = Entry(wire: string, field: string, mode: Mode)

  /** The `put`s of each entity encoder, in order (after the tag). */
  function Projection(k: EntityKind): seq<Entry>
  {
    match k
    case Carrier =>
      [Entry("id", "id", Typed), Entry("name", "name", Typed), Entry("gateway", "textGateway", Typed)]
    case Event =>
      [Entry("id", "id", Typed), Entry("recordTime", "recordTime", Typed),
       Entry("description", "description", Typed), Entry("data", "data", Typed),
       Entry("latitude", "latitude", Raw), Entry("longitude", "longitude", Raw),
       Entry("application", "application", Typed)]
    case LocationFix =>
      [Entry("id", "id", Typed), Entry("latitude", "latitude", Typed),
       Entry("longitude", "longitude", Typed), Entry("accuracy", "accuracy", Typed),
       Entry("timeOfFix", "timeOfFix", Typed)]
    case Phone =>
      [Entry("id", "id", Typed), Entry("clientID", "clientID", Typed), Entry("version", "version", Typed)]
    case ProvisioningParameter =>
      [Entry("name", "name", Typed), Entry("value", "value", Typed), Entry("type", "type", Typed)]
    case Account =>
      [Entry("id", "id", Typed), Entry("email", "email", Typed), Entry("name", "name", Typed),
       Entry("phoneNumber", "phoneNumber", Typed), Entry("lastContactTime", "lastContactTime", Typed),
       Entry("emailToken", "emailToken", Typed), Entry("status", "status", Typed),
       Entry("notification", "notification", Typed), Entry("description", "description", Typed),
       Entry("applications", "applications", Typed)]
    case Application =>
      [Entry("id", "id", Typed), Entry("name", "name", Typed), Entry("account", "account", IdOf),
       Entry("releaseDate", "releaseDate", Typed), Entry("announcement", "announcement", Typed)]
    case Provisioning => []
    case Counter => []
  }

  /** What a run of `put`s inside one `try` leaves: the members, and whether no getter threw. */
  datatype Partial = Partial(members: seq<(string, Json)>, complete: bool)

  /**
   * `isActive()` of a ProvisioningParameter: a getter that throws, or a null
   * `Boolean` that throws when unboxed.
   */
  function ActiveFlag(fs: map<string, Value>): Result<bool, Thrown>
  {
    if "active" !in fs then Fail(GetterFailed)
    else
      match fs["active"]
      case Bool(b) => Ok(b)
      case Null => Fail(NullPointerException)
      case _ => Fail(ClassCastException)
  }

  /**
   * A raw object put into the result map, as `JSONObject.fromObject` turns it into
   * JSON. Only scalars are modelled; a bean or a collection put raw is not.
   */
  function RawJson(x: Value): Result<Json, Thrown>
  {
    match x
    case Null => Ok(JNull)
    case Int(n) => Ok(JInt(n))
    case Long(n) => Ok(JInt(n))
    case Dbl(f) => Ok(JFloat(f))
    case Bool(b) => Ok(JBool(b))
    case Str(s) => Ok(JStr(s))
    case _ => Fail(NotModelled)
  }

  /** The collection a List or a Set holds, in iteration order. */
  function ItemsOf(v: Value): seq<Value>
    requires v.List? || v.HashSet?
  {
    if v.List? then v.items else v.elems
  }

  /**
   * `encode(Object value)`: null encodes to null; otherwise the first matching kind
   * in the order iLoggrObject, List, Set, Boolean, String, Long, Date, Double,
   * Integer picks the overload, and any other class raises.
   */
  function EncodeObject(v: Value): Result<Json, Thrown>
    decreases v, 6
  {
    match v
    case Null => Ok(JNull)
    case Object(_, _) => EncodeILoggr(v)
    case List(_) => CollectionJson(v, "List")
    case HashSet(_) => CollectionJson(v, "HashSet")
    case Bool(b) => Ok(EncodeBool(b))
    case Str(s) => Ok(EncodeStringObject(s))
    case Long(n) => Ok(EncodeLong(n))
    case Date(d) => Ok(EncodeDate(d))
    case Dbl(f) => Ok(EncodeDouble(f))
    case Int(n) => Ok(EncodeInt(n))
    case Foreign(_) => Fail(CannotEncode("Cannot encode result"))
  }

  /**
   * `encode(iLoggrObject)`: the exact class selects the entity encoder. The second
   * Event test can never be reached; a Phone is cast to Provisioning and the cast
   * fails; LocationFix and Counter match no branch.
   */
  function EncodeILoggr(v: Value): Result<Json, Thrown>
    requires v.Object?
    decreases v, 5
  {
    var k := v.kind;
    if k == Carrier then EntityJson(v)
    else if k == Event then EntityJson(v)
    else if k == Application then EntityJson(v)
    else if k == Account then EntityJson(v)
    else if k == Event then assert false; Fail(NotModelled)
    else if k == Phone then Fail(ClassCastException)
    else if k == Provisioning then EntityJson(v)
    else if k == ProvisioningParameter then EntityJson(v)
    else Fail(CannotEncode("Cannot JSON encode unrecognized iLoggrObject"))
  }

  /**
   * `encode(Set)` and `encode(List)`: the tag, then an array holding the encoding of
   * each item in iteration order; an item that raises makes the whole call raise.
   */
  function CollectionJson(v: Value, tag: string): Result<Json, Thrown>
    requires v.List? || v.HashSet?
    decreases v, 5
  {
    match ItemsJson(v, ItemsOf(v))
    case Fail(e) => Fail(e)
    case Ok(js) => Ok(Tagged(tag, JArr(js)))
  }

  /** The array of `CollectionJson` over the first `|items|` items of `parent`. */
  function ItemsJson(parent: Value, items: seq<Value>): Result<seq<Json>, Thrown>
    requires (parent.List? || parent.HashSet?) && items <= ItemsOf(parent)
    decreases parent, 4, |items|
  {
    if items == [] then Ok([])
    else
      match ItemsJson(parent, items[..|items| - 1])
      case Fail(e) => Fail(e)
      case Ok(js) =>
        match EncodeObject(items[|items| - 1])
        case Fail(e) => Fail(e)
        case Ok(j) => Ok(js + [j])
  }

  /**
   * The static entity encoders `encode(Carrier)`, `encode(Event)`, and so on. Each
   * catches whatever its getters throw and sends the members put so far, so only
   * `encode(ProvisioningParameter)`, which reads `isActive()` before its `try`, can
   * raise; an inactive parameter encodes to null. Counter has no encoder of its own.
   */
  function EntityJson(v: Value): Result<Json, Thrown>
    requires v.Object? && v.kind != Counter
    decreases v, 4
  {
    match v.kind
    case Provisioning =>
      Ok(JObj(match ParameterList(v.fields)
              case Fail(_) => ProvisioningTag()
              case Ok(ps) => ProvisioningEntries(ps).members))
    case ProvisioningParameter =>
      (match ActiveFlag(v.fields)
       case Fail(e) => Fail(e)
       case Ok(active) =>
         if !active then Ok(JNull) else Ok(JObj(Projected(v, Projection(v.kind)).members)))
    case Event | Account | Application | Carrier | Phone | LocationFix =>
      Ok(JObj(Projected(v, Projection(v.kind)).members))
  }

  /** The `put`s of `es` in order after the tag, stopping at the first getter that throws. */
  function Projected(v: Value, es: seq<Entry>): (r: Partial)
    requires v.Object?
    ensures r.members != []
    decreases v, 3, |es|
  {
    if es == [] then Partial([(TagKey, JStr(EntityTag(v.kind)))], true)
    else
      var acc := Projected(v, es[..|es| - 1]);
      if !acc.complete then acc
      else
        var e := es[|es| - 1];
        match FieldJson(v, e)
        case Fail(_) => Partial(acc.members, false)
        case Ok(j) => Partial(Put(acc.members, e.wire, j), true)
  }

  /** What one entry puts: the getter's result, written as the entry's mode says. */
  function FieldJson(v: Value, e: Entry): Result<Json, Thrown>
    requires v.Object?
    decreases v, 2
  {
    if e.field !in v.fields then Fail(GetterFailed)
    else
      var x := v.fields[e.field];
      match e.mode
      case Typed => EncodeTyped(x)
      case Raw => RawJson(x)
      case IdOf =>
        if x.Null? then Fail(NullPointerException)
        else if !x.Object? || x.kind != Account then Fail(ClassCastException)
        else if "id" !in x.fields then Fail(GetterFailed)
        else EncodeTyped(x.fields["id"])
  }

  /**
   * `encode(getter())`: the overload Java binds for the getter's type. A String is
   * returned as it is; a class without an overload of its own goes through
   * `encode(Object)`.
   */
  function EncodeTyped(x: Value): Result<Json, Thrown>
    decreases x, 7
  {
    match x
    case Null => Ok(JNull)
    case Int(n) => Ok(EncodeInt(n))
    case Long(n) => Ok(EncodeLong(n))
    case Dbl(f) => Ok(EncodeDouble(f))
    case Bool(b) => Ok(EncodeBool(b))
    case Str(s) => Ok(JStr(s))
    case Date(d) => Ok(EncodeDate(d))
    case HashSet(_) => CollectionJson(x, "HashSet")
    case List(_) => CollectionJson(x, "List")
    case Object(k, _) => if k == Counter then EncodeObject(x) else EntityJson(x)
    case Foreign(_) => EncodeObject(x)
  }

  function ProvisioningTag(): seq<(string, Json)>
  {
    [(TagKey, JStr("Provisioning"))]
  }

  /** `prov.getParameters()`, as the collection the loop iterates. */
  function ParameterList(fs: map<string, Value>): Result<seq<Value>, Thrown>
  {
    if "parameters" !in fs then Fail(GetterFailed)
    else
      match fs["parameters"]
      case HashSet(ps) => Ok(ps)
      case List(ps) => Ok(ps)
      case Null => Fail(NullPointerException)
      case _ => Fail(ClassCastException)
  }

  /**
   * One turn of `encode(Provisioning)`'s loop: nothing for an inactive parameter, the
   * raw `name -> value` member for an active one. A name that is not a string is
   * not modelled.
   */
  function ActiveEntry(p: Value): Result<Option<(string, Json)>, Thrown>
  {
    if p.Null? then Fail(NullPointerException)
    else if !p.Object? || p.kind != ProvisioningParameter then Fail(ClassCastException)
    else
      match ActiveFlag(p.fields)
      case Fail(e) => Fail(e)
      case Ok(false) => Ok(None)
      case Ok(true) =>
        if "name" !in p.fields then Fail(GetterFailed)
        else if !p.fields["name"].Str? then Fail(NotModelled)
        else if "value" !in p.fields then Fail(GetterFailed)
        else
          match RawJson(p.fields["value"])
          case Fail(e) => Fail(e)
          case Ok(j) => Ok(Some((p.fields["name"].s, j)))
  }

  /** `encode(Provisioning)` after the first `|ps|` parameters; the first exception ends the loop. */
  function ProvisioningEntries(ps: seq<Value>): (r: Partial)
    ensures r.members != []
  {
    if ps == [] then Partial(ProvisioningTag(), true)
    else
      var acc := ProvisioningEntries(ps[..|ps| - 1]);
      if !acc.complete then acc
      else
        match ActiveEntry(ps[|ps| - 1])
        case Fail(_) => Partial(acc.members, false)
        case Ok(None) => acc
        case Ok(Some(entry)) => Partial(Put(acc.members, entry.0, entry.1), true)
  }

  // ---------------------------------------------------------------------------
  // The loops, as the Java code runs them.
  // ---------------------------------------------------------------------------

  lemma {:induction false} ItemsJsonFailurePersists(parent: Value, items: seq<Value>, i: nat)
    requires (parent.List? || parent.HashSet?) && items <= ItemsOf(parent) && i <= |items|
    requires ItemsJson(parent, items[..i]).Fail?
    ensures ItemsJson(parent, items) == ItemsJson(parent, items[..i])
    decreases |items| - i
  {
    if i < |items| {
      assert items[..i + 1][..i] == items[..i];
      ItemsJsonFailurePersists(parent, items, i + 1);
    } else {
      assert items[..i] == items;
    }
  }

  /** `encode(Set)` / `encode(List)`: add each item's encoding to a fresh array. */
  method EncodeCollection(v: Value, tag: string) returns (r: Result<Json, Thrown>)
    requires v.List? || v.HashSet?
    ensures r == CollectionJson(v, tag)
  {
    var items := ItemsOf(v);
    var encoded: seq<Json> := [];
    for i := 0 to |items|
      invariant ItemsJson(v, items[..i]) == Ok(encoded)
    {
      assert items[..i + 1][..i] == items[..i];
      var j := EncodeObject(items[i]);
      if j.Fail? {
        ItemsJsonFailurePersists(v, items, i + 1);
        return Fail(j.error);
      }
      encoded := encoded + [j.value];
    }
    assert items[..|items|] == items;
    r := Ok(Tagged(tag, JArr(encoded)));
  }

  lemma {:induction false} ProjectedStops(v: Value, es: seq<Entry>, i: nat)
    requires v.Object? && i <= |es| && !Projected(v, es[..i]).complete
    ensures Projected(v, es) == Projected(v, es[..i])
    decreases |es| - i
  {
    if i < |es| {
      assert es[..i + 1][..i] == es[..i];
      ProjectedStops(v, es, i + 1);
    } else {
      assert es[..i] == es;
    }
  }

  /**
   * An entity encoder's body: put the tag, then one member per entry; a getter that
   * throws ends the `try`, and the members put so far are kept.
   */
  method PutFields(v: Value) returns (r: Partial)
    requires v.Object?
    ensures r == Projected(v, Projection(v.kind))
  {
    var es := Projection(v.kind);
    var result := [(TagKey, JStr(EntityTag(v.kind)))];
    var i := 0;
    while i < |es|
      invariant 0 <= i <= |es|
      invariant Projected(v, es[..i]) == Partial(result, true)
    {
      assert es[..i + 1][..i] == es[..i];
      var j := FieldJson(v, es[i]);
      if j.Fail? {
        ProjectedStops(v, es, i + 1);
        return Partial(result, false);
      }
      result := Put(result, es[i].wire, j.value);
      i := i + 1;
    }
    assert es[..i] == es;
    r := Partial(result, true);
  }

  lemma {:induction false} ProvisioningEntriesStop(ps: seq<Value>, i: nat)
    requires i <= |ps| && !ProvisioningEntries(ps[..i]).complete
    ensures ProvisioningEntries(ps) == ProvisioningEntries(ps[..i])
    decreases |ps| - i
  {
    if i < |ps| {
      assert ps[..i + 1][..i] == ps[..i];
      ProvisioningEntriesStop(ps, i + 1);
    } else {
      assert ps[..i] == ps;
    }
  }

  /** `encode(Provisioning)`'s loop: put `name -> value` for every active parameter. */
  method PutActiveParameters(ps: seq<Value>) returns (r: Partial)
    ensures r == ProvisioningEntries(ps)
  {
    var result := ProvisioningTag();
    for i := 0 to |ps|
      invariant ProvisioningEntries(ps[..i]) == Partial(result, true)
    {
      assert ps[..i + 1][..i] == ps[..i];
      var entry := ActiveEntry(ps[i]);
      if entry.Fail? {
        ProvisioningEntriesStop(ps, i + 1);
        return Partial(result, false);
      }
      if entry.value.Some? {
        result := Put(result, entry.value.value.0, entry.value.value.1);
      }
    }
    assert ps[..|ps|] == ps;
    r := Partial(result, true);
  }
}
