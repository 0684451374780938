/**
 * The Java side: the native values the marshaller converts to and from the wire,
 * and the declared fields that stand in for the entity classes' reflection data.
 */
module Values {
  import opened Wire
  import opened Dates
  import opened Registry

  /**
   * A Java object the marshaller meets. `HashSet` holds its elements in iteration
   * order, each once. An entity (`Object`) maps field names to values; a field
   * missing from the map is one whose getter throws. `Foreign` is any other class.
   */
  datatype Value =
    | Null
    | Int(i: Int32)
    | Long(l: Int64)
    | Dbl(d: Float)
    | Bool(b: bool)
    | Str(s: string)
    | Date(date: DateRec)
    | HashSet(elems: seq<Value>)
    | List(items: seq<Value>)
    | Object(kind: EntityKind, fields: map<string, Value>)
    | Foreign(className: string)

  /**
   * The declared fields of each entity class (`getDeclaredFields()`), named after
   * the getters the encoder calls. The Counter class is not part of this model,
   * so it declares none here.
   */
  function DeclaredFields(k: EntityKind): seq<string>
  {
    match k
    case Event => ["id", "recordTime", "description", "data", "latitude", "longitude", "application"]
    case Account => ["id", "email", "name", "phoneNumber", "lastContactTime", "emailToken",
                     "status", "notification", "description", "applications"]
    case Application => ["id", "name", "account", "releaseDate", "announcement"]
    case Carrier => ["id", "name", "textGateway"]
    case Phone => ["id", "clientID", "version"]
    case Provisioning => ["parameters"]
    case ProvisioningParameter => ["name", "value", "type", "active"]
    case LocationFix => ["id", "latitude", "longitude", "accuracy", "timeOfFix"]
    case Counter => []
  }

  /** `clazz.newInstance()`: every declared field at its default, null. */
  function NewInstance(k: EntityKind): (fs: map<string, Value>)
    ensures forall f :: f in fs <==> f in DeclaredFields(k)
    ensures forall f :: f in fs ==> fs[f] == Null
  {
    map f | f in DeclaredFields(k) :: Null
  }

  predicate NoDuplicates(s: seq<Value>)
  {
    forall i, j :: 0 <= i < j < |s| ==> s[i] != s[j]
  }

  /** `HashSet.add(x)`: the set gains `x` unless it already holds an equal element. */
  function SetAdd(s: seq<Value>, x: Value): (r: seq<Value>)
    ensures forall y :: y in r <==> y in s || y == x
    ensures NoDuplicates(s) ==> NoDuplicates(r)
    ensures x !in s ==> r == s + [x]
  {
    if x in s then s else s + [x]
  }

  /** A sequence without repeats is its prefix with the last element added, which was not there yet. */
  lemma NoDuplicatesSnoc(xs: seq<Value>)
    requires NoDuplicates(xs) && xs != []
    ensures NoDuplicates(xs[..|xs| - 1])
    ensures SetAdd(xs[..|xs| - 1], xs[|xs| - 1]) == xs
  {
    var n := |xs| - 1;
    var init := xs[..n];
    assert forall i :: 0 <= i < n ==> init[i] == xs[i];
    assert xs[n] !in init;
    assert init + [xs[n]] == xs;
  }
}
