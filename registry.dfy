/**
 * The tag registry (`objectTypes`): the fixed table from the `"__jsonclass__"`
 * tag written on the wire to the Java class it names.
 */
module Registry {
  import opened Outcomes

  /** The domain entity classes (the `iLoggrObject`s) that have a tag. */
  datatype EntityKind =
    | Event | Account | Application | Carrier | Phone
    | Provisioning | ProvisioningParameter | LocationFix | Counter

  /** The Java class a registered tag stands for. */
  datatype Kind =
    | IntegerType | DateType | StringType | LongType | DoubleType | BooleanType
    | HashSetType
    | EntityType(entity: EntityKind)

  /** The registry, entry for entry; it is built once and never changes. */
  const ObjectTypes: map<string, Kind> := map[
    "Integer" := IntegerType,
    "Date" := DateType,
    "String" := StringType,
    "Long" := LongType,
    "Double" := DoubleType,
    "Boolean" := BooleanType,
    "Event" := EntityType(Event),
    "Account" := EntityType(Account),
    "Application" := EntityType(Application),
    "HashSet" := HashSetType,
    "Carrier" := EntityType(Carrier),
    "Phone" := EntityType(Phone),
    "Provisioning" := EntityType(Provisioning),
    "ProvisioningParameter" := EntityType(ProvisioningParameter),
    "LocationFix" := EntityType(LocationFix),
    "Counter" := EntityType(Counter)
  ]

  /** The tag the encoder writes for an entity of kind `e`. */
  function EntityTag(e: EntityKind): string
  {
    match e
    case Event => "Event"
    case Account => "Account"
    case Application => "Application"
    case Carrier => "Carrier"
    case Phone => "Phone"
    case Provisioning => "Provisioning"
    case ProvisioningParameter => "ProvisioningParameter"
    case LocationFix => "LocationFix"
    case Counter => "Counter"
  }

  /** The tag registered for each class. */
  function TagName(k: Kind): string
  {
    match k
    case IntegerType => "Integer"
    case DateType => "Date"
    case StringType => "String"
    case LongType => "Long"
    case DoubleType => "Double"
    case BooleanType => "Boolean"
    case HashSetType => "HashSet"
    case EntityType(e) => EntityTag(e)
  }

  /** `objectTypes.get(tag)`: the class, or nothing for a tag outside the table. */
  function KindOfTag(tag: string): Option<Kind>
  {
    if tag in ObjectTypes then Some(ObjectTypes[tag]) else None
  }

  /** Every class is registered under the tag the encoder writes for it. */
  lemma {:induction false} TagNameRegistered(k: Kind)
    ensures KindOfTag(TagName(k)) == Some(k)
  {
    if k.EntityType? {
      match k.entity
      case Event =>
      case Account =>
      case Application =>
      case Carrier =>
      case Phone =>
      case Provisioning =>
      case ProvisioningParameter =>
      case LocationFix =>
      case Counter =>
    }
  }

  /** Each registered tag is the one tag of its class: tag and class determine each other. */
  lemma RegisteredTagIsTagName(t: string)
    requires KindOfTag(t).Some?
    ensures TagName(KindOfTag(t).value) == t
  {
  }

  /** The collection tag "List", which the encoder writes, is not registered. */
  lemma ListNotRegistered()
    ensures KindOfTag("List") == None
  {
  }
}
