# JSONRPC: a model of iLoggr's type-tagged JSON marshaller

`JSONRPC` is the class through which the iLoggr analytics server turns JSON-RPC
requests into Java calls and Java results back into JSON. Every value on the
wire is an object whose `"__jsonclass__"` member names its Java class and whose
`"value"` member holds the payload. The class has five parts, and each is a
module here:

- the **tag registry** `objectTypes` (`Registry`): sixteen tags, each naming
  one Java class;
- the **method dispatch table** `buildServiceMethodMap` (`Dispatch`): for each
  method name, the service interface that declares it, built from an ordered
  list of interfaces;
- the **request decoder** `decodeRequest` (`Requests`, `RequestProps`): payload
  checks in a fixed order, then decoding of the positional parameters;
- the **value decoder** `parseParameter`, `getParameterType` and `parseObject`
  (`Decoder`, `DecoderProps`);
- the **value encoder**, the `encode` overloads (`Encoder`, `EncoderProps`).

Supporting modules:

- `Wire`: the parsed JSON tree and json-lib's typed getters.
- `Values`: the Java values, with entities as a kind plus a field map.
- `Dates` and `Decimal`: the `yyyyMMddHHmmss` pattern as a 14-digit codec.
- `JavaString`: `equalsIgnoreCase` and `trim().equals("")`.
- `Outcomes`: results and the exceptions that can be thrown.
- `RoundTrip`: what survives `parseParameter(encode(v))`.

The loops of the source are methods proved equal to functions that define
them by recursion on a prefix:

- the two nested loops of `buildServiceMethodMap`;
- the loop that fills `parameterTypes` and `parameterObjects` (two arrays);
- the HashSet loop of `parseParameter`;
- the nested loops of `parseObject`;
- the array loops of `encode(Set)` and `encode(List)`;
- the `put` sequences of the entity encoders;
- the parameter loop of `encode(Provisioning)`.

The properties are proved about those functions.

The source's asymmetries are kept as they are:

- `"List"` is written by the encoder but is not registered, so a List comes back
  as null.
- A String given to `encode(Object)` carries no tag, so it decodes to null.
- A Phone given to `encode(iLoggrObject)` is cast to Provisioning, and the cast
  fails.
- LocationFix and Counter have no branch in `encode(iLoggrObject)`, so it raises
  for them.
- Entities do not round trip. An encoded Carrier, Event, Application or Account
  has no `"value"` member, so decoding it throws. An encoded
  ProvisioningParameter has one, but its `"name"` entry is a bare string, which
  `getJSONObject` rejects inside `parseObject`, so it comes back null.

The code behaves as follows in these cases:

- A request without `"method"`, or without an array under `"parameters"`,
  makes json-lib throw. `decodeRequest` does not catch that exception; it is
  not turned into a "malformed request" code (`Requests.DecodeRequestSpec`,
  `Uncaught`).
- A parameter whose tag is not registered does not fail the request.
  `objectTypes.get` returns null, and `parseParameter` then yields null.
- `parseObject` sets every declared field whose name matches a key, not just
  the first one.
- Any exception in `parseObject` makes the whole object null. Fields are not
  skipped one by one.

## Model

| member | source | states |
|---|---|---|
| `Registry.TagNameRegistered` | trunk/iloggr/com/iloggr/server/JSON/JSONRPC.java:78-96 | every class the decoder knows is registered under the tag the encoder writes for it |
| `Registry.RegisteredTagIsTagName` | trunk/iloggr/com/iloggr/server/JSON/JSONRPC.java:78-96 | a registered tag is the one tag of its class, so tag and class determine each other |
| `Registry.ListNotRegistered` | trunk/iloggr/com/iloggr/server/JSON/JSONRPC.java:78-96 | the tag `"List"` has no class in the registry |
| `Dispatch.BuildServiceMethodMap` | trunk/iloggr/com/iloggr/server/JSON/JSONRPC.java:104-113 | the nested loop of `put`s yields the table `MethodTable` defines, or the `checkArgument` failure at the first class that is not an interface |
| `Dispatch.TableBuiltIffAllInterfaces` | trunk/iloggr/com/iloggr/server/JSON/JSONRPC.java:104-107 | the table is built exactly when every class handed in is an interface |
| `Dispatch.TableNames` | trunk/iloggr/com/iloggr/server/JSON/JSONRPC.java:104-113 | a name is in the table exactly when some registered interface declares it |
| `Dispatch.LastDeclarerWins` | trunk/iloggr/com/iloggr/server/JSON/JSONRPC.java:104-113 | a name in the table maps to the last interface, in registration order, that declares it |
| `Dispatch.RegisteredTable` | trunk/iloggr/com/iloggr/server/JSON/JSONRPC.java:98-102 | the table of the four registered interfaces is always built; it holds exactly their method names, and a name that ReportingService declares belongs to ReportingService |
| `Requests.DecodeRequest` | trunk/iloggr/com/iloggr/server/JSON/JSONRPC.java:116-155 | the step-by-step decoder returns exactly the request or error that `DecodeRequestSpec` defines |
| `Requests.FillParameters` | trunk/iloggr/com/iloggr/server/JSON/JSONRPC.java:140-151 | the loop that fills the two arrays yields every element's class and value in position order, or, as soon as one element throws, `BAD_PARAMETER_TYPE` (`Unmodelled` for a value the model does not decode) |
| `RequestProps.ParametersPointwise` | trunk/iloggr/com/iloggr/server/JSON/JSONRPC.java:142-151 | the arrays exist exactly when every element decodes, and position `i` holds the class and value decoded from element `i` alone |
| `RequestProps.ErrorOrder` | trunk/iloggr/com/iloggr/server/JSON/JSONRPC.java:116-137 | an absent or blank payload is refused before parsing; then an unparseable payload, then the null object, then an unknown or unreadable method name, each with its own code |
| `RequestProps.AcceptedRequest` | trunk/iloggr/com/iloggr/server/JSON/JSONRPC.java:133-154 | a decoded request has its `"method"` text as its name and the declaring interface as its service; it has one class and one value per parameter, each decoded from that parameter |
| `RequestProps.FirstFailureDecides` | trunk/iloggr/com/iloggr/server/JSON/JSONRPC.java:144-150 | when the arrays cannot be filled, the exception is the one the first element that fails to decode raises |
| `RequestProps.BadParameterIff` | trunk/iloggr/com/iloggr/server/JSON/JSONRPC.java:140-151 | a well-formed request is decoded exactly when every parameter decodes; otherwise it fails with `BAD_PARAMETER_TYPE` exactly when the first parameter that fails raises an exception, and with `Unmodelled` exactly when that parameter holds a value the model does not decode |
| `RequestProps.MalformedRequestFails` | trunk/iloggr/com/iloggr/server/JSON/JSONRPC.java:116-140 | a request that fails any of the checks before the parameters never decodes, and never fails with `BAD_PARAMETER_TYPE` or `Unmodelled` |
| `RequestProps.AcceptedParameter` | trunk/iloggr/com/iloggr/server/JSON/JSONRPC.java:211-218 | an accepted parameter is an object with a tag, and its class is the one the registry gives for that tag |
| `RequestProps.UntaggedParameterRejected` | trunk/iloggr/com/iloggr/server/JSON/JSONRPC.java:211-216 | the null object, or an object without a tag, makes `getParameterType` throw |
| `RequestProps.UnregisteredTagIsNull` | trunk/iloggr/com/iloggr/server/JSON/JSONRPC.java:197-217 | a parameter whose tag is not registered is accepted with no class and the value null |
| `RequestProps.ListParameterIsNull` | trunk/iloggr/com/iloggr/server/JSON/JSONRPC.java:499-509 | what `encode(List)` sends is accepted as a parameter with no class and the value null |
| `Decoder.ParameterType` | trunk/iloggr/com/iloggr/server/JSON/JSONRPC.java:211-218 | `getParameterType` returns, rather than throws, exactly for an object that has a tag |
| `Decoder.DecodeHashSet` | trunk/iloggr/com/iloggr/server/JSON/JSONRPC.java:188-196 | the HashSet loop yields the set `DecodeElements` defines, or the first exception an element raises |
| `Decoder.ParseObjectFields` | trunk/iloggr/com/iloggr/server/JSON/JSONRPC.java:220-246 | `parseObject` yields what `ParseObject` defines: the filled instance, or null when a matched member throws, or `NotModelled` when it holds a value the model does not decode |
| `Decoder.SetFields` | trunk/iloggr/com/iloggr/server/JSON/JSONRPC.java:226-241 | the nested key and field loops yield the fields `ApplyKeys` defines, stopping at the first matched member that does not decode |
| `DecoderProps.ParseParameterFailSoft` | trunk/iloggr/com/iloggr/server/JSON/JSONRPC.java:157-205 | a missing `"value"` throws; a null value, a missing tag and an unparseable Date give null; an entity tag gives what `parseObject` gives |
| `DecoderProps.DecodeElementsOkIff` | trunk/iloggr/com/iloggr/server/JSON/JSONRPC.java:188-196 | the HashSet branch succeeds exactly when every element is an object or null and decodes without raising |
| `DecoderProps.DecodeElementsSet` | trunk/iloggr/com/iloggr/server/JSON/JSONRPC.java:188-196 | a decoded HashSet holds each element's decoding once, and nothing else, so equal decodings collapse |
| `DecoderProps.DecodeDistinct` | trunk/iloggr/com/iloggr/server/JSON/JSONRPC.java:190-195 | elements that decode to pairwise different values give exactly those values, in order |
| `DecoderProps.ApplyKeyFailIff` | trunk/iloggr/com/iloggr/server/JSON/JSONRPC.java:228-240 | one member key fails the object exactly when some field matches it, ignoring case, and its value does not decode, and then with that value's exception |
| `DecoderProps.ApplyKeyEffect` | trunk/iloggr/com/iloggr/server/JSON/JSONRPC.java:228-240 | one member key sets every field that matches it, ignoring case, to the decoded value, and changes no other field |
| `DecoderProps.UnmatchedKeyIgnored` | trunk/iloggr/com/iloggr/server/JSON/JSONRPC.java:226-241 | a key that matches no declared field, ignoring case, leaves the instance unchanged |
| `DecoderProps.ApplyKeysFailIff` | trunk/iloggr/com/iloggr/server/JSON/JSONRPC.java:226-241 | the key loop fails exactly when some member that matches a field does not decode, and then with the first such member's exception |
| `DecoderProps.ApplyKeysDomain` | trunk/iloggr/com/iloggr/server/JSON/JSONRPC.java:226-241 | the loops set only declared fields, so the instance keeps exactly the fields it started with |
| `DecoderProps.ApplyKeysUnset` | trunk/iloggr/com/iloggr/server/JSON/JSONRPC.java:226-241 | a field that no key matches keeps its starting value |
| `DecoderProps.ApplyKeysLastWins` | trunk/iloggr/com/iloggr/server/JSON/JSONRPC.java:226-241 | a matched field holds the decoded value of the last key that matches it |
| `DecoderProps.ParseObjectNullIff` | trunk/iloggr/com/iloggr/server/JSON/JSONRPC.java:220-246 | `parseObject` gives an instance of the tagged class with exactly the declared fields exactly when every member that matches a declared field decodes; otherwise the first member that does not decides: null if it throws, `NotModelled` if the model does not decode it |
| `DecoderProps.ParseObjectValues` | trunk/iloggr/com/iloggr/server/JSON/JSONRPC.java:220-246 | in a decoded entity, a field that no key matches is null, and a matched field holds the decoded value of the last matching key |
| `Dates.FormatThenParse` | trunk/iloggr/com/iloggr/server/JSON/JSONRPC.java:544-546 | a date whose fields fit the pattern prints as 14 digits, and parsing them gives the date back |
| `Dates.ParseThenFormat` | trunk/iloggr/com/iloggr/server/JSON/JSONRPC.java:544-546 | whatever the 14-digit reading accepts fits the pattern, and prints as the 14 characters it was read from |
| `Encoder.Tagged` | trunk/iloggr/com/iloggr/server/JSON/JSONRPC.java:253-258 | a tagged wire value has exactly the tag and `"value"` members, holding the tag text and the payload |
| `Encoder.EncodeCollection` | trunk/iloggr/com/iloggr/server/JSON/JSONRPC.java:483-509 | the array loop of `encode(Set)` and `encode(List)` yields the value `CollectionJson` defines, or the first exception an item raises |
| `Encoder.PutFields` | trunk/iloggr/com/iloggr/server/JSON/JSONRPC.java:312-447 | an entity encoder's `put` sequence yields the members `Projected` defines, stopping at the first getter that throws |
| `Encoder.PutActiveParameters` | trunk/iloggr/com/iloggr/server/JSON/JSONRPC.java:377-389 | the loop of `encode(Provisioning)` yields the members `ProvisioningEntries` defines, stopping at the first parameter that throws |
| `EncoderProps.ItemsJsonPointwise` | trunk/iloggr/com/iloggr/server/JSON/JSONRPC.java:491-493 | the array exists exactly when every item encodes, and it holds item `i`'s encoding at position `i` |
| `EncoderProps.CollectionEncoding` | trunk/iloggr/com/iloggr/server/JSON/JSONRPC.java:483-509 | a List or a Set encodes to its tag and an array with each item's encoding in iteration order; it raises exactly when some item does |
| `EncoderProps.ProjectedKeys` | trunk/iloggr/com/iloggr/server/JSON/JSONRPC.java:312-324 | the `put`s run to the end exactly when no getter throws; the members are the tag plus exactly the entries before the first getter that throws |
| `EncoderProps.ProjectedLookup` | trunk/iloggr/com/iloggr/server/JSON/JSONRPC.java:312-324 | each entry written sits under its own key, holding its own encoding |
| `EncoderProps.ProjectionsDistinct` | trunk/iloggr/com/iloggr/server/JSON/JSONRPC.java:312-447 | no entity encoder writes a key twice or writes the tag key; only ProvisioningParameter writes `"value"` |
| `EncoderProps.EntityDispatch` | trunk/iloggr/com/iloggr/server/JSON/JSONRPC.java:511-534 | `encode(Object)` on an entity goes to the encoder of its exact class; for a Phone the cast fails; LocationFix and Counter raise |
| `EncoderProps.EntityMembers` | trunk/iloggr/com/iloggr/server/JSON/JSONRPC.java:312-447 | an entity encoder other than Provisioning's sends the tag and the entries before the first getter that throws, each under its own key with its own encoding |
| `EncoderProps.ApplicationSendsAccountId` | trunk/iloggr/com/iloggr/server/JSON/JSONRPC.java:432-447 | an Application's `"account"` member is the encoding of its account's id, never the Account itself |
| `EncoderProps.AccountEntry` | trunk/iloggr/com/iloggr/server/JSON/JSONRPC.java:440 | the `"account"` entry succeeds only on an Account with a readable id, and writes that id's encoding |
| `EncoderProps.EncodedEntityHasNoValue` | trunk/iloggr/com/iloggr/server/JSON/JSONRPC.java:157-162 | an encoded Carrier, Event, Application or Account has no `"value"` member, so `parseParameter` throws on it |
| `EncoderProps.PhoneOnlyThroughItsOverload` | trunk/iloggr/com/iloggr/server/JSON/JSONRPC.java:524-525 | a Phone passed to `encode(Object)` fails the cast to Provisioning; through its own overload it encodes to an object |
| `EncoderProps.ActiveEntryShape` | trunk/iloggr/com/iloggr/server/JSON/JSONRPC.java:382-383 | a parameter that reads without throwing puts something exactly when it is active, and then its name with its raw value |
| `EncoderProps.ProvisioningComplete` | trunk/iloggr/com/iloggr/server/JSON/JSONRPC.java:380-387 | the Provisioning loop runs to the end exactly when no parameter throws |
| `EncoderProps.ProvisioningCut` | trunk/iloggr/com/iloggr/server/JSON/JSONRPC.java:380-387 | the loop keeps what the parameters before the first one that throws put, and nothing more |
| `EncoderProps.ProvisioningNamesComplete` | trunk/iloggr/com/iloggr/server/JSON/JSONRPC.java:381-383 | when no parameter throws, the members are the tag plus exactly the names of the active parameters |
| `EncoderProps.ProvisioningKeys` | trunk/iloggr/com/iloggr/server/JSON/JSONRPC.java:380-387 | the Provisioning loop runs to the end exactly when no parameter throws, and the members are the tag plus exactly the names of the active parameters before the first one that throws |
| `EncoderProps.LastNamedValue` | trunk/iloggr/com/iloggr/server/JSON/JSONRPC.java:381-383 | when no parameter throws, a name holds the raw value of the last active parameter with that name |
| `EncoderProps.TagStays` | trunk/iloggr/com/iloggr/server/JSON/JSONRPC.java:379-383 | when no parameter throws and none is named `"__jsonclass__"`, the tag keeps its value |
| `EncoderProps.ProvisioningLookup` | trunk/iloggr/com/iloggr/server/JSON/JSONRPC.java:379-387 | each name holds the raw value of the last active parameter with that name before the first one that throws, and the tag stays unless such a parameter is named `"__jsonclass__"` |
| `EncoderProps.ProvisioningEncoding` | trunk/iloggr/com/iloggr/server/JSON/JSONRPC.java:377-389 | a Provisioning whose parameter list cannot be read encodes to its tag alone; otherwise to the tag plus exactly the names of the active parameters before the first one that throws, each holding the raw value of the last such parameter with that name |
| `EncoderProps.InactiveParameterIsNull` | trunk/iloggr/com/iloggr/server/JSON/JSONRPC.java:394-409 | an inactive ProvisioningParameter encodes to null, an `isActive()` that throws makes the call raise, and an active one encodes to an object |
| `EncoderProps.EncodeObjectSucceedsIff` | trunk/iloggr/com/iloggr/server/JSON/JSONRPC.java:455-481 | `encode(Object)` succeeds exactly on the values it has a branch for, recursively through collections; null encodes to null |
| `RoundTrip.DecodeTagged` | trunk/iloggr/com/iloggr/server/JSON/JSONRPC.java:211-218 | a tagged value decodes under its tag's registered class and reads its `"value"` member |
| `RoundTrip.IntRoundTrip` | trunk/iloggr/com/iloggr/server/JSON/JSONRPC.java:253-258 | an Integer travels as `"Integer"` with its number and decodes to the same Integer |
| `RoundTrip.LongRoundTrip` | trunk/iloggr/com/iloggr/server/JSON/JSONRPC.java:270-275 | a Long travels as `"Long"` with its number and decodes to the same Long |
| `RoundTrip.DoubleRoundTrip` | trunk/iloggr/com/iloggr/server/JSON/JSONRPC.java:277-282 | a Double travels as `"Double"` with its number and decodes to the same Double |
| `RoundTrip.BoolRoundTrip` | trunk/iloggr/com/iloggr/server/JSON/JSONRPC.java:284-290 | a Boolean travels as `"Boolean"` with the string `"true"` or `"false"`, never a JSON boolean, and decodes to the same Boolean |
| `RoundTrip.BoolDecodes` | trunk/iloggr/com/iloggr/server/JSON/JSONRPC.java:177-178 | a `"Boolean"` parameter decodes a JSON boolean as it is and the strings `"true"` and `"false"` in any letter case; any other string throws |
| `RoundTrip.DateEncodes` | trunk/iloggr/com/iloggr/server/JSON/JSONRPC.java:536-542 | a Date travels as `"Date"` with its `yyyyMMddHHmmss` text |
| `RoundTrip.DateDecodes` | trunk/iloggr/com/iloggr/server/JSON/JSONRPC.java:179-187 | the Date branch reads the pattern text of a date whose fields fit the pattern back to that date |
| `RoundTrip.DateRoundTrip` | trunk/iloggr/com/iloggr/server/JSON/JSONRPC.java:536-542 | a whole-second Date whose fields fit the pattern travels as `"Date"` with its 14 digits and decodes to the same Date |
| `RoundTrip.ScalarRoundTrip` | trunk/iloggr/com/iloggr/server/JSON/JSONRPC.java:455-481 | null, Integer, Long, Double, Boolean and a representable whole-second Date given to `encode(Object)` decode back unchanged |
| `RoundTrip.StringDecodesToNull` | trunk/iloggr/com/iloggr/server/JSON/JSONRPC.java:264-268 | `encode(Object)` sends a String without a tag, so it decodes to null |
| `RoundTrip.ListDecodesToNull` | trunk/iloggr/com/iloggr/server/JSON/JSONRPC.java:499-509 | an encoded List decodes to null, since `"List"` is not registered |
| `RoundTrip.ParameterProjection` | trunk/iloggr/com/iloggr/server/JSON/JSONRPC.java:394-409 | for a ProvisioningParameter with a String name and an encodable value, `encode(ProvisioningParameter)` puts the tag, then `"name"` as a bare string, then `"value"` |
| `RoundTrip.StringNameDecodesToNull` | trunk/iloggr/com/iloggr/server/JSON/JSONRPC.java:220-245 | a ProvisioningParameter object whose `"name"` member is a bare string decodes to null, because `getJSONObject("name")` throws and the catch gives null |
| `RoundTrip.ParameterDecodesToNull` | trunk/iloggr/com/iloggr/server/JSON/JSONRPC.java:401-403 | such a ProvisioningParameter, once encoded, decodes to null |
| `RoundTrip.RoundTrip` | trunk/iloggr/com/iloggr/server/JSON/JSONRPC.java:483-497 | null, the tagged scalars, representable whole-second Dates and HashSets of such values decode back to themselves after `encode(Object)` |
| `Values.SetAdd` | trunk/iloggr/com/iloggr/server/JSON/JSONRPC.java:194 | adding to a set gains the element unless an equal one is there, and keeps the set free of repeats |
| `Values.NewInstance` | trunk/iloggr/com/iloggr/server/JSON/JSONRPC.java:224 | a fresh instance has exactly the declared fields, all null |
| `Wire.LookupPut` | trunk/iloggr/com/iloggr/server/JSON/JSONRPC.java:317 | after `put(k, v)`, reading `k` gives `v`, and every other key reads as before |
| `Wire.GetBoolean` | trunk/iloggr/com/iloggr/server/JSON/JSONRPC.java:178 | a JSON boolean reads as itself, and a string reads as `true` or `false` exactly when it equals that word ignoring case; everything else, and a missing key, throws `JSONException` |
| `Wire.Wrap32` | trunk/iloggr/com/iloggr/server/JSON/JSONRPC.java:172 | `getInt` keeps the number modulo 2^32 and leaves a number that fits 32 bits unchanged |

## Left out

- JSON text is not parsed or printed. `JSONObject.fromObject(payload)` is a
  parameter of `decodeRequest`, returning a tree or a parse failure.
  json-lib's own `toString` of doubles, arrays and objects is not modelled.
  Where `getString` would return such text, the model yields `NotModelled`
  (for `"value"` under the String tag) or no text (for tags, method names and
  Dates; no such text could name a tag or a method).
- Wire.GetInt: does not model json-lib's string-to-number coercion. It also
  does not model reading a floating-point number. A string or a double under
  an Integer tag yields `NotModelled`.
- Wire.GetLong: does not model json-lib's string-to-number coercion or
  reading a floating-point number, as for `Wire.GetInt`.
- Wire.GetDouble: does not model conversions from integers and strings.
- Doubles are opaque values that are only copied. No floating-point arithmetic
  or printing is modelled.
- `SimpleDateFormat` leniency, calendars and time zones are not modelled. The
  pattern is a codec between six numbers and 14 digits. Leniency such as
  accepting a month of 13 is not modelled: every 14-digit prefix parses to
  the numbers it spells.
- RoundTrip.DateRoundTrip: `DateRec` models whole-second dates only. A
  `java.util.Date` also holds milliseconds, which `format` drops, and `parse`
  gives back a Date with none, so in Java only a Date on a whole second comes
  back equal. The same holds for `RoundTrip.ScalarRoundTrip` and
  `RoundTrip.RoundTrip`. In Java, two Dates in one HashSet that differ only
  below the second collapse into one element on decoding.
- Dates.ParseDate: reads exactly 14 leading digits and ignores the rest.
  `SimpleDateFormat` reads the first five fields of `yyyyMMddHHmmss` at their
  fixed widths, but the last field, `ss`, takes every digit that follows and
  may be a single digit. It also skips blanks before a field. So
  `"200901011200059"` gives 59 seconds in Java and 5 here, and the 13-character
  `"2009010112005"` gives a Date in Java and null here. `Dates.ParseThenFormat`
  is a property of this 14-digit reading, not of Java's parse.
- `equalsIgnoreCase` folds ASCII letters only.
- `trim()` counts every character up to `' '` as blank, as Java's `trim()`
  does.
- Reflection is replaced by fixed lists. `getDeclaredFields()` is a fixed field
  list per entity class, and `Field.set` is a map update. The entity classes
  are not part of this model, so each list is inferred from the getters the
  encoders call (Carrier's `getTextGateway()`, written under the key
  `"gateway"`, gives the field `textGateway`).
  - `Field.set`'s type checks are not modelled. Neither are defaults of
    primitive fields, which the model makes null.
  - The Counter class is not part of this model, so it declares no fields here.
- Decoder.ApplyKey: assumes every declared field can be written by
  reflection, that is, it is public and not final. Nothing in `parseObject`
  calls `setAccessible(true)`, so in Java `f.set` (lines 235 and 237 of
  `JSONRPC.java`) throws `IllegalAccessException` on a private or final field.
  The catch at line 243 then makes `parseObject` return null for any object
  with a key matching such a field, where the model sets the field.
  `Decoder.SetFields`, `DecoderProps.ParseObjectNullIff` and
  `DecoderProps.ParseObjectValues` rest on the same assumption.
- `getDeclaredMethods()` of the four service interfaces is a parameter of
  `Dispatch.RegisteredDecls`, because the interfaces are not part of this
  model.
- Java's `HashSet` is a sequence without repeats, in insertion order, with
  structural equality. Java's hash-order iteration is not modelled, and
  neither is `equals` as the entity classes define it.
- `Map.put` on the `HashMap` that each encoder builds keeps insertion order.
  The member order json-lib prints is not modelled; no property here depends
  on it.
- A getter's static type, which selects the `encode` overload in the entity
  encoders, is taken to be the runtime class of the value it returns
  (`Encoder.EncodeTyped`). A class without an overload of its own goes through
  `encode(Object)`.
- Encoder.RawJson: only scalars put raw into a result map are modelled. A
  bean or a collection put raw (Event latitude and longitude,
  ProvisioningParameter values) yields `NotModelled` instead of json-lib's
  bean conversion.
- Encoder.ActiveEntry: a Provisioning parameter name that is not a String
  yields `NotModelled`.
- Encoder.Projected: a getter result the model does not convert (`NotModelled`
  from `Encoder.RawJson`) is caught like an exception. The entity's members
  stop there, where json-lib would convert the value and go on.
- Encoder.ProvisioningEntries: likewise, a parameter whose name or value the
  model does not convert ends the loop, where json-lib would put it and go on.
- A value the decoder does not model is not an exception of the Java code. It
  passes through the catch in `parseObject` as `NotModelled` and through the
  catch in `decodeRequest` as `Unmodelled`, an outcome the Java does not have
  (`Decoder.ParseObject`, `Requests.DecodeRequestSpec`).
- `Wire.Json`'s `JNull` stands both for a JSON null and for json-lib's null
  `JSONObject`, which `getJSONObject` returns for a null member.
  `Decoder.ParseParameter` relies on this at lines 159 and 162 of
  `JSONRPC.java`. In `Requests.DecodeRequestSpec`, `Parsed(JNull)` stands for
  `fromObject` returning a Java null, the only case line 129 tests; a null
  `JSONObject` there would make `getString("method")` at line 133 throw instead.
  A JSON-null `"value"` member is taken to be a null `JSONObject`, the only kind
  of null that passes the class test at line 162.
- A parsed JSON object has unique keys, since json-lib's `JSONObject` is a map.
  `Wire.Json` does not enforce this. On a tree with a repeated key, `Lookup`
  reads the first member, while `Decoder.ApplyKeys` visits every member.
- `encodeGeneralFailureResponse` and the `JSONRPCRequest`, `JSONRPCResponse`
  and `ILException` classes are not part of this model. Error codes are a
  datatype, and a request is a record.
- RoundTrip.ScalarRoundTrip: does not cover String. `encode(Object)` sends a
  String without a tag, and `RoundTrip.StringDecodesToNull` states what comes
  back.
