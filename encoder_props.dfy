/** What the encoder promises, stated over the whole input. */
module EncoderProps {
  import opened Outcomes
  import opened Wire
  import opened Registry
  import opened Values
  import opened Decoder
  import opened Encoder

  // ---------------------------------------------------------------------------
  // Collections
  // ---------------------------------------------------------------------------

  /** The array holds one encoding per item, item `i` at position `i`; it exists iff every item encodes. */
  lemma {:induction false} ItemsJsonPointwise(parent: Value, items: seq<Value>)
    requires (parent.List? || parent.HashSet?) && items <= ItemsOf(parent)
    ensures ItemsJson(parent, items).Ok? <==> forall i :: 0 <= i < |items| ==> EncodeObject(items[i]).Ok?
    ensures ItemsJson(parent, items).Ok? ==>
              |ItemsJson(parent, items).value| == |items| &&
              forall i :: 0 <= i < |items| ==> EncodeObject(items[i]) == Ok(ItemsJson(parent, items).value[i])
    decreases |items|
  {
    if items != [] {
      var n := |items| - 1;
      var init := items[..n];
      ItemsJsonPointwise(parent, init);
      assert forall i :: 0 <= i < n ==> init[i] == items[i];
      var prev, last := ItemsJson(parent, init), EncodeObject(items[n]);
      assert ItemsJson(parent, items) ==
             if prev.Fail? then Fail(prev.error)
             else if last.Fail? then Fail(last.error)
             else Ok(prev.value + [last.value]);
      if prev.Fail? {
        var i :| 0 <= i < n && EncodeObject(init[i]).Fail?;
        assert EncodeObject(items[i]).Fail?;
      } else if last.Ok? {
        var js := prev.value + [last.value];
        forall i | 0 <= i < |items| ensures EncodeObject(items[i]) == Ok(js[i]) {
          if i < n {
            assert js[i] == prev.value[i];
          }
        }
      }
    }
  }

  /**
   * `encode(List)` and `encode(Set)`: the collection's tag and an array with the
   * encoding of each item in iteration order; they raise iff some item does.
   */
  lemma CollectionEncoding(v: Value)
    requires v.List? || v.HashSet?
    ensures EncodeObject(v).Ok? <==> forall i :: 0 <= i < |ItemsOf(v)| ==> EncodeObject(ItemsOf(v)[i]).Ok?
    ensures EncodeObject(v).Ok? ==>
              exists js: seq<Json> ::
                EncodeObject(v).value == Tagged(if v.List? then "List" else "HashSet", JArr(js)) &&
                |js| == |ItemsOf(v)| &&
                forall i :: 0 <= i < |js| ==> EncodeObject(ItemsOf(v)[i]) == Ok(js[i])
  {
    ItemsJsonPointwise(v, ItemsOf(v));
  }

  // ---------------------------------------------------------------------------
  // Entities
  // ---------------------------------------------------------------------------

  function WireKeys(es: seq<Entry>): set<string>
  {
    set i | 0 <= i < |es| :: es[i].wire
  }

  /** No two entries write the same member, and none writes the tag. */
  predicate DistinctWires(es: seq<Entry>)
  {
    (forall i, j :: 0 <= i < j < |es| ==> es[i].wire != es[j].wire) &&
    forall i :: 0 <= i < |es| ==> es[i].wire != TagKey
  }

  /** How many entries are written before the first getter that throws. */
  function Reached(v: Value, es: seq<Entry>): (n: nat)
    requires v.Object?
    ensures n <= |es|
    ensures forall i :: 0 <= i < n ==> FieldJson(v, es[i]).Ok?
    ensures n < |es| ==> FieldJson(v, es[n]).Fail?
  {
    if es == [] then 0
    else if FieldJson(v, es[0]).Fail? then 0
    else 1 + Reached(v, es[1..])
  }

  /** When no getter throws, every entry is reached. */
  lemma {:induction false} ReachedAll(v: Value, es: seq<Entry>)
    requires v.Object?
    requires forall i :: 0 <= i < |es| ==> FieldJson(v, es[i]).Ok?
    ensures Reached(v, es) == |es|
  {
    if es != [] {
      assert forall i :: 0 <= i < |es| - 1 ==> es[1..][i] == es[i + 1];
      ReachedAll(v, es[1..]);
    }
  }

  lemma {:induction false} ReachedPrefix(v: Value, es: seq<Entry>, k: nat)
    requires v.Object? && k <= |es|
    ensures Reached(v, es[..k]) == if Reached(v, es) < k then Reached(v, es) else k
  {
    var n := Reached(v, es[..k]);
    var m := Reached(v, es);
    assert forall i :: 0 <= i < k ==> es[..k][i] == es[i];
    if n < k {
      assert FieldJson(v, es[n]).Fail?;
    }
    if m < k {
      assert FieldJson(v, es[..k][m]).Fail?;
    }
  }

  lemma WireKeysSnoc(es: seq<Entry>, n: nat)
    requires n < |es|
    ensures WireKeys(es[..n + 1]) == WireKeys(es[..n]) + {es[n].wire}
  {
    var a, b := es[..n + 1], es[..n];
    assert forall i :: 0 <= i < n ==> a[i] == b[i];
    assert a[n] == es[n];
  }

  /** One `put` more, or the `try` ends: the step from `es[..|es| - 1]` to `es`. */
  lemma ProjectedStep(v: Value, es: seq<Entry>)
    requires v.Object? && es != []
    ensures var acc := Projected(v, es[..|es| - 1]);
            var e := es[|es| - 1];
            Projected(v, es) ==
              if !acc.complete then acc
              else if FieldJson(v, e).Fail? then Partial(acc.members, false)
              else Partial(Put(acc.members, e.wire, FieldJson(v, e).value), true)
  {
  }

  /**
   * The `put`s inside one `try`: the projection is complete exactly when no getter
   * throws, and the entries before the first getter that throws are all written,
   * and nothing else is.
   */
  lemma {:induction false} ProjectedKeys(v: Value, es: seq<Entry>)
    requires v.Object?
    ensures Projected(v, es).complete <==> Reached(v, es) == |es|
    ensures KeySet(Projected(v, es).members) == {TagKey} + WireKeys(es[..Reached(v, es)])
  {
    if es == [] {
      KeySetCons(Projected(v, es).members);
    } else {
      var n0 := |es| - 1;
      var init, e := es[..n0], es[n0];
      ProjectedKeys(v, init);
      ReachedPrefix(v, es, n0);
      ProjectedStep(v, es);
      var acc := Projected(v, init);
      var n := Reached(v, init);
      assert init[..n] == es[..n];
      if acc.complete && FieldJson(v, e).Ok? {
        assert Reached(v, es) == |es|;
        WireKeysSnoc(es, n0);
        assert es[..n0 + 1] == es[..|es|];
      } else {
        assert Reached(v, es) == n;
        assert Projected(v, es).members == acc.members;
      }
    }
  }

  /** Each entry written sits under its own key with its own encoding. */
  lemma {:induction false} ProjectedLookup(v: Value, es: seq<Entry>)
    requires v.Object? && DistinctWires(es)
    ensures forall i :: 0 <= i < Reached(v, es) ==>
              Lookup(Projected(v, es).members, es[i].wire) == Some(FieldJson(v, es[i]).value)
  {
    if es != [] {
      var n0 := |es| - 1;
      var init, e := es[..n0], es[n0];
      assert forall i :: 0 <= i < n0 ==> init[i] == es[i];
      assert DistinctWires(init);
      ProjectedLookup(v, init);
      ReachedPrefix(v, es, n0);
      ProjectedStep(v, es);
      var acc := Projected(v, init);
      var n := Reached(v, init);
      ProjectedKeys(v, init);
      if acc.complete && FieldJson(v, e).Ok? {
        assert n == n0;
        LookupAfterPut(v, es, acc.members);
      } else {
        assert Reached(v, es) == n;
        assert Projected(v, es).members == acc.members;
      }
    }
  }

  lemma LookupAfterPut(v: Value, es: seq<Entry>, m: seq<(string, Json)>)
    requires v.Object? && es != [] && DistinctWires(es)
    requires forall i :: 0 <= i < |es| ==> FieldJson(v, es[i]).Ok?
    requires forall i :: 0 <= i < |es| - 1 ==> Lookup(m, es[i].wire) == Some(FieldJson(v, es[i]).value)
    ensures var e := es[|es| - 1];
            forall i :: 0 <= i < |es| ==>
              Lookup(Put(m, e.wire, FieldJson(v, e).value), es[i].wire) == Some(FieldJson(v, es[i]).value)
  {
    var e := es[|es| - 1];
    forall i | 0 <= i < |es|
      ensures Lookup(Put(m, e.wire, FieldJson(v, e).value), es[i].wire) == Some(FieldJson(v, es[i]).value)
    {
      LookupPut(m, e.wire, FieldJson(v, e).value, es[i].wire);
    }
  }

  lemma ProjectionsDistinct(k: EntityKind)
    ensures DistinctWires(Projection(k))
    ensures ValueKey in WireKeys(Projection(k)) <==> k == ProvisioningParameter
  {
    var es := Projection(k);
    if k == ProvisioningParameter {
      assert es[1].wire == ValueKey;
    }
  }

  /** `encode(Object)` on an entity: the branch of `encode(iLoggrObject)` its exact class selects. */
  lemma EntityDispatch(v: Value)
    requires v.Object?
    ensures v.kind in {Carrier, Event, Application, Account, Provisioning, ProvisioningParameter} ==>
              EncodeObject(v) == EntityJson(v)
    ensures v.kind == Phone ==> EncodeObject(v) == Fail(ClassCastException)
    ensures v.kind in {LocationFix, Counter} ==>
              EncodeObject(v) == Fail(CannotEncode("Cannot JSON encode unrecognized iLoggrObject"))
  {
    assert EncodeObject(v) == EncodeILoggr(v);
  }

  /**
   * An entity encoder other than `encode(Provisioning)` sends the tag and the
   * entries put before the first getter that throws, each under its own key with
   * its own encoding; it sends all of them when no getter throws.
   */
  lemma EntityMembers(v: Value)
    requires v.Object? && v.kind != Provisioning && v.kind != Counter
    requires v.kind == ProvisioningParameter ==> ActiveFlag(v.fields) == Ok(true)
    ensures EntityJson(v).Ok? && EntityJson(v).value.JObj?
    ensures var es := Projection(v.kind);
            var members := EntityJson(v).value.members;
            KeySet(members) == {TagKey} + WireKeys(es[..Reached(v, es)]) &&
            forall i :: 0 <= i < Reached(v, es) ==> Lookup(members, es[i].wire) == Some(FieldJson(v, es[i]).value)
  {
    var es := Projection(v.kind);
    ProjectionsDistinct(v.kind);
    ProjectedKeys(v, es);
    ProjectedLookup(v, es);
    assert EntityJson(v) == Ok(JObj(Projected(v, es).members));
  }

  /**
   * Application sends its account as the account's id only: the member "account"
   * is the encoding of the id, never the Account itself.
   */
  lemma ApplicationSendsAccountId(v: Value)
    requires v.Object? && v.kind == Application
    requires forall i :: 0 <= i < |Projection(Application)| ==> FieldJson(v, Projection(Application)[i]).Ok?
    ensures "account" in v.fields && v.fields["account"].Object? && "id" in v.fields["account"].fields
    ensures EncodeTyped(v.fields["account"].fields["id"]).Ok?
    ensures EncodeObject(v).Ok? && EncodeObject(v).value.JObj?
    ensures Lookup(EncodeObject(v).value.members, "account") ==
            Some(EncodeTyped(v.fields["account"].fields["id"]).value)
  {
    var es := Projection(Application);
    var e := es[2];
    assert e == Entry("account", "account", IdOf);
    assert FieldJson(v, e).Ok?;
    AccountEntry(v);
    ReachedAll(v, es);
    EntityDispatch(v);
    EntityMembers(v);
    assert Lookup(EncodeObject(v).value.members, e.wire) == Some(FieldJson(v, e).value);
  }

  /** The "account" entry writes the id of an Account, and nothing else succeeds. */
  lemma AccountEntry(v: Value)
    requires v.Object? && FieldJson(v, Entry("account", "account", IdOf)).Ok?
    ensures "account" in v.fields && v.fields["account"].Object? && v.fields["account"].kind == Account
    ensures "id" in v.fields["account"].fields
    ensures FieldJson(v, Entry("account", "account", IdOf)) == EncodeTyped(v.fields["account"].fields["id"])
  {
  }

  /**
   * An encoded Carrier, Event, Application or Account has no "value" member, so
   * decoding it throws at `v.getClass()`: entities do not round-trip.
   */
  lemma EncodedEntityHasNoValue(v: Value)
    requires v.Object? && v.kind in {Carrier, Event, Application, Account}
    ensures EncodeObject(v).Ok? && IsParameter(EncodeObject(v).value)
    ensures ParseParameter(EncodeObject(v).value) == Fail(NullPointerException)
  {
    var es := Projection(v.kind);
    EntityDispatch(v);
    EntityMembers(v);
    ProjectionsDistinct(v.kind);
    var n := Reached(v, es);
    assert WireKeys(es[..n]) <= WireKeys(es) by {
      forall i | 0 <= i < n ensures es[..n][i].wire in WireKeys(es) {
        assert es[..n][i] == es[i];
      }
    }
    assert ValueKey !in KeySet(EncodeObject(v).value.members);
  }

  /** A Phone reaches `encode(Phone)` only through a getter; given to `encode(Object)` it fails the cast. */
  lemma PhoneOnlyThroughItsOverload(v: Value)
    requires v.Object? && v.kind == Phone
    ensures EncodeObject(v) == Fail(ClassCastException)
    ensures EncodeTyped(v).Ok? && EncodeTyped(v).value.JObj?
  {
    EntityDispatch(v);
    assert EncodeTyped(v) == EntityJson(v);
  }

  // ---------------------------------------------------------------------------
  // Provisioning
  // ---------------------------------------------------------------------------

  /** The names of the parameters whose `isActive()` is true. */
  function ActiveNames(ps: seq<Value>): set<string>
  {
    set i | 0 <= i < |ps| && ps[i].Object? && ActiveFlag(ps[i].fields) == Ok(true) &&
            "name" in ps[i].fields && ps[i].fields["name"].Str? :: ps[i].fields["name"].s
  }

  predicate NamesActive(p: Value)
  {
    p.Object? && ActiveFlag(p.fields) == Ok(true) && "name" in p.fields && p.fields["name"].Str?
  }

  lemma ActiveNamesSnoc(ps: seq<Value>)
    requires ps != []
    ensures var p := ps[|ps| - 1];
            ActiveNames(ps) == ActiveNames(ps[..|ps| - 1]) + if NamesActive(p) then {p.fields["name"].s} else {}
  {
    var init := ps[..|ps| - 1];
    assert forall i :: 0 <= i < |init| ==> init[i] == ps[i];
  }

  lemma ProvisioningStep(ps: seq<Value>)
    requires ps != []
    ensures var acc := ProvisioningEntries(ps[..|ps| - 1]);
            var p := ps[|ps| - 1];
            ProvisioningEntries(ps) ==
              if !acc.complete then acc
              else if ActiveEntry(p).Fail? then Partial(acc.members, false)
              else if ActiveEntry(p).value.None? then acc
              else Partial(Put(acc.members, ActiveEntry(p).value.value.0, ActiveEntry(p).value.value.1), true)
  {
  }

  /** How many parameters the loop of `encode(Provisioning)` passes before the first that throws. */
  function ActiveReached(ps: seq<Value>): (n: nat)
    ensures n <= |ps|
    ensures forall i :: 0 <= i < n ==> ActiveEntry(ps[i]).Ok?
    ensures n < |ps| ==> ActiveEntry(ps[n]).Fail?
  {
    if ps == [] then 0
    else if ActiveEntry(ps[0]).Fail? then 0
    else 1 + ActiveReached(ps[1..])
  }

  /** What one parameter that reads without throwing puts: its name and raw value exactly when it is active. */
  lemma ActiveEntryShape(p: Value)
    requires ActiveEntry(p).Ok?
    ensures ActiveEntry(p).value.Some? <==> NamesActive(p)
    ensures NamesActive(p) ==>
              "value" in p.fields && RawJson(p.fields["value"]).Ok? &&
              ActiveEntry(p).value.value == (p.fields["name"].s, RawJson(p.fields["value"]).value)
  {
  }

  /** One parameter more in a loop that has not thrown: its name and raw value are put when it is active. */
  lemma ProvisioningCompleteStep(ps: seq<Value>)
    requires ps != [] && ProvisioningEntries(ps).complete
    ensures var init, p := ps[..|ps| - 1], ps[|ps| - 1];
            ProvisioningEntries(init).complete &&
            (NamesActive(p) ==> "value" in p.fields && RawJson(p.fields["value"]).Ok?) &&
            ProvisioningEntries(ps).members ==
              if NamesActive(p)
              then Put(ProvisioningEntries(init).members, p.fields["name"].s, RawJson(p.fields["value"]).value)
              else ProvisioningEntries(init).members
  {
    ProvisioningStep(ps);
    ActiveEntryShape(ps[|ps| - 1]);
  }

  /** `encode(Provisioning)`'s loop runs to the end exactly when no parameter throws. */
  lemma {:induction false} ProvisioningComplete(ps: seq<Value>)
    ensures ProvisioningEntries(ps).complete <==> forall i :: 0 <= i < |ps| ==> ActiveEntry(ps[i]).Ok?
  {
    if ps != [] {
      var init := ps[..|ps| - 1];
      ProvisioningComplete(init);
      ProvisioningStep(ps);
      assert forall i :: 0 <= i < |init| ==> init[i] == ps[i];
    }
  }

  /** The loop stops at the first parameter that throws, keeping what the parameters before it put. */
  lemma ProvisioningCut(ps: seq<Value>)
    ensures var n := ActiveReached(ps);
            ProvisioningEntries(ps[..n]).complete &&
            ProvisioningEntries(ps).members == ProvisioningEntries(ps[..n]).members
  {
    var n := ActiveReached(ps);
    var pre := ps[..n];
    assert forall i :: 0 <= i < n ==> pre[i] == ps[i];
    ProvisioningComplete(pre);
    if n == |ps| {
      assert pre == ps;
    } else {
      var pre1 := ps[..n + 1];
      assert pre1[..n] == pre && pre1[n] == ps[n];
      ProvisioningStep(pre1);
      ProvisioningEntriesStop(ps, n + 1);
    }
  }

  /** When no parameter throws, the members are the tag and exactly the names of the active parameters. */
  lemma {:induction false} ProvisioningNamesComplete(ps: seq<Value>)
    requires ProvisioningEntries(ps).complete
    ensures KeySet(ProvisioningEntries(ps).members) == {TagKey} + ActiveNames(ps)
  {
    if ps == [] {
      KeySetCons(ProvisioningTag());
    } else {
      ProvisioningCompleteStep(ps);
      ProvisioningNamesComplete(ps[..|ps| - 1]);
      ActiveNamesSnoc(ps);
    }
  }

  /**
   * `encode(Provisioning)`'s loop: it runs to the end exactly when no parameter
   * throws, and the members are the tag and exactly the names of the active
   * parameters before the first one that throws.
   */
  lemma ProvisioningKeys(ps: seq<Value>)
    ensures ProvisioningEntries(ps).complete <==> forall i :: 0 <= i < |ps| ==> ActiveEntry(ps[i]).Ok?
    ensures ProvisioningEntries(ps).complete <==> ActiveReached(ps) == |ps|
    ensures KeySet(ProvisioningEntries(ps).members) == {TagKey} + ActiveNames(ps[..ActiveReached(ps)])
  {
    var n := ActiveReached(ps);
    ProvisioningComplete(ps);
    ProvisioningCut(ps);
    ProvisioningNamesComplete(ps[..n]);
    if n == |ps| {
      assert ps[..n] == ps;
    }
  }

  /** Parameter `p` is active and named `name`. */
  predicate NamedActive(p: Value, name: string)
  {
    NamesActive(p) && p.fields["name"].s == name
  }

  /** Parameter `i` is the last of the first `n` that is active and named `name`. */
  predicate LastNamed(ps: seq<Value>, n: nat, i: int, name: string)
    requires n <= |ps|
  {
    0 <= i < n && NamedActive(ps[i], name) && forall k :: i < k < n ==> !NamedActive(ps[k], name)
  }

  /**
   * When no parameter throws, a name holds the raw value of the last active
   * parameter with that name.
   */
  lemma {:induction false} LastNamedValue(ps: seq<Value>, i: nat, name: string)
    requires ProvisioningEntries(ps).complete && LastNamed(ps, |ps|, i, name)
    ensures "value" in ps[i].fields && RawJson(ps[i].fields["value"]).Ok?
    ensures Lookup(ProvisioningEntries(ps).members, name) == Some(RawJson(ps[i].fields["value"]).value)
  {
    var n0 := |ps| - 1;
    var init, p := ps[..n0], ps[n0];
    ProvisioningCompleteStep(ps);
    var acc := ProvisioningEntries(init).members;
    if i < n0 {
      LastNamedBefore(ps, i, name);
      LastNamedValue(init, i, name);
      if NamesActive(p) {
        LookupPut(acc, p.fields["name"].s, RawJson(p.fields["value"]).value, name);
      }
    } else {
      LookupPut(acc, name, RawJson(p.fields["value"]).value, name);
    }
  }

  /** A last parameter named `name` that is not the last parameter is the last one named so before it. */
  lemma LastNamedBefore(ps: seq<Value>, i: nat, name: string)
    requires LastNamed(ps, |ps|, i, name) && i < |ps| - 1
    ensures LastNamed(ps[..|ps| - 1], |ps| - 1, i, name)
    ensures ps[..|ps| - 1][i] == ps[i] && !NamedActive(ps[|ps| - 1], name)
  {
    var init := ps[..|ps| - 1];
    assert forall k :: 0 <= k < |init| ==> init[k] == ps[k];
  }

  /** When no parameter throws and none is named "__jsonclass__", the tag is what it was. */
  lemma {:induction false} TagStays(ps: seq<Value>)
    requires ProvisioningEntries(ps).complete
    requires forall i :: 0 <= i < |ps| ==> !NamedActive(ps[i], TagKey)
    ensures Lookup(ProvisioningEntries(ps).members, TagKey) == Some(JStr("Provisioning"))
  {
    if ps == [] {
      LookupCons(ProvisioningTag(), TagKey);
    } else {
      var n0 := |ps| - 1;
      var init, p := ps[..n0], ps[n0];
      assert forall k :: 0 <= k < n0 ==> init[k] == ps[k];
      ProvisioningCompleteStep(ps);
      TagStays(init);
      if NamesActive(p) {
        assert !NamedActive(p, TagKey);
        LookupPut(ProvisioningEntries(init).members, p.fields["name"].s, RawJson(p.fields["value"]).value, TagKey);
      }
    }
  }

  /**
   * `encode(Provisioning)`'s loop: each name put holds the raw value of the last
   * active parameter with that name before the first parameter that throws, and the
   * tag stays unless such a parameter is itself named "__jsonclass__".
   */
  lemma ProvisioningLookup(ps: seq<Value>)
    ensures var n, m := ActiveReached(ps), ProvisioningEntries(ps).members;
            forall i, name :: LastNamed(ps, n, i, name) ==>
              "value" in ps[i].fields && RawJson(ps[i].fields["value"]).Ok? &&
              Lookup(m, name) == Some(RawJson(ps[i].fields["value"]).value)
    ensures var n, m := ActiveReached(ps), ProvisioningEntries(ps).members;
            (forall i :: 0 <= i < n ==> !NamedActive(ps[i], TagKey)) ==>
              Lookup(m, TagKey) == Some(JStr("Provisioning"))
  {
    var n := ActiveReached(ps);
    var pre := ps[..n];
    assert forall i :: 0 <= i < n ==> pre[i] == ps[i];
    ProvisioningCut(ps);
    forall i, name | LastNamed(ps, n, i, name)
      ensures "value" in ps[i].fields && RawJson(ps[i].fields["value"]).Ok? &&
              Lookup(ProvisioningEntries(ps).members, name) == Some(RawJson(ps[i].fields["value"]).value)
    {
      assert LastNamed(pre, n, i, name);
      LastNamedValue(pre, i, name);
    }
    if forall i :: 0 <= i < n ==> !NamedActive(ps[i], TagKey) {
      TagStays(pre);
    }
  }

  /**
   * `encode(Provisioning)`: a parameter list that cannot be read leaves only the tag;
   * otherwise the members are the tag and the names of the active parameters before
   * the first one that throws, each holding the raw value of the last such parameter
   * with that name.
   */
  lemma ProvisioningEncoding(v: Value)
    requires v.Object? && v.kind == Provisioning
    ensures EncodeObject(v).Ok? && EncodeObject(v).value.JObj?
    ensures ParameterList(v.fields).Fail? ==> EncodeObject(v) == Ok(JObj([(TagKey, JStr("Provisioning"))]))
    ensures ParameterList(v.fields).Ok? ==>
              var ps := ParameterList(v.fields).value;
              var n, m := ActiveReached(ps), EncodeObject(v).value.members;
              KeySet(m) == {TagKey} + ActiveNames(ps[..n]) &&
              forall i, name :: LastNamed(ps, n, i, name) ==>
                "value" in ps[i].fields && RawJson(ps[i].fields["value"]).Ok? &&
                Lookup(m, name) == Some(RawJson(ps[i].fields["value"]).value)
  {
    EntityDispatch(v);
    if ParameterList(v.fields).Ok? {
      ProvisioningKeys(ParameterList(v.fields).value);
      ProvisioningLookup(ParameterList(v.fields).value);
    }
  }

  /**
   * `encode(ProvisioningParameter)`: an inactive parameter encodes to null, and an
   * `isActive()` that throws makes the call raise.
   */
  lemma InactiveParameterIsNull(v: Value)
    requires v.Object? && v.kind == ProvisioningParameter
    ensures ActiveFlag(v.fields) == Ok(false) ==> EncodeObject(v) == Ok(JNull)
    ensures ActiveFlag(v.fields).Fail? ==> EncodeObject(v) == Fail(ActiveFlag(v.fields).error)
    ensures ActiveFlag(v.fields) == Ok(true) ==> EncodeObject(v).Ok? && EncodeObject(v).value.JObj?
  {
    EntityDispatch(v);
  }

  // ---------------------------------------------------------------------------
  // When `encode(Object)` raises
  // ---------------------------------------------------------------------------

  /**
   * The values `encode(Object)` accepts: everything but classes it has no branch for
   * (a foreign class, Phone, LocationFix, Counter), a ProvisioningParameter whose
   * `isActive()` throws, and collections holding such a value.
   */
  predicate Encodable(v: Value)
  {
    match v
    case Foreign(_) => false
    case Object(k, fs) =>
      k in {Carrier, Event, Application, Account, Provisioning} ||
      (k == ProvisioningParameter && ActiveFlag(fs).Ok?)
    case List(items) => forall i :: 0 <= i < |items| ==> Encodable(items[i])
    case HashSet(es) => forall i :: 0 <= i < |es| ==> Encodable(es[i])
    case _ => true
  }

  /** `encode(Object)` succeeds exactly on the values it accepts; null encodes to null. */
  lemma {:induction false} EncodeObjectSucceedsIff(v: Value)
    ensures EncodeObject(v).Ok? <==> Encodable(v)
    ensures v.Null? ==> EncodeObject(v) == Ok(JNull)
  {
    match v
    case List(items) =>
      ItemsJsonPointwise(v, items);
      forall i | 0 <= i < |items| ensures EncodeObject(items[i]).Ok? <==> Encodable(items[i]) {
        EncodeObjectSucceedsIff(items[i]);
      }
    case HashSet(es) =>
      ItemsJsonPointwise(v, es);
      forall i | 0 <= i < |es| ensures EncodeObject(es[i]).Ok? <==> Encodable(es[i]) {
        EncodeObjectSucceedsIff(es[i]);
      }
    case Object(_, _) =>
      EntityDispatch(v);
    case _ =>
  }
}
