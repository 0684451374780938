/** What the value decoder promises, stated over the whole input. */
module DecoderProps {
  import opened Outcomes
  import opened Wire
  import opened JavaString
  import opened Registry
  import opened Dates
  import opened Values
  import opened Decoder

  // ---------------------------------------------------------------------------
  // parseParameter: where it yields null instead of raising
  // ---------------------------------------------------------------------------

  /**
   * `parseParameter` raises only where json-lib does, or for a missing "value":
   * a null "value", an unreadable or unregistered tag and a Date that does not
   * parse all give null, and an entity tag gives what `parseObject` gives.
   */
  lemma ParseParameterFailSoft(p: Json)
    requires p.JObj?
    ensures ValueKey !in KeySet(p.members) ==> ParseParameter(p) == Fail(NullPointerException)
    ensures Lookup(p.members, ValueKey) == Some(JNull) ==> ParseParameter(p) == Ok(Null)
    ensures ValueKey in KeySet(p.members) && TagKey !in KeySet(p.members) ==> ParseParameter(p) == Ok(Null)
    ensures ValueKey in KeySet(p.members) &&
            (exists t :: Lookup(p.members, TagKey) == Some(JStr(t)) && KindOfTag(t).None?) ==>
              ParseParameter(p) == Ok(Null)
    ensures (exists s :: Lookup(p.members, ValueKey) == Some(JStr(s)) && ParseDate(s).None?) &&
            Lookup(p.members, TagKey) == Some(JStr("Date")) ==>
              ParseParameter(p) == Ok(Null)
    ensures forall e :: ValueKey in KeySet(p.members) && Lookup(p.members, ValueKey) != Some(JNull) &&
                        Lookup(p.members, TagKey) == Some(JStr(EntityTag(e))) ==>
                          ParseParameter(p) == ParseObject(p, e)
  {
    forall e | ValueKey in KeySet(p.members) && Lookup(p.members, ValueKey) != Some(JNull) &&
               Lookup(p.members, TagKey) == Some(JStr(EntityTag(e)))
      ensures ParseParameter(p) == ParseObject(p, e)
    {
      TagNameRegistered(EntityType(e));
    }
  }

  // ---------------------------------------------------------------------------
  // HashSet
  // ---------------------------------------------------------------------------

  /** One element more: the step from `es[..|es| - 1]` to `es`. */
  lemma DecodeElementsStep(parent: Json, es: seq<Json>)
    requires parent.JArr? && es <= parent.elems && es != []
    ensures var x := es[|es| - 1];
            DecodeElements(parent, es) ==
              match DecodeElements(parent, es[..|es| - 1])
              case Fail(e) => Fail(e)
              case Ok(acc) =>
                if DecodeElement(x).Fail? then Fail(DecodeElement(x).error)
                else Ok(SetAdd(acc, DecodeElement(x).value))
  {
  }

  /**
   * The HashSet branch succeeds exactly when every element is an object or null
   * and decodes without raising (`DecodeElement`).
   */
  lemma {:induction false} DecodeElementsOkIff(parent: Json, es: seq<Json>)
    requires parent.JArr? && es <= parent.elems
    ensures DecodeElements(parent, es).Ok? <==> forall i :: 0 <= i < |es| ==> DecodeElement(es[i]).Ok?
    decreases |es|
  {
    if es != [] {
      var n := |es| - 1;
      var init := es[..n];
      DecodeElementsOkIff(parent, init);
      DecodeElementsStep(parent, es);
      assert forall i :: 0 <= i < n ==> init[i] == es[i];
      if DecodeElements(parent, init).Fail? {
        var i :| 0 <= i < n && DecodeElement(init[i]).Fail?;
        assert DecodeElement(es[i]).Fail?;
      }
    }
  }

  /** Element `i` decodes to `y`. */
  predicate DecodesTo(es: seq<Json>, i: int, y: Value)
  {
    0 <= i < |es| && DecodeElement(es[i]) == Ok(y)
  }

  lemma DecodesToPrefix(es: seq<Json>, n: nat)
    requires n <= |es|
    ensures forall i, y :: DecodesTo(es[..n], i, y) <==> 0 <= i < n && DecodesTo(es, i, y)
  {
    assert forall i :: 0 <= i < n ==> es[..n][i] == es[i];
  }

  /** Adding the last element's decoding to the set of the others' gives the set of all of them. */
  lemma SetAddMembers(es: seq<Json>, init: seq<Json>, acc: seq<Value>, d: Value)
    requires es != [] && init == es[..|es| - 1] && DecodesTo(es, |es| - 1, d)
    requires forall y :: y in acc <==> exists i :: DecodesTo(init, i, y)
    ensures forall y :: y in SetAdd(acc, d) <==> exists i :: DecodesTo(es, i, y)
  {
    DecodesToPrefix(es, |es| - 1);
    forall y | exists i :: DecodesTo(es, i, y) ensures y in SetAdd(acc, d) {
      var i :| DecodesTo(es, i, y);
      if i < |es| - 1 {
        assert DecodesTo(init, i, y);
      }
    }
  }

  /**
   * A decoded HashSet holds each decoded element once, and nothing else: equal
   * decodings collapse into one.
   */
  lemma {:induction false} DecodeElementsSet(parent: Json, es: seq<Json>)
    requires parent.JArr? && es <= parent.elems
    requires DecodeElements(parent, es).Ok?
    ensures NoDuplicates(DecodeElements(parent, es).value)
    ensures forall y :: y in DecodeElements(parent, es).value <==> exists i :: DecodesTo(es, i, y)
    decreases |es|
  {
    if es != [] {
      var init := es[..|es| - 1];
      var x := es[|es| - 1];
      DecodeElementsStep(parent, es);
      DecodeElementsSet(parent, init);
      var acc := DecodeElements(parent, init).value;
      var d := DecodeElement(x).value;
      assert DecodesTo(es, |es| - 1, d);
      SetAddMembers(es, init, acc, d);
    }
  }

  /** Elements that decode to pairwise different values decode to exactly those values, in order. */
  lemma {:induction false} DecodeDistinct(parent: Json, es: seq<Json>, xs: seq<Value>)
    requires parent.JArr? && es <= parent.elems && |es| == |xs|
    requires forall i :: 0 <= i < |es| ==> DecodeElement(es[i]) == Ok(xs[i])
    requires NoDuplicates(xs)
    ensures DecodeElements(parent, es) == Ok(xs)
    decreases |es|
  {
    if es != [] {
      var n := |es| - 1;
      var init, xinit := es[..n], xs[..n];
      assert forall i :: 0 <= i < n ==> init[i] == es[i] && xinit[i] == xs[i];
      assert init <= parent.elems;
      NoDuplicatesSnoc(xs);
      DecodeDistinct(parent, init, xinit);
      DecodeElementsSnoc(parent, es, xinit, xs[n]);
    }
  }

  /** The last element decodes to `d`: the set of the others with `d` added. */
  lemma DecodeElementsSnoc(parent: Json, es: seq<Json>, acc: seq<Value>, d: Value)
    requires parent.JArr? && es <= parent.elems && es != []
    requires DecodeElements(parent, es[..|es| - 1]) == Ok(acc)
    requires DecodeElement(es[|es| - 1]) == Ok(d)
    ensures DecodeElements(parent, es) == Ok(SetAdd(acc, d))
  {
    DecodeElementsStep(parent, es);
  }

  // ---------------------------------------------------------------------------
  // parseObject
  // ---------------------------------------------------------------------------

  /** Field `f` among `fields` matches member `i`'s key, ignoring case. */
  predicate Sets(p: Json, fields: seq<string>, i: nat, f: string)
    requires p.JObj? && i < |p.members|
  {
    f in fields && EqualsIgnoreCase(f, p.members[i].0)
  }

  /** Field `f` is among the first `j` of `fields` and matches `key`, ignoring case. */
  predicate Matches(fields: seq<string>, j: nat, key: string, f: string)
    requires j <= |fields|
  {
    f in fields[..j] && EqualsIgnoreCase(f, key)
  }

  /**
   * One member key over the first `j` fields fails exactly when some field matches
   * `key` and the member does not decode, and then with the member's exception.
   */
  lemma {:induction false} ApplyKeyFailIff(p: Json, fields: seq<string>, key: string,
                                           fs: map<string, Value>, j: nat)
    requires p.JObj? && key in KeySet(p.members) && j <= |fields|
    ensures ApplyKey(p, fields, key, fs, j).Fail? <==>
              MemberValue(p, key).Fail? && exists f :: Matches(fields, j, key, f)
    ensures ApplyKey(p, fields, key, fs, j).Fail? ==> ApplyKey(p, fields, key, fs, j).error == MemberValue(p, key).error
  {
    if j > 0 {
      ApplyKeyFailIff(p, fields, key, fs, j - 1);
      assert fields[..j] == fields[..j - 1] + [fields[j - 1]];
      forall f ensures Matches(fields, j, key, f) <==>
                       Matches(fields, j - 1, key, f) || (f == fields[j - 1] && EqualsIgnoreCase(f, key)) {
      }
      if ApplyKey(p, fields, key, fs, j - 1).Fail? {
        var f :| Matches(fields, j - 1, key, f);
        assert Matches(fields, j, key, f);
      } else if ApplyKey(p, fields, key, fs, j).Fail? {
        assert Matches(fields, j, key, fields[j - 1]);
      }
    }
  }

  /**
   * One member key over the first `j` fields: every field that matches `key`
   * ignoring case gets the decoded member value, and no other field changes.
   */
  lemma {:induction false} ApplyKeyEffect(p: Json, fields: seq<string>, key: string,
                                          fs: map<string, Value>, j: nat)
    requires p.JObj? && key in KeySet(p.members) && j <= |fields|
    requires ApplyKey(p, fields, key, fs, j).Ok?
    ensures (exists f :: Matches(fields, j, key, f)) ==> MemberValue(p, key).Ok?
    ensures var r := ApplyKey(p, fields, key, fs, j).value;
            forall f ::
              (f in r <==> f in fs || Matches(fields, j, key, f)) &&
              (f in r ==> r[f] == if Matches(fields, j, key, f) then MemberValue(p, key).value else fs[f])
  {
    ApplyKeyFailIff(p, fields, key, fs, j);
    if j > 0 {
      ApplyKeyEffect(p, fields, key, fs, j - 1);
      assert fields[..j] == fields[..j - 1] + [fields[j - 1]];
      var r0 := ApplyKey(p, fields, key, fs, j - 1).value;
      var r := ApplyKey(p, fields, key, fs, j).value;
      forall f ensures Matches(fields, j, key, f) <==>
                       Matches(fields, j - 1, key, f) || (f == fields[j - 1] && EqualsIgnoreCase(f, key)) {
      }
    }
  }

  /** A member whose key matches none of the first `j` fields, ignoring case, leaves the instance as it was. */
  lemma {:induction false} UnmatchedKeyIgnored(p: Json, fields: seq<string>, key: string,
                                               fs: map<string, Value>, j: nat)
    requires p.JObj? && key in KeySet(p.members) && j <= |fields|
    requires forall f :: f in fields ==> !EqualsIgnoreCase(f, key)
    ensures ApplyKey(p, fields, key, fs, j) == Ok(fs)
  {
    if j > 0 {
      UnmatchedKeyIgnored(p, fields, key, fs, j - 1);
      assert !EqualsIgnoreCase(fields[j - 1], key);
    }
  }

  /** Member `i` is the last of the first `n` whose key matches field `f`. */
  predicate LastSets(p: Json, fields: seq<string>, i: int, f: string, n: nat)
    requires p.JObj? && n <= |p.members|
  {
    0 <= i < n && Sets(p, fields, i, f) && forall k :: i < k < n ==> !Sets(p, fields, k, f)
  }

  /** No key among the first `n` members matches field `f`. */
  predicate Unset(p: Json, fields: seq<string>, f: string, n: nat)
    requires p.JObj? && n <= |p.members|
  {
    forall i :: 0 <= i < n ==> !Sets(p, fields, i, f)
  }

  /** The step from `n - 1` to `n` members is one `ApplyKey` over all of `fields`. */
  lemma ApplyKeysStep(p: Json, fields: seq<string>, start: map<string, Value>, n: nat)
    requires p.JObj? && 0 < n <= |p.members| && ApplyKeys(p, fields, start, n).Ok?
    ensures ApplyKeys(p, fields, start, n - 1).Ok?
    ensures p.members[n - 1].0 in KeySet(p.members)
    ensures ApplyKeys(p, fields, start, n) ==
            ApplyKey(p, fields, p.members[n - 1].0, ApplyKeys(p, fields, start, n - 1).value, |fields|)
  {
    assert p.members[n - 1].0 in KeySet(p.members);
  }

  /** Member `i` matches some field, ignoring case, and its value does not decode. */
  ghost predicate Breaks(p: Json, fields: seq<string>, i: nat)
    requires p.JObj? && i < |p.members|
  {
    MemberValue(p, p.members[i].0).Fail? && exists f :: Sets(p, fields, i, f)
  }

  /** Member `i` breaks, and no member before it does. */
  ghost predicate FirstBreak(p: Json, fields: seq<string>, i: int)
    requires p.JObj?
  {
    0 <= i < |p.members| && Breaks(p, fields, i) && forall k :: 0 <= k < i ==> !Breaks(p, fields, k)
  }

  lemma FirstBreakUnique(p: Json, fields: seq<string>, i: int, k: int)
    requires p.JObj? && FirstBreak(p, fields, i) && FirstBreak(p, fields, k)
    ensures i == k
  {
    assert !(i < k) && !(k < i);
  }

  /**
   * `parseObject`'s loops over the first `n` members fail exactly when some member
   * that matches a field does not decode, and then with the first such member's
   * exception.
   */
  lemma {:induction false} ApplyKeysFailIff(p: Json, fields: seq<string>, start: map<string, Value>, n: nat)
    requires p.JObj? && n <= |p.members|
    ensures ApplyKeys(p, fields, start, n).Fail? <==> exists i :: 0 <= i < n && Breaks(p, fields, i)
    ensures ApplyKeys(p, fields, start, n).Fail? ==>
              exists i :: i < n && FirstBreak(p, fields, i) &&
                          ApplyKeys(p, fields, start, n).error == MemberValue(p, p.members[i].0).error
  {
    if n > 0 {
      var key := p.members[n - 1].0;
      assert key in KeySet(p.members);
      ApplyKeysFailIff(p, fields, start, n - 1);
      var prefix := ApplyKeys(p, fields, start, n - 1);
      if prefix.Fail? {
        var i :| 0 <= i < n - 1 && Breaks(p, fields, i);
        assert 0 <= i < n && Breaks(p, fields, i);
        var i0 :| i0 < n - 1 && FirstBreak(p, fields, i0) && prefix.error == MemberValue(p, p.members[i0].0).error;
        assert ApplyKeys(p, fields, start, n) == prefix;
      } else {
        assert fields[..|fields|] == fields;
        assert forall f :: Sets(p, fields, n - 1, f) <==> Matches(fields, |fields|, key, f);
        ApplyKeyFailIff(p, fields, key, prefix.value, |fields|);
        assert ApplyKeys(p, fields, start, n) == ApplyKey(p, fields, key, prefix.value, |fields|);
        if ApplyKeys(p, fields, start, n).Fail? {
          var f :| Matches(fields, |fields|, key, f);
          assert Sets(p, fields, n - 1, f);
          assert FirstBreak(p, fields, n - 1);
        }
        if Breaks(p, fields, n - 1) {
          var f :| Sets(p, fields, n - 1, f);
          assert Matches(fields, |fields|, key, f);
        }
        if !Breaks(p, fields, n - 1) {
          forall i | 0 <= i < n ensures !Breaks(p, fields, i) {
            if i < n - 1 {
              assert !(0 <= i < n - 1 && Breaks(p, fields, i));
            }
          }
        }
      }
    }
  }

  /**
   * After `parseObject`'s loops over the first `n` members, the instance has the
   * fields it started with, when it started with all of `fields`.
   */
  lemma {:induction false} ApplyKeysDomain(p: Json, fields: seq<string>, start: map<string, Value>, n: nat)
    requires p.JObj? && n <= |p.members| && ApplyKeys(p, fields, start, n).Ok?
    requires forall f :: f in fields ==> f in start
    ensures forall f :: f in ApplyKeys(p, fields, start, n).value <==> f in start
  {
    if n > 0 {
      ApplyKeysStep(p, fields, start, n);
      ApplyKeysDomain(p, fields, start, n - 1);
      assert fields[..|fields|] == fields;
      ApplyKeyEffect(p, fields, p.members[n - 1].0, ApplyKeys(p, fields, start, n - 1).value, |fields|);
    }
  }

  /** After the first `n` members, a field no key matches still holds its starting value. */
  lemma {:induction false} ApplyKeysUnset(p: Json, fields: seq<string>, start: map<string, Value>, n: nat)
    requires p.JObj? && n <= |p.members| && ApplyKeys(p, fields, start, n).Ok?
    ensures forall f :: f in start && Unset(p, fields, f, n) ==>
                          f in ApplyKeys(p, fields, start, n).value && ApplyKeys(p, fields, start, n).value[f] == start[f]
  {
    if n > 0 {
      ApplyKeysStep(p, fields, start, n);
      ApplyKeysUnset(p, fields, start, n - 1);
      assert fields[..|fields|] == fields;
      var key := p.members[n - 1].0;
      var fs0 := ApplyKeys(p, fields, start, n - 1).value;
      ApplyKeyEffect(p, fields, key, fs0, |fields|);
      var fs := ApplyKeys(p, fields, start, n).value;
      forall f | f in start && Unset(p, fields, f, n)
        ensures f in fs && fs[f] == start[f]
      {
        assert !Sets(p, fields, n - 1, f);
        assert Unset(p, fields, f, n - 1);
        assert !Matches(fields, |fields|, key, f);
      }
    }
  }

  /** After the first `n` members, a matched field holds the decoded value of the last key that matches it. */
  lemma {:induction false} ApplyKeysLastWins(p: Json, fields: seq<string>, start: map<string, Value>, n: nat)
    requires p.JObj? && n <= |p.members| && ApplyKeys(p, fields, start, n).Ok?
    ensures forall i, f :: LastSets(p, fields, i, f, n) ==>
                             f in ApplyKeys(p, fields, start, n).value && MemberValue(p, p.members[i].0).Ok? &&
                             ApplyKeys(p, fields, start, n).value[f] == MemberValue(p, p.members[i].0).value
  {
    if n > 0 {
      ApplyKeysStep(p, fields, start, n);
      ApplyKeysLastWins(p, fields, start, n - 1);
      assert fields[..|fields|] == fields;
      var key := p.members[n - 1].0;
      var fs0 := ApplyKeys(p, fields, start, n - 1).value;
      ApplyKeyEffect(p, fields, key, fs0, |fields|);
      ApplyKeyFailIff(p, fields, key, fs0, |fields|);
      var fs := ApplyKeys(p, fields, start, n).value;
      forall i, f | LastSets(p, fields, i, f, n)
        ensures f in fs && MemberValue(p, p.members[i].0).Ok? && fs[f] == MemberValue(p, p.members[i].0).value
      {
        if i < n - 1 {
          assert !Sets(p, fields, n - 1, f);
          assert !Matches(fields, |fields|, key, f);
          assert LastSets(p, fields, i, f, n - 1);
        } else {
          assert Matches(fields, |fields|, key, f);
        }
      }
    }
  }

  /**
   * `parseObject` on an entity tag. It yields an instance exactly when no member
   * that matches a declared field fails to decode: an instance of `e` with exactly
   * the declared fields. Otherwise the first such member decides: its exception
   * gives null, and a value this model does not decode gives `NotModelled`.
   */
  lemma ParseObjectNullIff(p: Json, e: EntityKind)
    requires p.JObj?
    ensures ParseObject(p, e) == Ok(Null) <==>
              exists i :: FirstBreak(p, DeclaredFields(e), i) && MemberValue(p, p.members[i].0) != Fail(NotModelled)
    ensures ParseObject(p, e).Fail? <==>
              exists i :: FirstBreak(p, DeclaredFields(e), i) && MemberValue(p, p.members[i].0) == Fail(NotModelled)
    ensures ParseObject(p, e).Fail? ==> ParseObject(p, e) == Fail(NotModelled)
    ensures ParseObject(p, e).Ok? && ParseObject(p, e).value.Object? <==>
              forall i :: 0 <= i < |p.members| ==> !Breaks(p, DeclaredFields(e), i)
    ensures ParseObject(p, e).Ok? && ParseObject(p, e).value.Object? ==>
              (ParseObject(p, e).value.kind == e &&
               forall f :: f in ParseObject(p, e).value.fields <==> f in DeclaredFields(e))
  {
    var ds, start, n := DeclaredFields(e), NewInstance(e), |p.members|;
    ApplyKeysFailIff(p, ds, start, n);
    if ApplyKeys(p, ds, start, n).Ok? {
      ApplyKeysDomain(p, ds, start, n);
    } else {
      var i0 :| i0 < n && FirstBreak(p, ds, i0) && ApplyKeys(p, ds, start, n).error == MemberValue(p, p.members[i0].0).error;
      forall k | FirstBreak(p, ds, k) ensures k == i0 {
        FirstBreakUnique(p, ds, k, i0);
      }
    }
  }

  /**
   * The fields of a decoded entity: a declared field no member key matches is
   * null, and a matched one holds the decoded value of the last key that matches it.
   */
  lemma ParseObjectValues(p: Json, e: EntityKind)
    requires p.JObj? && ParseObject(p, e).Ok? && ParseObject(p, e).value.Object?
    ensures forall f :: f in DeclaredFields(e) && Unset(p, DeclaredFields(e), f, |p.members|) ==>
                          f in ParseObject(p, e).value.fields && ParseObject(p, e).value.fields[f] == Null
    ensures forall i, f :: LastSets(p, DeclaredFields(e), i, f, |p.members|) ==>
                             f in ParseObject(p, e).value.fields && MemberValue(p, p.members[i].0).Ok? &&
                             ParseObject(p, e).value.fields[f] == MemberValue(p, p.members[i].0).value
  {
    var ds, start, n := DeclaredFields(e), NewInstance(e), |p.members|;
    ApplyKeysUnset(p, ds, start, n);
    ApplyKeysLastWins(p, ds, start, n);
  }
}
