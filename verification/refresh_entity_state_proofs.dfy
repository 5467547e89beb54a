/** What refreshing an entity's state guarantees, independently of the
    order Go happens to range over the property map in (where that order
    matters, the statement names it). */
module RefreshEntityStateProofs {
  import opened Outcome
  import opened Json
  import opened Cli
  import opened EntityState
  import opened RefreshEntityState

  function KeysOf(order: seq<string>): set<string>
  {
    set k | k in order
  }

  /** The properties among `keys` whose value `sel` accepts, with what it
      makes of them. */
  function Entries<T>(props: map<string, Json>, keys: set<string>, sel: Json -> Option<T>): map<string, T>
  {
    map k | k in keys && k in props && sel(props[k]).Some? :: sel(props[k]).value
  }

  /** Container `m` after the entries `e` have been stored into it: a null
      container stays null as long as nothing is stored. */
  function Extend<T>(m: Option<map<string, T>>, e: map<string, T>): Option<map<string, T>>
  {
    if e == map[] then m else Some(Contents(m) + e)
  }

  predicate ArrayOfKind(props: map<string, Json>, bp: Blueprint, kind: ItemsKind, k: string)
    requires k in props
  {
    props[k].JArray? && DeclaredItemsKind(bp, k) == kind
  }

  /** The last key in `order` holding a list declared with element type
      `kind`: the one whose decoding is left in the item map of that kind. */
  function LastArrayOfKind(order: seq<string>, props: map<string, Json>, bp: Blueprint, kind: ItemsKind): (r: Option<string>)
    requires forall k :: k in order ==> k in props
    ensures r.None? <==> forall k :: k in order ==> !ArrayOfKind(props, bp, kind, k)
    ensures r.Some? ==>
      exists i :: 0 <= i < |order| && order[i] == r.value && ArrayOfKind(props, bp, kind, r.value)
        && forall j :: i < j < |order| ==> !ArrayOfKind(props, bp, kind, order[j])
    decreases |order|
  {
    if |order| == 0 then None
    else
      match LastArrayOfKind(order[1..], props, bp, kind)
      case Some(k) =>
        ghost var i :| 0 <= i < |order[1..]| && order[1..][i] == k && ArrayOfKind(props, bp, kind, k)
          && forall j :: i < j < |order[1..]| ==> !ArrayOfKind(props, bp, kind, order[1..][j]);
        assert order[i + 1] == k;
        Some(k)
      case None =>
        if ArrayOfKind(props, bp, kind, order[0]) then Some(order[0]) else None
  }

  /** The item map `slot` of one kind after a run of the property loop
      whose last list of that kind is `last`: that list's decoding, or
      `base` when the run decoded none. */
  predicate SlotAfter<T(==)>(slot: Option<map<string, seq<T>>>, base: Option<map<string, seq<T>>>, last: Option<string>, props: map<string, Json>, sel: Json -> Option<T>)
  {
    match last
    case Some(k) => k in props && props[k].JArray? && SlotHolds(slot, k, props[k].items, sel)
    case None => slot == base
  }

  /** The item maps after a run of the property loop: the map of each kind
      is the decoding of the last list of that kind, or what it was before
      when the run decoded none. */
  predicate SlotsAfter(ap: ArrayPropsModel, base: ArrayPropsModel, order: seq<string>, props: map<string, Json>, bp: Blueprint, encode: Encoder)
    requires forall k :: k in order ==> k in props
  {
    && SlotAfter(ap.stringItems, base.stringItems, LastArrayOfKind(order, props, bp, StringKind), props, StringOf)
    && SlotAfter(ap.numberItems, base.numberItems, LastArrayOfKind(order, props, bp, NumberKind), props, NumberOf)
    && SlotAfter(ap.booleanItems, base.booleanItems, LastArrayOfKind(order, props, bp, BooleanKind), props, BoolOf)
    && SlotAfter(ap.objectItems, base.objectItems, LastArrayOfKind(order, props, bp, ObjectKind), props, EncodeEach(encode))
  }

  lemma EntriesUnion<T>(props: map<string, Json>, a: set<string>, b: set<string>, sel: Json -> Option<T>)
    ensures Entries(props, a + b, sel) == Entries(props, a, sel) + Entries(props, b, sel)
  {
  }

  lemma ExtendTwice<T>(m: Option<map<string, T>>, e1: map<string, T>, e2: map<string, T>)
    ensures Extend(Extend(m, e1), e2) == Extend(m, e1 + e2)
  {
    if e1 == map[] {
      assert e1 + e2 == e2;
    } else if e2 == map[] {
      assert e1 + e2 == e1;
    } else {
      var k :| k in e2;
      assert k in e1 + e2;
      assert Contents(m) + e1 + e2 == Contents(m) + (e1 + e2);
    }
  }

  lemma StoreOne<T>(m: Option<map<string, T>>, k: string, v: T)
    ensures Extend(m, map[k := v]) == Some(Contents(m)[k := v])
  {
    assert k in map[k := v];
    assert Contents(m) + map[k := v] == Contents(m)[k := v];
  }

  /** Storing the entry `sel` makes of property `k`, if any. */
  lemma ExtendOne<T>(m: Option<map<string, T>>, props: map<string, Json>, k: string, sel: Json -> Option<T>)
    requires k in props
    ensures Extend(m, Entries(props, {k}, sel))
      == if sel(props[k]).Some? then Some(Contents(m)[k := sel(props[k]).value]) else m
  {
    if sel(props[k]).Some? {
      assert Entries(props, {k}, sel) == map[k := sel(props[k]).value];
      StoreOne(m, k, sel(props[k]).value);
    } else {
      assert Entries(props, {k}, sel) == map[];
    }
  }

  /** One iteration stores property `k` into the scalar container of its
      shape and into no other. */
  lemma RefreshPropertyScalars(p: EntityPropertiesModel, props: map<string, Json>, k: string, bp: Blueprint, encode: Encoder)
    requires k in props
    requires RefreshProperty(p, k, props[k], bp, encode).Success?
    ensures var r := RefreshProperty(p, k, props[k], bp, encode).value;
      && r.stringProps == Extend(p.stringProps, Entries(props, {k}, StringOf))
      && r.numberProps == Extend(p.numberProps, Entries(props, {k}, NumberOf))
      && r.booleanProps == Extend(p.booleanProps, Entries(props, {k}, BoolOf))
      && r.objectProps == Extend(p.objectProps, Entries(props, {k}, ObjectTextOf(encode)))
  {
    ExtendOne(p.stringProps, props, k, StringOf);
    ExtendOne(p.numberProps, props, k, NumberOf);
    ExtendOne(p.booleanProps, props, k, BoolOf);
    ExtendOne(p.objectProps, props, k, ObjectTextOf(encode));
    if props[k].JArray? {
      var r := RefreshArray(p, k, props[k].items, bp, encode).value;
      assert r.(arrayProps := p.arrayProps) == p;
    }
  }

  /** The property loop panics exactly when some list it meets holds an
      element of another type than its declared one. */
  lemma {:induction false} ApplySucceedsIff(p: EntityPropertiesModel, order: seq<string>, props: map<string, Json>, bp: Blueprint, encode: Encoder)
    requires forall k :: k in order ==> k in props
    ensures ApplyProperties(p, order, props, bp, encode).Success? <==>
      forall k :: k in order && props[k].JArray? ==> ItemsFit(DeclaredItemsKind(bp, k), props[k].items)
    decreases |order|
  {
    if |order| > 0 {
      var k := order[0];
      assert forall k' :: k' in order <==> k' == k || k' in order[1..];
      var step := RefreshProperty(p, k, props[k], bp, encode);
      if step.Success? {
        ApplySucceedsIff(step.value, order[1..], props, bp, encode);
      }
    }
  }

  /** The scalar containers after the loop: each gains exactly the
      properties of its shape among those the loop visits. */
  lemma {:induction false} ApplyScalars(p: EntityPropertiesModel, order: seq<string>, props: map<string, Json>, bp: Blueprint, encode: Encoder)
    requires forall k :: k in order ==> k in props
    requires ApplyProperties(p, order, props, bp, encode).Success?
    ensures var r := ApplyProperties(p, order, props, bp, encode).value;
      && r.stringProps == Extend(p.stringProps, Entries(props, KeysOf(order), StringOf))
      && r.numberProps == Extend(p.numberProps, Entries(props, KeysOf(order), NumberOf))
      && r.booleanProps == Extend(p.booleanProps, Entries(props, KeysOf(order), BoolOf))
      && r.objectProps == Extend(p.objectProps, Entries(props, KeysOf(order), ObjectTextOf(encode)))
    decreases |order|
  {
    if |order| == 0 {
      assert KeysOf(order) == {};
      assert Entries(props, {}, StringOf) == map[];
      assert Entries(props, {}, NumberOf) == map[];
      assert Entries(props, {}, BoolOf) == map[];
      assert Entries(props, {}, ObjectTextOf(encode)) == map[];
    } else {
      var k := order[0];
      var rest := order[1..];
      assert KeysOf(order) == {k} + KeysOf(rest);
      var p1 := RefreshProperty(p, k, props[k], bp, encode).value;
      RefreshPropertyScalars(p, props, k, bp, encode);
      ApplyScalars(p1, rest, props, bp, encode);
      EntriesUnion(props, {k}, KeysOf(rest), StringOf);
      EntriesUnion(props, {k}, KeysOf(rest), NumberOf);
      EntriesUnion(props, {k}, KeysOf(rest), BoolOf);
      EntriesUnion(props, {k}, KeysOf(rest), ObjectTextOf(encode));
      ExtendTwice(p.stringProps, Entries(props, {k}, StringOf), Entries(props, KeysOf(rest), StringOf));
      ExtendTwice(p.numberProps, Entries(props, {k}, NumberOf), Entries(props, KeysOf(rest), NumberOf));
      ExtendTwice(p.booleanProps, Entries(props, {k}, BoolOf), Entries(props, KeysOf(rest), BoolOf));
      ExtendTwice(p.objectProps, Entries(props, {k}, ObjectTextOf(encode)), Entries(props, KeysOf(rest), ObjectTextOf(encode)));
    }
  }

  /** One loop step, for the item map of one kind: if the rest of the run
      leaves `slot` as `SlotsAfter` describes from `mid`, and the step took
      the map from `base` to `mid`, then the whole run leaves it as
      described from `base`. */
  lemma SlotStep<T>(order: seq<string>, props: map<string, Json>, bp: Blueprint, kind: ItemsKind,
                        slot: Option<map<string, seq<T>>>, mid: Option<map<string, seq<T>>>, base: Option<map<string, seq<T>>>,
                        sel: Json -> Option<T>)
    requires |order| > 0 && forall k :: k in order ==> k in props
    requires SlotAfter(slot, mid, LastArrayOfKind(order[1..], props, bp, kind), props, sel)
    requires ArrayOfKind(props, bp, kind, order[0]) ==> SlotHolds(mid, order[0], props[order[0]].items, sel)
    requires !ArrayOfKind(props, bp, kind, order[0]) ==> mid == base
    ensures SlotAfter(slot, base, LastArrayOfKind(order, props, bp, kind), props, sel)
  {
  }

  /** One iteration's effect on the item maps: `ArrayProps` is created by
      a list, and each kind's map is replaced by a list of that kind and by
      nothing else. */
  lemma ArraysStep(p: EntityPropertiesModel, props: map<string, Json>, k: string, bp: Blueprint, encode: Encoder)
    requires k in props
    requires RefreshProperty(p, k, props[k], bp, encode).Success?
    ensures var p1 := RefreshProperty(p, k, props[k], bp, encode).value;
      var mid := ArrayPropsOrNull(p1.arrayProps);
      var base := ArrayPropsOrNull(p.arrayProps);
      && (p1.arrayProps.Some? <==> p.arrayProps.Some? || props[k].JArray?)
      && (if ArrayOfKind(props, bp, StringKind, k) then SlotHolds(mid.stringItems, k, props[k].items, StringOf)
          else mid.stringItems == base.stringItems)
      && (if ArrayOfKind(props, bp, NumberKind, k) then SlotHolds(mid.numberItems, k, props[k].items, NumberOf)
          else mid.numberItems == base.numberItems)
      && (if ArrayOfKind(props, bp, BooleanKind, k) then SlotHolds(mid.booleanItems, k, props[k].items, BoolOf)
          else mid.booleanItems == base.booleanItems)
      && (if ArrayOfKind(props, bp, ObjectKind, k) then SlotHolds(mid.objectItems, k, props[k].items, EncodeEach(encode))
          else mid.objectItems == base.objectItems)
  {
  }

  /** After the loop `ArrayProps` exists exactly when it did before or some
      visited property is a list. */
  lemma {:induction false} ApplyArraysExist(p: EntityPropertiesModel, order: seq<string>, props: map<string, Json>, bp: Blueprint, encode: Encoder)
    requires forall k :: k in order ==> k in props
    requires ApplyProperties(p, order, props, bp, encode).Success?
    ensures var r := ApplyProperties(p, order, props, bp, encode).value;
      r.arrayProps.Some? <==> p.arrayProps.Some? || exists k :: k in order && props[k].JArray?
    decreases |order|
  {
    if |order| > 0 {
      var k := order[0];
      var rest := order[1..];
      assert forall k' :: k' in order <==> k' == k || k' in rest;
      var p1 := RefreshProperty(p, k, props[k], bp, encode).value;
      ApplyArraysExist(p1, rest, props, bp, encode);
      ArraysStep(p, props, k, bp, encode);
    }
  }

  /** After the loop the map of each kind holds only the last list of that
      kind the loop decoded, or is as it was. */
  lemma {:induction false} ApplyArraysSlots(p: EntityPropertiesModel, order: seq<string>, props: map<string, Json>, bp: Blueprint, encode: Encoder)
    requires forall k :: k in order ==> k in props
    requires ApplyProperties(p, order, props, bp, encode).Success?
    ensures var r := ApplyProperties(p, order, props, bp, encode).value;
      r.arrayProps.Some? ==> SlotsAfter(r.arrayProps.value, ArrayPropsOrNull(p.arrayProps), order, props, bp, encode)
    decreases |order|
  {
    var r := ApplyProperties(p, order, props, bp, encode).value;
    if |order| > 0 && r.arrayProps.Some? {
      var k := order[0];
      var p1 := RefreshProperty(p, k, props[k], bp, encode).value;
      ApplyArraysSlots(p1, order[1..], props, bp, encode);
      ArraysStep(p, props, k, bp, encode);
      var ap := r.arrayProps.value;
      var mid := ArrayPropsOrNull(p1.arrayProps);
      var base := ArrayPropsOrNull(p.arrayProps);
      SlotStep(order, props, bp, StringKind, ap.stringItems, mid.stringItems, base.stringItems, StringOf);
      SlotStep(order, props, bp, NumberKind, ap.numberItems, mid.numberItems, base.numberItems, NumberOf);
      SlotStep(order, props, bp, BooleanKind, ap.booleanItems, mid.booleanItems, base.booleanItems, BoolOf);
      SlotStep(order, props, bp, ObjectKind, ap.objectItems, mid.objectItems, base.objectItems, EncodeEach(encode));
    }
  }

  /** The item maps after the loop: `ArrayProps` exists once any list is
      met, and the map of each kind holds only the last list of that kind
      the loop decoded. */
  lemma ApplyArrays(p: EntityPropertiesModel, order: seq<string>, props: map<string, Json>, bp: Blueprint, encode: Encoder)
    requires forall k :: k in order ==> k in props
    requires ApplyProperties(p, order, props, bp, encode).Success?
    ensures var r := ApplyProperties(p, order, props, bp, encode).value;
      && (r.arrayProps.Some? <==> p.arrayProps.Some? || exists k :: k in order && props[k].JArray?)
      && (r.arrayProps.Some? ==>
            SlotsAfter(r.arrayProps.value, ArrayPropsOrNull(p.arrayProps), order, props, bp, encode))
  {
    ApplyArraysExist(p, order, props, bp, encode);
    ApplyArraysSlots(p, order, props, bp, encode);
  }

  /** `refreshPropertiesEntityState`, all of it: when it succeeds, and what
      each container holds afterwards. */
  lemma RefreshPropertiesContents(state: EntityModel, e: Entity, bp: Blueprint, order: seq<string>, encode: Encoder)
    requires IsIterationOrder(order, e.properties)
    ensures var r := RefreshProperties(state, e, bp, order, encode);
      && (r.Success? <==>
            forall k :: k in e.properties && e.properties[k].JArray? ==>
              ItemsFit(DeclaredItemsKind(bp, k), e.properties[k].items))
      && (r.Success? ==>
            var pr := r.value.properties.value;
            && pr.stringProps == Extend(None, Entries(e.properties, e.properties.Keys, StringOf))
            && pr.numberProps == Extend(None, Entries(e.properties, e.properties.Keys, NumberOf))
            && pr.booleanProps == Extend(None, Entries(e.properties, e.properties.Keys, BoolOf))
            && pr.objectProps == Extend(None, Entries(e.properties, e.properties.Keys, ObjectTextOf(encode)))
            && (pr.arrayProps.Some? <==> exists k :: k in e.properties && e.properties[k].JArray?)
            && (pr.arrayProps.Some? ==>
                  SlotsAfter(pr.arrayProps.value, ArrayPropsOrNull(None), order, e.properties, bp, encode)))
  {
    ApplySucceedsIff(NoProperties, order, e.properties, bp, encode);
    if RefreshProperties(state, e, bp, order, encode).Success? {
      assert KeysOf(order) == e.properties.Keys;
      ApplyScalars(NoProperties, order, e.properties, bp, encode);
      ApplyArrays(NoProperties, order, e.properties, bp, encode);
    }
  }

  /** The item-map part of `RefreshPropertiesContents`, on its own. */
  lemma RefreshPropertiesSlots(state: EntityModel, e: Entity, bp: Blueprint, order: seq<string>, encode: Encoder)
    requires IsIterationOrder(order, e.properties)
    requires RefreshProperties(state, e, bp, order, encode).Success?
    ensures var pr := RefreshProperties(state, e, bp, order, encode).value.properties.value;
      && (pr.arrayProps.Some? <==> exists k :: k in e.properties && e.properties[k].JArray?)
      && (pr.arrayProps.Some? ==>
            SlotsAfter(pr.arrayProps.value, ArrayPropsOrNull(None), order, e.properties, bp, encode))
  {
    ApplyArrays(NoProperties, order, e.properties, bp, encode);
  }

  /** A container built from the entries `sel` accepts holds exactly those. */
  lemma GatheredContainer<T>(c: Option<map<string, T>>, props: map<string, Json>, sel: Json -> Option<T>)
    requires c == Extend(None, Entries(props, props.Keys, sel))
    ensures forall k :: k in Contents(c) <==> k in props && sel(props[k]).Some?
    ensures forall k :: k in Contents(c) ==> sel(props[k]) == Some(c.value[k])
    ensures c.Some? <==> exists k :: k in props && sel(props[k]).Some?
  {
  }

  /** An item map of kind `kind` left by the loop holds list property `k`
      exactly when `k` is declared of that kind, is non-empty and is the
      last list of that kind; it then holds its decoding. */
  lemma SlotMembership<T>(slot: Option<map<string, seq<T>>>, order: seq<string>, props: map<string, Json>, bp: Blueprint, kind: ItemsKind, k: string, sel: Json -> Option<T>)
    requires forall k' :: k' in order ==> k' in props
    requires SlotAfter(slot, None, LastArrayOfKind(order, props, bp, kind), props, sel)
    requires k in props && props[k].JArray?
    ensures var kept := |props[k].items| > 0 && LastArrayOfKind(order, props, bp, kind) == Some(k);
      && (k in Contents(slot) <==> DeclaredItemsKind(bp, k) == kind && kept)
      && (DeclaredItemsKind(bp, k) == kind && kept ==> SlotHolds(slot, k, props[k].items, sel))
  {
  }

  /** An item map left by the loop holds no key but the last list of its
      kind, and that key is a list property. */
  lemma SlotKeys<T>(slot: Option<map<string, seq<T>>>, last: Option<string>, props: map<string, Json>, k: string, sel: Json -> Option<T>)
    requires SlotAfter(slot, None, last, props, sel)
    ensures k in Contents(slot) ==> k in props && props[k].JArray?
  {
  }

  /** Dispatch by shape: after a refresh each scalar property sits in the
      container of its shape, and only there, with its value; a null sits
      in none; a scalar container exists exactly when a property of its
      shape does. */
  lemma PropertyDispatch(state: EntityModel, e: Entity, bp: Blueprint, order: seq<string>, encode: Encoder)
    requires IsIterationOrder(order, e.properties)
    requires RefreshProperties(state, e, bp, order, encode).Success?
    ensures var pr := RefreshProperties(state, e, bp, order, encode).value.properties.value;
      && (forall k :: k in Contents(pr.numberProps) <==> k in e.properties && e.properties[k].JNumber?)
      && (forall k :: k in Contents(pr.stringProps) <==> k in e.properties && e.properties[k].JString?)
      && (forall k :: k in Contents(pr.booleanProps) <==> k in e.properties && e.properties[k].JBool?)
      && (forall k :: k in Contents(pr.objectProps) <==> k in e.properties && e.properties[k].JObject?)
      && (forall k :: k in Contents(pr.numberProps) ==> e.properties[k] == JNumber(pr.numberProps.value[k]))
      && (forall k :: k in Contents(pr.stringProps) ==> e.properties[k] == JString(pr.stringProps.value[k]))
      && (forall k :: k in Contents(pr.booleanProps) ==> e.properties[k] == JBool(pr.booleanProps.value[k]))
      && (forall k :: k in Contents(pr.objectProps) ==> pr.objectProps.value[k] == encode(e.properties[k]))
      && (pr.numberProps.Some? <==> exists k :: k in e.properties && e.properties[k].JNumber?)
      && (pr.stringProps.Some? <==> exists k :: k in e.properties && e.properties[k].JString?)
      && (pr.booleanProps.Some? <==> exists k :: k in e.properties && e.properties[k].JBool?)
      && (pr.objectProps.Some? <==> exists k :: k in e.properties && e.properties[k].JObject?)
  {
    RefreshPropertiesContents(state, e, bp, order, encode);
    var pr := RefreshProperties(state, e, bp, order, encode).value.properties.value;
    GatheredContainer(pr.numberProps, e.properties, NumberOf);
    GatheredContainer(pr.stringProps, e.properties, StringOf);
    GatheredContainer(pr.booleanProps, e.properties, BoolOf);
    GatheredContainer(pr.objectProps, e.properties, ObjectTextOf(encode));
  }

  /** Where a list property ends up: in the item map of its declared kind,
      decoded in order, exactly when it is non-empty and the last list of
      that kind the loop met; an earlier list of the same kind is replaced,
      and a list of unknown kind is in no item map. */
  lemma ArrayPlacement(state: EntityModel, e: Entity, bp: Blueprint, order: seq<string>, encode: Encoder, k: string)
    requires IsIterationOrder(order, e.properties)
    requires RefreshProperties(state, e, bp, order, encode).Success?
    requires k in e.properties && e.properties[k].JArray?
    ensures var pr := RefreshProperties(state, e, bp, order, encode).value.properties.value;
      var kind := DeclaredItemsKind(bp, k);
      var items := e.properties[k].items;
      var kept := |items| > 0 && LastArrayOfKind(order, e.properties, bp, kind) == Some(k);
      && pr.arrayProps.Some?
      && (k in Contents(pr.arrayProps.value.stringItems) <==> kind == StringKind && kept)
      && (k in Contents(pr.arrayProps.value.numberItems) <==> kind == NumberKind && kept)
      && (k in Contents(pr.arrayProps.value.booleanItems) <==> kind == BooleanKind && kept)
      && (k in Contents(pr.arrayProps.value.objectItems) <==> kind == ObjectKind && kept)
      && (kind == StringKind && kept ==> SlotHolds(pr.arrayProps.value.stringItems, k, items, StringOf))
      && (kind == NumberKind && kept ==> SlotHolds(pr.arrayProps.value.numberItems, k, items, NumberOf))
      && (kind == BooleanKind && kept ==> SlotHolds(pr.arrayProps.value.booleanItems, k, items, BoolOf))
      && (kind == ObjectKind && kept ==> SlotHolds(pr.arrayProps.value.objectItems, k, items, EncodeEach(encode)))
  {
    RefreshPropertiesSlots(state, e, bp, order, encode);
    var props := e.properties;
    assert k in order;
    var pr := RefreshProperties(state, e, bp, order, encode).value.properties.value;
    assert pr.arrayProps.Some?;
    var ap := pr.arrayProps.value;
    var items := props[k].items;
    var base := ArrayPropsOrNull(None);
    assert SlotsAfter(ap, base, order, props, bp, encode);
    SlotMembership(ap.stringItems, order, props, bp, StringKind, k, StringOf);
    SlotMembership(ap.numberItems, order, props, bp, NumberKind, k, NumberOf);
    SlotMembership(ap.booleanItems, order, props, bp, BooleanKind, k, BoolOf);
    SlotMembership(ap.objectItems, order, props, bp, ObjectKind, k, EncodeEach(encode));
  }

  /** The item maps hold list properties only: no scalar or null value is
      ever stored there. */
  lemma ItemMapsHoldOnlyLists(state: EntityModel, e: Entity, bp: Blueprint, order: seq<string>, encode: Encoder, k: string)
    requires IsIterationOrder(order, e.properties)
    requires RefreshProperties(state, e, bp, order, encode).Success?
    ensures var pr := RefreshProperties(state, e, bp, order, encode).value.properties.value;
      pr.arrayProps.Some? ==>
        var ap := pr.arrayProps.value;
        (k in Contents(ap.stringItems) || k in Contents(ap.numberItems)
          || k in Contents(ap.booleanItems) || k in Contents(ap.objectItems))
        ==> k in e.properties && e.properties[k].JArray?
  {
    RefreshPropertiesSlots(state, e, bp, order, encode);
    var props := e.properties;
    var pr := RefreshProperties(state, e, bp, order, encode).value.properties.value;
    if pr.arrayProps.Some? {
      var ap := pr.arrayProps.value;
      var base := ArrayPropsOrNull(None);
      assert SlotsAfter(ap, base, order, props, bp, encode);
      SlotKeys(ap.stringItems, LastArrayOfKind(order, props, bp, StringKind), props, k, StringOf);
      SlotKeys(ap.numberItems, LastArrayOfKind(order, props, bp, NumberKind), props, k, NumberOf);
      SlotKeys(ap.booleanItems, LastArrayOfKind(order, props, bp, BooleanKind), props, k, BoolOf);
      SlotKeys(ap.objectItems, LastArrayOfKind(order, props, bp, ObjectKind), props, k, EncodeEach(encode));
    }
  }

  /** `refreshEntityState` panics exactly when some list property holds an
      element of another type than its declared one; it never returns an
      error otherwise. */
  lemma RefreshEntitySucceedsIff(state: EntityModel, e: Entity, bp: Blueprint, propertyOrder: seq<string>, relationOrder: seq<string>, encode: Encoder)
    requires IsIterationOrder(propertyOrder, e.properties)
    requires IsIterationOrder(relationOrder, e.relations)
    ensures RefreshEntity(state, e, bp, propertyOrder, relationOrder, encode).Success? <==>
      forall k :: k in e.properties && e.properties[k].JArray? ==>
        ItemsFit(DeclaredItemsKind(bp, k), e.properties[k].items)
  {
    var copied := state.(
      id := e.identifier,
      identifier := e.identifier,
      blueprint := bp.identifier,
      title := e.title,
      createdAt := e.createdAt,
      createdBy := e.createdBy,
      updatedAt := e.updatedAt,
      updatedBy := e.updatedBy);
    var withTeams := if |e.team| != 0 then copied.(teams := e.team) else copied;
    RefreshPropertiesContents(withTeams, e, bp, propertyOrder, encode);
  }

  /** The sort as written and the intended sort agree on single relations;
      they differ only in that the written one never records a list. */
  lemma SortRelationsAgreeOnSingles(order: seq<string>, relations: map<string, Json>)
    requires forall id :: id in order ==> id in relations
    ensures SortRelations(order, relations)
      == SortRelationsIntended(order, relations).(manyRelations := map[])
  {
  }

  /** The input that shows the gap: a relation holding a list of
      identifiers is dropped as written, and is a many relation as
      intended. */
  lemma ListRelationDropped()
    ensures var relations := map["depends_on" := JArray([JString("svc-2"), JString("svc-3")])];
      && "depends_on" !in SortRelations(["depends_on"], relations).manyRelations
      && "depends_on" !in SortRelations(["depends_on"], relations).singleRelation
      && SortRelationsIntended(["depends_on"], relations).manyRelations["depends_on"] == ["svc-2", "svc-3"]
  {
  }
}
