/** Refreshing an entity's Terraform state from the record the API returned
    (port/entity/refreshEntityState.go). Each operation takes the old state
    and returns the new one.

    Go ranges over a map in an unspecified order, and the order is visible
    here (an array property replaces the whole item map of its kind), so the
    refresh operations take that order as an argument: a duplicate-free
    listing of the map's keys.

    An element whose shape differs from the declared item type makes the
    source's unchecked type assertion panic; the model returns that panic as
    `Failure(ItemTypeMismatch(..))`. */
module RefreshEntityState {
  import opened Outcome
  import opened Json
  import opened Cli
  import opened EntityState

  /** The element type an array property declares in its blueprint. */
  datatype ItemsKind = StringKind | NumberKind | BooleanKind | ObjectKind | UnknownKind

  /** A run-time panic of an unchecked type assertion on element `index`
      of array property `property`. */
  datatype Panic = ItemTypeMismatch(property: string, index: nat)

  /** `order` lists every key of `m` exactly once. */
  predicate IsIterationOrder<V>(order: seq<string>, m: map<string, V>)
  {
    && (forall k :: k in order ==> k in m)
    && (forall k :: k in m ==> k in order)
    && (forall i, j :: 0 <= i < j < |order| ==> order[i] != order[j])
  }

  /** `blueprint.Schema.Properties[k].Items["type"]`: a property or key the
      schema lacks reads as the empty string, which names no kind. */
  function DeclaredItemsKind(bp: Blueprint, k: string): ItemsKind
  {
    var t :=
      if k in bp.schemaProperties && "type" in bp.schemaProperties[k].items
      then bp.schemaProperties[k].items["type"] else "";
    if t == "string" then StringKind
    else if t == "number" then NumberKind
    else if t == "boolean" then BooleanKind
    else if t == "object" then ObjectKind
    else UnknownKind
  }

  /** Whether element `j` survives the type assertion for `kind`; object
      elements are encoded whatever their shape. */
  predicate ItemFits(kind: ItemsKind, j: Json)
  {
    match kind
    case StringKind => j.JString?
    case NumberKind => j.JNumber?
    case BooleanKind => j.JBool?
    case _ => true
  }

  predicate ItemsFit(kind: ItemsKind, items: seq<Json>)
  {
    forall i :: 0 <= i < |items| ==> ItemFits(kind, items[i])
  }

  /** The item maps as they are before any array property of a kind is
      decoded: the existing ones, or four null maps. */
  function ArrayPropsOrNull(ap: Option<ArrayPropsModel>): ArrayPropsModel
  {
    if ap.Some? then ap.value else ArrayPropsModel(None, None, None, None)
  }

  /** The per-kind map built for property `k`: the loop only assigns
      `mapItems[k]` when it appends an element. */
  function ItemMap<T>(k: string, xs: seq<T>): map<string, seq<T>>
  {
    if |xs| == 0 then map[] else map[k := xs]
  }

  /** Converts every element with `sel`, in order, stopping at the first
      element `sel` rejects and reporting its index. */
  function Collect<T(==)>(items: seq<Json>, sel: Json -> Option<T>): (r: Result<seq<T>, nat>)
    ensures r.Success? <==> forall i :: 0 <= i < |items| ==> sel(items[i]).Some?
    ensures r.Success? ==> |r.value| == |items|
    ensures r.Success? ==> forall i :: 0 <= i < |items| ==> sel(items[i]) == Some(r.value[i])
    ensures r.Failure? ==> r.error < |items| && sel(items[r.error]).None?
    ensures r.Failure? ==> forall i :: 0 <= i < r.error ==> sel(items[i]).Some?
  {
    if |items| == 0 then Success([])
    else
      match sel(items[0])
      case None => Failure(0)
      case Some(x) =>
        match Collect(items[1..], sel)
        case Failure(i) => Failure(i + 1)
        case Success(xs) => Success([x] + xs)
  }

  /** Converts the elements of array property `k`, panicking at the first
      element that is not of the asserted type. */
  function DecodeItems<T(==)>(k: string, items: seq<Json>, sel: Json -> Option<T>): (r: Result<seq<T>, Panic>)
  {
    match Collect(items, sel)
    case Success(xs) => Success(xs)
    case Failure(i) => Failure(ItemTypeMismatch(k, i))
  }

  /** `slot` is the item map decoding `items` for property `k` produces: it
      holds `k` alone (nothing when the list is empty), mapped to the
      converted elements in their order. */
  predicate SlotHolds<T(==)>(slot: Option<map<string, seq<T>>>, k: string, items: seq<Json>, sel: Json -> Option<T>)
  {
    && slot.Some?
    && slot.value.Keys == (if |items| == 0 then {} else {k})
    && (k in slot.value ==>
          && |slot.value[k]| == |items|
          && forall i :: 0 <= i < |items| ==> sel(items[i]) == Some(slot.value[k][i]))
  }

  /** `refreshArrayEntityState`: decodes list value `items` of property `k`
      by the blueprint's declared item type, replacing the item map of that
      type. */
  function RefreshArray(p: EntityPropertiesModel, k: string, items: seq<Json>, bp: Blueprint, encode: Encoder)
    : (r: Result<EntityPropertiesModel, Panic>)
    ensures r.Success? <==> ItemsFit(DeclaredItemsKind(bp, k), items)
    ensures r.Failure? ==>
      && r.error.property == k
      && r.error.index < |items|
      && !ItemFits(DeclaredItemsKind(bp, k), items[r.error.index])
      && forall i :: 0 <= i < r.error.index ==> ItemFits(DeclaredItemsKind(bp, k), items[i])
    ensures r.Success? ==> r.value.arrayProps.Some? && r.value.(arrayProps := p.arrayProps) == p
    ensures r.Success? ==>
      var kind := DeclaredItemsKind(bp, k);
      var base := ArrayPropsOrNull(p.arrayProps);
      var ap := r.value.arrayProps.value;
      && (if kind == StringKind then SlotHolds(ap.stringItems, k, items, StringOf)
          else ap.stringItems == base.stringItems)
      && (if kind == NumberKind then SlotHolds(ap.numberItems, k, items, NumberOf)
          else ap.numberItems == base.numberItems)
      && (if kind == BooleanKind then SlotHolds(ap.booleanItems, k, items, BoolOf)
          else ap.booleanItems == base.booleanItems)
      && (if kind == ObjectKind then SlotHolds(ap.objectItems, k, items, EncodeEach(encode))
          else ap.objectItems == base.objectItems)
  {
    var ap := ArrayPropsOrNull(p.arrayProps);
    match DeclaredItemsKind(bp, k)
    case StringKind =>
      var xs :- DecodeItems(k, items, StringOf);
      Success(p.(arrayProps := Some(ap.(stringItems := Some(ItemMap(k, xs))))))
    case NumberKind =>
      var xs :- DecodeItems(k, items, NumberOf);
      Success(p.(arrayProps := Some(ap.(numberItems := Some(ItemMap(k, xs))))))
    case BooleanKind =>
      var xs :- DecodeItems(k, items, BoolOf);
      Success(p.(arrayProps := Some(ap.(booleanItems := Some(ItemMap(k, xs))))))
    case ObjectKind =>
      var xs := seq(|items|, i requires 0 <= i < |items| => encode(items[i]));
      Success(p.(arrayProps := Some(ap.(objectItems := Some(ItemMap(k, xs))))))
    case UnknownKind =>
      Success(p.(arrayProps := Some(ap)))
  }

  /** One iteration of the type switch in `refreshPropertiesEntityState`:
      property `k` with value `v` goes to the container of its shape; a null
      value matches no case. */
  function RefreshProperty(p: EntityPropertiesModel, k: string, v: Json, bp: Blueprint, encode: Encoder)
    : (r: Result<EntityPropertiesModel, Panic>)
    ensures r.Failure? ==> v.JArray?
    ensures !v.JArray? ==> r.Success? && r.value.arrayProps == p.arrayProps
  {
    match v
    case JNull => Success(p)
    case JNumber(n) => Success(p.(numberProps := Some(Contents(p.numberProps)[k := n])))
    case JString(s) => Success(p.(stringProps := Some(Contents(p.stringProps)[k := s])))
    case JBool(b) => Success(p.(booleanProps := Some(Contents(p.booleanProps)[k := b])))
    case JArray(items) => RefreshArray(p, k, items, bp, encode)
    case JObject(_) => Success(p.(objectProps := Some(Contents(p.objectProps)[k := encode(v)])))
  }

  /** The loop of `refreshPropertiesEntityState` over the keys in `order`,
      starting from properties `p`. */
  function ApplyProperties(p: EntityPropertiesModel, order: seq<string>, props: map<string, Json>, bp: Blueprint, encode: Encoder)
    : (r: Result<EntityPropertiesModel, Panic>)
    requires forall k :: k in order ==> k in props
    ensures r.Failure? ==> r.error.property in order && props[r.error.property].JArray?
    decreases |order|
  {
    if |order| == 0 then Success(p)
    else
      var p' :- RefreshProperty(p, order[0], props[order[0]], bp, encode);
      ApplyProperties(p', order[1..], props, bp, encode)
  }

  /** `refreshPropertiesEntityState`: rebuilds the properties from scratch,
      discarding the previous property state. */
  function RefreshProperties(state: EntityModel, e: Entity, bp: Blueprint, order: seq<string>, encode: Encoder)
    : (r: Result<EntityModel, Panic>)
    requires IsIterationOrder(order, e.properties)
    ensures r.Success? ==> r.value.properties.Some? && r.value.(properties := state.properties) == state
    ensures r.Failure? ==> r.error.property in e.properties && e.properties[r.error.property].JArray?
  {
    var props :- ApplyProperties(NoProperties, order, e.properties, bp, encode);
    Success(state.(properties := Some(props)))
  }

  /** The relation model `refreshRelationsEntityState` builds over the keys
      in `order`, as the code is written: a non-empty string is a single
      relation and everything else is dropped. The switch's `[]string` case
      never matches, because a record decoded by `json.Unmarshal` carries a
      list as `[]interface{}` (`JArray`), never as `[]string`; so the many
      relations stay empty even for a list of identifiers. */
  function SortRelations(order: seq<string>, relations: map<string, Json>): (r: RelationModel)
    requires forall id :: id in order ==> id in relations
    ensures forall id :: id in r.singleRelation <==>
      id in order && relations[id].JString? && relations[id].s != ""
    ensures forall id :: id in r.singleRelation ==> relations[id] == JString(r.singleRelation[id])
    ensures r.manyRelations == map[]
    decreases |order|
  {
    if |order| == 0 then RelationModel(map[], map[])
    else
      var before := SortRelations(order[..|order| - 1], relations);
      var id := order[|order| - 1];
      var v := relations[id];
      if v.JString? && v.s != "" then
        before.(singleRelation := before.singleRelation[id := v.s])
      else
        before
  }

  /** The relation model the switch is evidently meant to build: a non-empty
      list of identifiers becomes a many relation, read here as an array
      whose elements are all strings. */
  function SortRelationsIntended(order: seq<string>, relations: map<string, Json>): (r: RelationModel)
    requires forall id :: id in order ==> id in relations
    ensures forall id :: id in r.singleRelation <==>
      id in order && relations[id].JString? && relations[id].s != ""
    ensures forall id :: id in r.singleRelation ==> relations[id] == JString(r.singleRelation[id])
    ensures forall id :: id in r.manyRelations <==>
      id in order && StringListOf(relations[id]).Some? && StringListOf(relations[id]).value != []
    ensures forall id :: id in r.manyRelations ==> StringListOf(relations[id]) == Some(r.manyRelations[id])
    ensures r.singleRelation.Keys !! r.manyRelations.Keys
    decreases |order|
  {
    if |order| == 0 then RelationModel(map[], map[])
    else
      var before := SortRelationsIntended(order[..|order| - 1], relations);
      var id := order[|order| - 1];
      var v := relations[id];
      if v.JString? && v.s != "" then
        before.(singleRelation := before.singleRelation[id := v.s])
      else if StringListOf(v).Some? && StringListOf(v).value != [] then
        before.(manyRelations := before.manyRelations[id := StringListOf(v).value])
      else
        before
  }

  /** `refreshRelationsEntityState`: the relation model it computes is never
      stored, so the state comes back as it went in. */
  function RefreshRelations(state: EntityModel, e: Entity, order: seq<string>): (r: EntityModel)
    requires IsIterationOrder(order, e.relations)
    ensures r == state
  {
    var relations := SortRelations(order, e.relations);
    state
  }

  /** `refreshEntityState`: copies the record's scalar and audit fields, the
      teams when there are any, and refreshes the properties when there are
      any. Its Go error result is always nil; the only failure is the panic. */
  function RefreshEntity(state: EntityModel, e: Entity, bp: Blueprint, propertyOrder: seq<string>, relationOrder: seq<string>, encode: Encoder)
    : (r: Result<EntityModel, Panic>)
    requires IsIterationOrder(propertyOrder, e.properties)
    requires IsIterationOrder(relationOrder, e.relations)
    ensures r.Success? ==>
      && r.value.id == e.identifier
      && r.value.identifier == e.identifier
      && r.value.blueprint == bp.identifier
      && r.value.title == e.title
      && r.value.createdAt == e.createdAt
      && r.value.createdBy == e.createdBy
      && r.value.updatedAt == e.updatedAt
      && r.value.updatedBy == e.updatedBy
      && r.value.relations == state.relations
    ensures r.Success? ==> r.value.teams == (if |e.team| != 0 then e.team else state.teams)
    ensures r.Success? && |e.properties| != 0 ==>
      && RefreshProperties(state, e, bp, propertyOrder, encode).Success?
      && r.value.properties == RefreshProperties(state, e, bp, propertyOrder, encode).value.properties
    ensures |e.properties| == 0 ==> r.Success? && r.value.properties == state.properties
    ensures r.Failure? ==> r.error.property in e.properties && e.properties[r.error.property].JArray?
  {
    var copied := state.(
      id := e.identifier,
      identifier := e.identifier,
      blueprint := bp.identifier,
      title := e.title,
      createdAt := e.createdAt,
      createdBy := e.createdBy,
      updatedAt := e.updatedAt,
      updatedBy := e.updatedBy);
    var withTeams := if |e.team| != 0 then copied.(teams := e.team) else copied;
    var withProperties :-
      if |e.properties| != 0 then RefreshProperties(withTeams, e, bp, propertyOrder, encode)
      else Success(withTeams);
    Success(if |e.relations| != 0 then RefreshRelations(withProperties, e, relationOrder) else withProperties)
  }
}
