/** The typed Terraform state of an entity resource. A Go `nil` map, pointer or
    null framework map is `None`; a present (possibly empty) one is `Some`. */
module EntityState {
  import opened Outcome

  /** Array-valued properties, one item map per declared element type. */
  datatype ArrayPropsModel = ArrayPropsModel(
    stringItems: Option<map<string, seq<string>>>,
    numberItems: Option<map<string, seq<real>>>,
    booleanItems: Option<map<string, seq<bool>>>,
    objectItems: Option<map<string, seq<string>>>)

  /** Scalar properties by kind; object values are held as their JSON text. */
  datatype EntityPropertiesModel = EntityPropertiesModel(
    stringProps: Option<map<string, string>>,
    numberProps: Option<map<string, real>>,
    booleanProps: Option<map<string, bool>>,
    objectProps: Option<map<string, string>>,
    arrayProps: Option<ArrayPropsModel>)

  datatype RelationModel = RelationModel(
    singleRelation: map<string, string>,
    manyRelations: map<string, seq<string>>)

  datatype EntityModel = EntityModel(
    id: string,
    identifier: string,
    blueprint: string,
    title: string,
    teams: seq<string>,
    properties: Option<EntityPropertiesModel>,
    relations: Option<RelationModel>,
    createdAt: string,
    createdBy: string,
    updatedAt: string,
    updatedBy: string)

  /** The fresh `&EntityPropertiesModel{}`: every container absent. */
  const NoProperties := EntityPropertiesModel(None, None, None, None, None)

  /** The contents of an optional map, a null map reading as empty. */
  function Contents<K, V>(m: Option<map<K, V>>): map<K, V>
  {
    if m.Some? then m.value else map[]
  }
}
