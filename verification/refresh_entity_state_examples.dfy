/** Example records and the state the model's `RefreshEntity` gives them,
    proved by lemma: dispatch by shape, the discarded relation model, the
    dropped list relation, and the replacement of item maps. */
module RefreshEntityStateExamples {
  import opened Outcome
  import opened Json
  import opened Cli
  import opened EntityState
  import opened RefreshEntityState

  function ServiceEntity(properties: map<string, Json>, relations: map<string, Json>): Entity
  {
    Entity("svc-1", "Service 1", "service", [], properties, relations, "", "", "", "")
  }

  function ServiceBlueprint(schema: map<string, BlueprintProperty>): Blueprint
  {
    Blueprint("service", schema)
  }

  lemma CollectStrings1(a: string)
    ensures Collect([JString(a)], StringOf) == Success([a])
  {
    var c := Collect([JString(a)], StringOf);
    assert c.Success? && |c.value| == 1 && StringOf(JString(a)) == Some(c.value[0]);
    assert c.value == [a];
  }

  lemma CollectStrings2(a: string, b: string)
    ensures Collect([JString(a), JString(b)], StringOf) == Success([a, b])
  {
    var c := Collect([JString(a), JString(b)], StringOf);
    assert c.Success? && |c.value| == 2;
    assert StringOf(JString(a)) == Some(c.value[0]) && StringOf(JString(b)) == Some(c.value[1]);
    assert c.value == [a, b];
  }

  function ServiceProperties(): map<string, Json>
  {
    map["env" := JString("prod"), "replicas" := JNumber(3.0), "public" := JBool(true)]
  }

  function ServiceRelations(): map<string, Json>
  {
    map["owner" := JString("team-x"), "depends_on" := JArray([JString("svc-2"), JString("svc-3")])]
  }

  lemma ServicePropertiesLoop(encode: Encoder)
    ensures ApplyProperties(NoProperties, ["env", "replicas", "public"], ServiceProperties(), ServiceBlueprint(map[]), encode)
      == Success(EntityPropertiesModel(
           Some(map["env" := "prod"]), Some(map["replicas" := 3.0]), Some(map["public" := true]), None, None))
  {
  }

  /** As written, only `owner` is sorted: the list under `depends_on` is
      dropped. */
  lemma ServiceRelationsSorted()
    ensures SortRelations(["owner", "depends_on"], ServiceRelations())
      == RelationModel(map["owner" := "team-x"], map[])
  {
  }

  /** As intended, `depends_on` is a many relation with its identifiers in
      order. */
  lemma ServiceRelationsSortedIntended()
    ensures SortRelationsIntended(["owner", "depends_on"], ServiceRelations())
      == RelationModel(map["owner" := "team-x"], map["depends_on" := ["svc-2", "svc-3"]])
  {
    var relations := ServiceRelations();
    var relOrder := ["owner", "depends_on"];
    assert relOrder[..1] == ["owner"] && relOrder[..1][..0] == [];
    assert SortRelationsIntended(["owner"], relations) == RelationModel(map["owner" := "team-x"], map[]);
    var ids := StringListOf(relations["depends_on"]);
    assert ids.Some? && |ids.value| == 2;
    assert ids.value[0] == "svc-2" && ids.value[1] == "svc-3";
    assert ids.value == ["svc-2", "svc-3"];
  }

  /** A record with three scalar properties and two relations: each scalar
      lands in the container of its shape. The relations sort into `owner`
      alone, the list under `depends_on` being dropped, and even that
      model never reaches the state. */
  lemma ScalarsAndRelations(state: EntityModel, encode: Encoder)
    ensures
      var e := ServiceEntity(ServiceProperties(), ServiceRelations());
      var r := RefreshEntity(state, e, ServiceBlueprint(map[]), ["env", "replicas", "public"], ["owner", "depends_on"], encode);
      && r.Success?
      && r.value.properties == Some(EntityPropertiesModel(
           Some(map["env" := "prod"]), Some(map["replicas" := 3.0]), Some(map["public" := true]), None, None))
      && r.value.relations == state.relations
      && SortRelations(["owner", "depends_on"], e.relations)
         == RelationModel(map["owner" := "team-x"], map[])
  {
    ServicePropertiesLoop(encode);
    ServiceRelationsSorted();
    assert |ServiceProperties()| != 0 by {
      assert "env" in ServiceProperties();
    }
  }

  /** Two string lists: the one the loop decodes last replaces the other's
      item map, so the first list is in no container at all. */
  lemma LaterListReplacesEarlier(state: EntityModel, encode: Encoder)
    ensures
      var strings := BlueprintProperty(map["type" := "string"]);
      var e := ServiceEntity(map["tags" := JArray([JString("a"), JString("b")]), "zones" := JArray([JString("eu")])], map[]);
      var r := RefreshEntity(state, e, ServiceBlueprint(map["tags" := strings, "zones" := strings]), ["tags", "zones"], [], encode);
      && r.Success?
      && r.value.properties == Some(EntityPropertiesModel(
           None, None, None, None, Some(ArrayPropsModel(Some(map["zones" := ["eu"]]), None, None, None))))
  {
    var strings := BlueprintProperty(map["type" := "string"]);
    var props := map["tags" := JArray([JString("a"), JString("b")]), "zones" := JArray([JString("eu")])];
    var bp := ServiceBlueprint(map["tags" := strings, "zones" := strings]);
    var p1 := NoProperties.(arrayProps := Some(ArrayPropsModel(Some(map["tags" := ["a", "b"]]), None, None, None)));
    var p2 := NoProperties.(arrayProps := Some(ArrayPropsModel(Some(map["zones" := ["eu"]]), None, None, None)));
    assert DeclaredItemsKind(bp, "tags") == StringKind && DeclaredItemsKind(bp, "zones") == StringKind;
    CollectStrings2("a", "b");
    CollectStrings1("eu");
    assert RefreshProperty(NoProperties, "tags", props["tags"], bp, encode) == Success(p1);
    assert RefreshProperty(p1, "zones", props["zones"], bp, encode) == Success(p2);
    assert ["tags", "zones"][1..] == ["zones"];
    assert ApplyProperties(p2, [], props, bp, encode) == Success(p2);
    assert ApplyProperties(p1, ["zones"], props, bp, encode) == Success(p2);
    assert ApplyProperties(NoProperties, ["tags", "zones"], props, bp, encode) == Success(p2);
  }

  /** A list declared as objects: each element is encoded on its own, in order. */
  lemma ObjectItemsEncodedOneByOne(state: EntityModel, encode: Encoder)
    ensures
      var c1 := JObject(map["k" := JNumber(1.0)]);
      var c2 := JObject(map["k" := JNumber(2.0)]);
      var e := ServiceEntity(map["configs" := JArray([c1, c2])], map[]);
      var bp := ServiceBlueprint(map["configs" := BlueprintProperty(map["type" := "object"])]);
      var r := RefreshEntity(state, e, bp, ["configs"], [], encode);
      && r.Success?
      && r.value.properties == Some(EntityPropertiesModel(
           None, None, None, None, Some(ArrayPropsModel(None, None, None, Some(map["configs" := [encode(c1), encode(c2)]])))))
  {
    var c1 := JObject(map["k" := JNumber(1.0)]);
    var c2 := JObject(map["k" := JNumber(2.0)]);
    var props := map["configs" := JArray([c1, c2])];
    var bp := ServiceBlueprint(map["configs" := BlueprintProperty(map["type" := "object"])]);
    var p1 := NoProperties.(arrayProps := Some(ArrayPropsModel(None, None, None, Some(map["configs" := [encode(c1), encode(c2)]]))));
    assert DeclaredItemsKind(bp, "configs") == ObjectKind;
    var encoded := seq(2, i requires 0 <= i < 2 => encode([c1, c2][i]));
    assert encoded == [encode(c1), encode(c2)];
    assert RefreshProperty(NoProperties, "configs", props["configs"], bp, encode) == Success(p1);
    assert ApplyProperties(p1, [], props, bp, encode) == Success(p1);
    assert ApplyProperties(NoProperties, ["configs"], props, bp, encode) == Success(p1);
  }

  /** A list declared as numbers holding a string panics at that element. */
  lemma MismatchedElementPanics(state: EntityModel, encode: Encoder)
    ensures
      var e := ServiceEntity(map["ports" := JArray([JNumber(80.0), JString("443")])], map[]);
      var bp := ServiceBlueprint(map["ports" := BlueprintProperty(map["type" := "number"])]);
      RefreshEntity(state, e, bp, ["ports"], [], encode) == Failure(ItemTypeMismatch("ports", 1))
  {
  }
}
