/** The wire-side records of the `cli` package that the mapping layer reads or
    builds: a blueprint's schema, an entity as the API returns it, and a
    scorecard request body. */
module Cli {
  import opened Json

  /** One property of a blueprint schema; only its `items` settings are read
      here (the element type of an array property is `items["type"]`). */
  datatype BlueprintProperty = BlueprintProperty(items: map<string, string>)

  datatype Blueprint = Blueprint(
    identifier: string,
    schemaProperties: map<string, BlueprintProperty>)

  /** An entity record as decoded from the API. Timestamps are kept in the
      text form that `time.Time.String()` gives them. */
  datatype Entity = Entity(
    identifier: string,
    title: string,
    blueprint: string,
    team: seq<string>,
    properties: map<string, Json>,
    relations: map<string, Json>,
    createdAt: string,
    createdBy: string,
    updatedAt: string,
    updatedBy: string)

  datatype Query = Query(combinator: string, conditions: seq<JsonObject>)

  datatype Rule = Rule(level: string, identifier: string, title: string, query: Query)

  datatype Scorecard = Scorecard(identifier: string, title: string, rules: seq<Rule>)
}
