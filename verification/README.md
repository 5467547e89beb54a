# Model-mapping core of the Port Terraform provider, in Dafny

The provider translates between the catalog service's untyped JSON records and
its typed Terraform state. This project models the two pure translations of
that layer and proves what they do.

- **Entity state refresh (wire to state)**, `port/entity/refreshEntityState.go`.
  An entity record read from the API is copied into an `EntityModel`:
  - identifier, title, blueprint and audit fields are copied;
  - teams are copied when there are any;
  - each property is sent to one typed container by the shape of its decoded
    JSON value (number, string, bool, list, object);
  - a list is decoded by the element type its blueprint declares in
    `items.type`.
  - relations are sorted into single and many relations, and then dropped.
- **Scorecard request body (state to wire)**,
  `port/scorecard/scorecardResourceToPortBody.go`. The identifier and title are
  copied. Every rule becomes a wire rule. Every non-null condition, held in the
  state as JSON text, is decoded into an object. The whole translation fails on
  the first condition that does not decode.

Files and modules:

- `outcome.dfy` (`Outcome`): `Option` and `Result`.
- `json.dfy` (`Json`): the decoded JSON value, and the type assertions on it.
- `cli.dfy` (`Cli`): wire records (blueprint, entity, scorecard).
- `entity_state.dfy` (`EntityState`): the entity's Terraform state.
- `refresh_entity_state.dfy` (`RefreshEntityState`): the refresh functions.
- `refresh_entity_state_proofs.dfy` (`RefreshEntityStateProofs`): what the refresh
  guarantees.
- `refresh_entity_state_examples.dfy` (`RefreshEntityStateExamples`): example
  records and the state `RefreshEntity` gives them, proved by lemma.
- `scorecard_state.dfy` (`ScorecardState`): the scorecard's Terraform state.
- `scorecard_resource_to_port_body.dfy` (`ScorecardResourceToPortBody`) and
  `scorecard_resource_to_port_body_proofs.dfy` (`ScorecardResourceToPortBodyProofs`).

How the Go is rendered:

- A decoded JSON value is the datatype `Json`, one constructor per Go dynamic
  type that `encoding/json` produces. `nil` is `JNull`.
- `json.Marshal` and `json.Unmarshal` are parameters, `encode: Json -> string`
  and `parse: string -> Option<JsonObject>`. Nothing is assumed about them.
- A Go `nil` map or pointer, and a null framework map, is `None`. A present map,
  even an empty one, is `Some`.
- Go ranges over a map in an unspecified order. That order is visible in the
  result, because each list property replaces the whole item map of its kind.
  So the refresh functions take the order as an argument: a duplicate-free
  listing of the map's keys (`IsIterationOrder`).
- The unchecked type assertion `item.(string)` panics on a mismatched element.
  The model returns that panic as `Failure(ItemTypeMismatch(property, index))`.
  The Go error result of `refreshEntityState` is always nil.
- A framework string is `TfString` (`Null`, `Unknown` or `Known`). `ValueString`
  reads null and unknown as `""`, as the framework does.

Four behaviours of the code that a reader might not expect, all modelled as
written:

- **Not every property lands in a container.** The code puts a null value in
  no container. It also puts an empty list in none, and a list whose declared
  element type is missing or unknown. Of several lists with the same declared
  type, it keeps only the one it decodes last (`ArrayPlacement`,
  `LaterListReplacesEarlier`).
- **A mismatched element panics.** The conversion is an unchecked type
  assertion, not a check that reports an error (`MismatchedElementPanics`).
- **A list relation is dropped.** The relation switch matches `[]string`, but
  a record decoded by `json.Unmarshal` holds a list as `[]interface{}`. So only
  string relations are sorted (`SortRelations`). The evidently intended sort is
  modelled beside it (`SortRelationsIntended`, see Findings).
- **Relations never reach the state.** The code builds the relation model and
  never stores it (`RefreshRelations`, `ScalarsAndRelations`).

## Model

| member | source | states |
|---|---|---|
| RefreshEntityState.Collect | port/entity/refreshEntityState.go:23-26 | Converting a list's elements keeps their order and length. It succeeds exactly when every element passes the type assertion. Otherwise it stops at the first element that fails. |
| RefreshEntityState.RefreshArray | port/entity/refreshEntityState.go:12-52 | Branches on the declared `items.type`. Panics exactly when some element has another shape, naming the first one. It creates four null item maps if `ArrayProps` was absent. The map of the declared kind then holds only `k`, or nothing for an empty list, with the elements in order. Object elements are encoded one by one. The other three maps and all scalar containers are unchanged. An unknown type changes nothing else. |
| RefreshEntityState.RefreshProperty | port/entity/refreshEntityState.go:57-84 | Only a list value can panic. Any other value, null included, leaves the item maps as they were. |
| RefreshEntityState.ApplyProperties | port/entity/refreshEntityState.go:56-85 | A panic during the property loop names a visited property whose value is a list. |
| RefreshEntityState.RefreshProperties | port/entity/refreshEntityState.go:54-86 | The properties are always replaced by a freshly built record. Nothing else in the state changes, and only a list property can panic. |
| RefreshEntityState.SortRelations | port/entity/refreshEntityState.go:89-106 | As written: a relation is single exactly when its value is a non-empty string, and that value is kept. The many relations are always empty, since a decoded list never has the dynamic type `[]string`. Every other value is dropped. |
| RefreshEntityState.SortRelationsIntended | port/entity/refreshEntityState.go:89-106 | As intended: single exactly for a non-empty string, with its value. Many exactly for a non-empty list of strings, kept in order. Every other value is dropped, and no relation is both. |
| RefreshEntityState.RefreshRelations | port/entity/refreshEntityState.go:88-107 | The relation model is computed but never stored: the state comes back unchanged. |
| RefreshEntityState.RefreshEntity | port/entity/refreshEntityState.go:109-135 | ID and Identifier are both the entity's identifier. Blueprint comes from the blueprint argument. Title and audit fields are copied. Teams are copied in order only when there are any, and are otherwise left as they were. When there are properties, the resulting properties are exactly those the property refresh builds. With none, they are left as they were and it never fails. Relations are untouched. |
| RefreshEntityStateProofs.LastArrayOfKind | port/entity/refreshEntityState.go:21-51 | Finds the list property whose decoding stays in the item map of a kind: it has that declared kind, and no later key in the iteration order does. |
| RefreshEntityStateProofs.RefreshPropertyScalars | port/entity/refreshEntityState.go:57-84 | One loop step stores a number, string, bool or object value into the container of that shape only. An object is stored as its encoding. A scalar container is created on its first entry. Null and list values touch no scalar container. |
| RefreshEntityStateProofs.ApplySucceedsIff | port/entity/refreshEntityState.go:21-49 | The property loop panics exactly when some list property holds an element whose shape differs from its declared item type. |
| RefreshEntityStateProofs.ApplyScalars | port/entity/refreshEntityState.go:56-85 | After the loop, each scalar container holds exactly the visited properties of its shape, with their values. The visiting order does not matter. |
| RefreshEntityStateProofs.ApplyArrays | port/entity/refreshEntityState.go:13-51 | `ArrayProps` exists exactly when some list was met. Each kind's item map holds the decoding of the last list of that kind, or is unchanged if there was none. |
| RefreshEntityStateProofs.RefreshPropertiesContents | port/entity/refreshEntityState.go:54-86 | The whole property refresh from a fresh record: when it succeeds, and what every container holds afterwards. |
| RefreshEntityStateProofs.PropertyDispatch | port/entity/refreshEntityState.go:55-84 | A property is in NumberProps, StringProps, BooleanProps or ObjectProps exactly when its value is a number, string, bool or object, with that value or encoding. A null is in none. A scalar container exists exactly when some property has its shape. |
| RefreshEntityStateProofs.ArrayPlacement | port/entity/refreshEntityState.go:21-51 | A list property is in an item map only in the map of its declared kind. It is there, decoded in order, exactly when it is non-empty and is the last list of that kind. Earlier lists of the kind are replaced. |
| RefreshEntityStateProofs.ItemMapsHoldOnlyLists | port/entity/refreshEntityState.go:75-76 | Only properties whose value is a list ever appear in an item map. |
| RefreshEntityStateProofs.SortRelationsAgreeOnSingles | port/entity/refreshEntityState.go:94-105 | For every input, the sort as written equals the intended sort with its many relations removed. |
| RefreshEntityStateProofs.ListRelationDropped | port/entity/refreshEntityState.go:96-99 | A relation holding `["svc-2", "svc-3"]` is in neither map as written. As intended, it is a many relation with that list. |
| RefreshEntityStateProofs.RefreshEntitySucceedsIff | port/entity/refreshEntityState.go:109-135 | The refresh fails (panics) exactly when some list property holds a mismatched element. It never returns an error. |
| RefreshEntityStateExamples.ScalarsAndRelations | port/entity/refreshEntityState.go:54-107 | For a record with `env`, `replicas` and `public` the containers are exactly `{env: prod}`, `{replicas: 3}` and `{public: true}`. The relations sort into `owner` (single) alone, the list under `depends_on` being dropped. The state's relations stay as they were. |
| RefreshEntityStateExamples.ServiceRelationsSorted | port/entity/refreshEntityState.go:94-105 | As written, `{owner: "team-x", depends_on: ["svc-2", "svc-3"]}` sorts to the single relation `owner` and no many relation. |
| RefreshEntityStateExamples.ServiceRelationsSortedIntended | port/entity/refreshEntityState.go:94-105 | As intended, the same relations sort to `owner` (single) and `depends_on` (many, `[svc-2, svc-3]`). |
| RefreshEntityStateExamples.LaterListReplacesEarlier | port/entity/refreshEntityState.go:22-27 | With two string lists, only the one decoded last remains in StringItems. |
| RefreshEntityStateExamples.ObjectItemsEncodedOneByOne | port/entity/refreshEntityState.go:43-49 | A list declared as objects becomes the list of its elements' encodings, in order. |
| RefreshEntityStateExamples.MismatchedElementPanics | port/entity/refreshEntityState.go:29-33 | A number list holding a string panics at that element's index. |
| ScorecardResourceToPortBody.NonNullTexts | port/scorecard/scorecardResourceToPortBody.go:27-29 | The texts of the non-null conditions number the conditions minus the nulls. |
| ScorecardResourceToPortBody.ConditionsToBody | port/scorecard/scorecardResourceToPortBody.go:26-38 | Null conditions are skipped. It succeeds exactly when every non-null text parses, and then yields their parses one for one, in order. Otherwise it fails with the first text that does not parse. |
| ScorecardResourceToPortBody.RuleToBody | port/scorecard/scorecardResourceToPortBody.go:18-39 | Level, Identifier, Title and Combinator are copied. The conditions are the rule's decoded conditions. It fails exactly when they fail, with their error. |
| ScorecardResourceToPortBody.RulesToBody | port/scorecard/scorecardResourceToPortBody.go:15-42 | One wire rule per state rule, in order. It fails exactly when some rule fails, with the error of the first failing rule. |
| ScorecardResourceToPortBody.ScorecardToBody | port/scorecard/scorecardResourceToPortBody.go:9-47 | Identifier and Title are copied. It succeeds exactly when every non-null condition of every rule parses. |
| ScorecardResourceToPortBodyProofs.RulesCarriedOver | port/scorecard/scorecardResourceToPortBody.go:17-44 | On success there is one rule per input rule, in order, with its fields copied. Its conditions are its non-null conditions decoded in order, and there are as many of them as non-null inputs. |
| ScorecardResourceToPortBodyProofs.FailsAtFirstMalformed | port/scorecard/scorecardResourceToPortBody.go:31-34 | On failure there is no scorecard. The error names the first malformed non-null condition of the first rule that holds one. Every earlier rule had decoded. |
| ScorecardResourceToPortBodyProofs.NoRulesNoFailure | port/scorecard/scorecardResourceToPortBody.go:15-46 | A scorecard without rules always succeeds, with an empty rule list. |
| ScorecardResourceToPortBodyProofs.NullConditionsSkipped | port/scorecard/scorecardResourceToPortBody.go:27-29 | `[a, null, b, null]` yields the texts `[a, b]`. |

## Findings

| source | as written | input that shows it | evidently intended | confidence | as-written member | corrected member |
|---|---|---|---|---|---|---|
| port/entity/refreshEntityState.go:96-99 | `case []string` on a relation value of a record decoded by `json.Unmarshal`, where a list is `[]interface{}` | relations `{"depends_on": ["svc-2", "svc-3"]}` | a non-empty list of identifiers becomes a many relation | medium, not executed: rests on `cli.Entity.Relations` being filled by `json.Unmarshal` | RefreshEntityState.SortRelations, RefreshEntityStateProofs.ListRelationDropped | RefreshEntityState.SortRelationsIntended |

`RefreshRelations` discards the relation model, so the state is the same under
either sort. It calls the sort as written.

## Left out

- HTTP round trips of `port/cli/entity.go` (reading, creating and deleting entities, and the `ok` check on the response envelope): I/O plumbing around the translation.
- `port/action/schema.go`, `port/search/dataSourceSchema.go`: schema declarations. Their one validator depends on framework value conversions, and the other is a library regular expression.
- `port/blueprint/resource_test.go`: acceptance tests against the live service.
- JSON numbers are `real`. `float64` rounding is not modelled.
- `json.Marshal` and `json.Unmarshal` are uninterpreted parameters. Their errors, which the refresh ignores, are not modelled.
- Timestamps are taken already formatted by `time.Time.String()`.
- Framework diagnostics from `types.MapValueFrom` (discarded by the code) and `context.Context` are left out.
- A nil slice and an empty slice are the same empty sequence. The Go body sends a nil rule list or condition list as JSON `null`.
- The declaration of `cli.Entity` is not part of this model. Its `Relations` is taken to be a map of untyped values filled by `json.Unmarshal` (`port/cli/entity.go:23`), which is what the type switch on it requires.
- Blueprint `items` is a map from string to string here. A non-string `type` value would, like a missing one, match no case.
- The state changes a panic leaves behind are not modelled: a panic is a failed result.
- RefreshProperty: its own contract says only which values can panic. Where each value lands is stated by RefreshPropertyScalars and RefreshArray.
