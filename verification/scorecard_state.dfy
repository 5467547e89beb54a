/** The Terraform state of a scorecard resource. */
module ScorecardState {

  /** A framework string attribute: null, unknown, or a known value.
      `ValueString` reads null and unknown as the empty string. */
  datatype TfString = Null | Unknown | Known(s: string) {

    predicate IsNull() {
      Null?
    }

    function ValueString(): string {
      if Known? then s else ""
    }
  }

  /** A rule's query; each condition is a JSON object written as text. */
  datatype QueryModel = QueryModel(combinator: TfString, conditions: seq<TfString>)

  datatype RuleModel = RuleModel(level: TfString, identifier: TfString, title: TfString, query: QueryModel)

  datatype ScorecardModel = ScorecardModel(identifier: TfString, title: TfString, rules: seq<RuleModel>)
}
