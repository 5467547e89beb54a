/** What building a scorecard request body guarantees, rule by rule. */
module ScorecardResourceToPortBodyProofs {
  import opened Outcome
  import opened Json
  import opened Cli
  import opened ScorecardState
  import opened ScorecardResourceToPortBody

  /** On success: one wire rule per state rule, in order, with its fields
      copied and exactly its non-null conditions, decoded, in order. */
  lemma RulesCarriedOver(state: ScorecardModel, parse: Parser)
    requires ScorecardToBody(state, parse).Success?
    ensures var body := ScorecardToBody(state, parse).value;
      && |body.rules| == |state.rules|
      && forall i :: 0 <= i < |state.rules| ==>
           var rule := state.rules[i];
           var wire := body.rules[i];
           && wire.level == rule.level.ValueString()
           && wire.identifier == rule.identifier.ValueString()
           && wire.title == rule.title.ValueString()
           && wire.query.combinator == rule.query.combinator.ValueString()
           && ParsedAs(NonNullTexts(rule.query.conditions), wire.query.conditions, parse)
           && |wire.query.conditions| == |rule.query.conditions| - multiset(rule.query.conditions)[Null]
  {
  }

  /** On failure: the error names the first malformed non-null condition of
      the first rule holding one; every earlier rule decoded, and its
      result is discarded with the rest. */
  lemma FailsAtFirstMalformed(state: ScorecardModel, parse: Parser)
    ensures ScorecardToBody(state, parse).Failure? ==>
      var err := ScorecardToBody(state, parse).error;
      exists i, j ::
        && 0 <= i < |state.rules|
        && (forall i' :: 0 <= i' < i ==> AllParse(NonNullTexts(state.rules[i'].query.conditions), parse))
        && FirstMalformedAt(NonNullTexts(state.rules[i].query.conditions), j, parse)
        && err == MalformedCondition(NonNullTexts(state.rules[i].query.conditions)[j])
  {
  }

  /** A scorecard with no rules always succeeds, with an empty rule list. */
  lemma NoRulesNoFailure(identifier: TfString, title: TfString, parse: Parser)
    ensures ScorecardToBody(ScorecardModel(identifier, title, []), parse)
      == Success(Scorecard(identifier.ValueString(), title.ValueString(), []))
  {
  }

  /** Null conditions are skipped and the others keep their relative order. */
  lemma NullConditionsSkipped(a: string, b: string)
    ensures NonNullTexts([Known(a), Null, Known(b), Null]) == [a, b]
  {
    assert [Null][1..] == [];
    assert NonNullTexts([Null]) == [];
    assert [Known(b), Null][1..] == [Null];
    assert NonNullTexts([Known(b), Null]) == [b];
    assert [Null, Known(b), Null][1..] == [Known(b), Null];
    assert NonNullTexts([Null, Known(b), Null]) == [b];
    assert [Known(a), Null, Known(b), Null][1..] == [Null, Known(b), Null];
  }
}
