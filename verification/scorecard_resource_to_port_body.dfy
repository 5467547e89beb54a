/** Building the request body of a scorecard from its Terraform state
    (port/scorecard/scorecardResourceToPortBody.go). Conditions are held in
    the state as JSON text and sent as decoded objects; decoding, Go's
    `json.Unmarshal`, is the parameter `parse`. */
module ScorecardResourceToPortBody {
  import opened Outcome
  import opened Json
  import opened Cli
  import opened ScorecardState

  /** The decoding error `json.Unmarshal` returned for condition `text`. */
  datatype ParseError = MalformedCondition(text: string)

  /** The texts of the non-null conditions, in their order. */
  function NonNullTexts(conditions: seq<TfString>): (texts: seq<string>)
    ensures |texts| == |conditions| - multiset(conditions)[Null]
  {
    if |conditions| == 0 then []
    else
      assert conditions == [conditions[0]] + conditions[1..];
      (if conditions[0].IsNull() then [] else [conditions[0].ValueString()]) + NonNullTexts(conditions[1..])
  }

  /** Every text decodes. */
  predicate AllParse(texts: seq<string>, parse: Parser)
  {
    forall j :: 0 <= j < |texts| ==> parse(texts[j]).Some?
  }

  /** `objects` are the decodings of `texts`, one for one, in order. */
  predicate ParsedAs(texts: seq<string>, objects: seq<JsonObject>, parse: Parser)
  {
    && |objects| == |texts|
    && forall j :: 0 <= j < |texts| ==> parse(texts[j]) == Some(objects[j])
  }

  /** `texts[j]` is the first text that does not decode. */
  predicate FirstMalformedAt(texts: seq<string>, j: int, parse: Parser)
  {
    && 0 <= j < |texts|
    && parse(texts[j]).None?
    && forall j' :: 0 <= j' < j ==> parse(texts[j']).Some?
  }

  lemma ConsParsed(text: string, obj: JsonObject, texts: seq<string>, objects: seq<JsonObject>, parse: Parser)
    requires parse(text) == Some(obj) && ParsedAs(texts, objects, parse)
    ensures ParsedAs([text] + texts, [obj] + objects, parse)
  {
  }

  lemma ConsMalformed(text: string, texts: seq<string>, j: int, parse: Parser)
    requires parse(text).Some? && FirstMalformedAt(texts, j, parse)
    ensures FirstMalformedAt([text] + texts, j + 1, parse)
    ensures ([text] + texts)[j + 1] == texts[j]
  {
  }

  /** The inner loop: decodes every non-null condition in order, failing at
      the first one that does not parse. */
  function ConditionsToBody(conditions: seq<TfString>, parse: Parser): (r: Result<seq<JsonObject>, ParseError>)
    ensures r.Success? <==> AllParse(NonNullTexts(conditions), parse)
    ensures r.Success? ==> ParsedAs(NonNullTexts(conditions), r.value, parse)
    ensures r.Failure? ==>
      exists j :: FirstMalformedAt(NonNullTexts(conditions), j, parse)
        && r.error == MalformedCondition(NonNullTexts(conditions)[j])
  {
    if |conditions| == 0 then Success([])
    else if conditions[0].IsNull() then
      assert NonNullTexts(conditions) == NonNullTexts(conditions[1..]);
      ConditionsToBody(conditions[1..], parse)
    else
      var text := conditions[0].ValueString();
      var texts := NonNullTexts(conditions[1..]);
      assert NonNullTexts(conditions) == [text] + texts;
      match parse(text)
      case None =>
        assert FirstMalformedAt([text] + texts, 0, parse);
        Failure(MalformedCondition(text))
      case Some(condition) =>
        match ConditionsToBody(conditions[1..], parse)
        case Failure(err) =>
          var j :| FirstMalformedAt(texts, j, parse) && err == MalformedCondition(texts[j]);
          ConsMalformed(text, texts, j, parse);
          Failure(err)
        case Success(rest) =>
          ConsParsed(text, condition, texts, rest, parse);
          Success([condition] + rest)
  }

  /** One iteration of the outer loop: a wire rule with the rule's fields
      and its decoded conditions. */
  function RuleToBody(rule: RuleModel, parse: Parser): (r: Result<Rule, ParseError>)
    ensures r.Success? <==> ConditionsToBody(rule.query.conditions, parse).Success?
    ensures r.Failure? ==> r.error == ConditionsToBody(rule.query.conditions, parse).error
    ensures r.Success? ==>
      && r.value.level == rule.level.ValueString()
      && r.value.identifier == rule.identifier.ValueString()
      && r.value.title == rule.title.ValueString()
      && r.value.query.combinator == rule.query.combinator.ValueString()
      && r.value.query.conditions == ConditionsToBody(rule.query.conditions, parse).value
  {
    var conditions :- ConditionsToBody(rule.query.conditions, parse);
    Success(Rule(
      rule.level.ValueString(),
      rule.identifier.ValueString(),
      rule.title.ValueString(),
      Query(rule.query.combinator.ValueString(), conditions)))
  }

  /** `rules[i]` is the first rule whose conditions do not decode, and
      `err` is its error. */
  predicate FirstFailingRule(rules: seq<RuleModel>, i: int, err: ParseError, parse: Parser)
  {
    && 0 <= i < |rules|
    && RuleToBody(rules[i], parse) == Failure(err)
    && forall i' :: 0 <= i' < i ==> RuleToBody(rules[i'], parse).Success?
  }

  lemma ConsFailing(rules: seq<RuleModel>, i: int, err: ParseError, parse: Parser)
    requires |rules| > 0 && RuleToBody(rules[0], parse).Success?
    requires FirstFailingRule(rules[1..], i, err, parse)
    ensures FirstFailingRule(rules, i + 1, err, parse)
  {
    assert rules[i + 1] == rules[1..][i];
    assert forall i' :: 0 < i' < i + 1 ==> rules[i'] == rules[1..][i' - 1];
  }

  /** The outer loop: one wire rule per state rule, in order, failing as a
      whole at the first rule whose conditions do not decode. */
  function RulesToBody(rules: seq<RuleModel>, parse: Parser): (r: Result<seq<Rule>, ParseError>)
    ensures r.Success? <==> forall i :: 0 <= i < |rules| ==> RuleToBody(rules[i], parse).Success?
    ensures r.Success? ==>
      && |r.value| == |rules|
      && forall i :: 0 <= i < |rules| ==> RuleToBody(rules[i], parse) == Success(r.value[i])
    ensures r.Failure? ==> exists i :: FirstFailingRule(rules, i, r.error, parse)
  {
    if |rules| == 0 then Success([])
    else
      match RuleToBody(rules[0], parse)
      case Failure(err) =>
        assert FirstFailingRule(rules, 0, err, parse);
        Failure(err)
      case Success(first) =>
        match RulesToBody(rules[1..], parse)
        case Failure(err) =>
          var i :| FirstFailingRule(rules[1..], i, err, parse);
          ConsFailing(rules, i, err, parse);
          Failure(err)
        case Success(rest) => Success([first] + rest)
  }

  /** `scorecardResourceToPortBody`. */
  function ScorecardToBody(state: ScorecardModel, parse: Parser): (r: Result<Scorecard, ParseError>)
    ensures r.Success? ==>
      && r.value.identifier == state.identifier.ValueString()
      && r.value.title == state.title.ValueString()
    ensures r.Success? <==>
      forall i :: 0 <= i < |state.rules| ==> AllParse(NonNullTexts(state.rules[i].query.conditions), parse)
  {
    var rules :- RulesToBody(state.rules, parse);
    Success(Scorecard(state.identifier.ValueString(), state.title.ValueString(), rules))
  }
}
