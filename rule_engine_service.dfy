/** The rule evaluation orchestrator: evaluates an ordered list of rules
    against one evaluation context and reports one result per rule. */
module Engine {
  import opened Outcomes
  import opened Values
  import opened RuleModel

  /** The result reported for one rule, given what the evaluator did with
      the rule's condition: Match with the rule's own name and message when
      the evaluator matched, Error with the rule's name when the evaluator
      reported an error (its message) or raised (the exception's message),
      NoMatch otherwise. */
  function RuleOutcome(rule: Rule, evaluated: Try<RuleResult>): (r: RuleResult)
    ensures r.IsTriggered() <==> evaluated.Ok? && evaluated.value.Match?
    ensures r.IsTriggered() ==> r == Match(rule.name, rule.message)
    ensures r.Error? <==> evaluated.Thrown? || evaluated.value.Error?
    ensures r.Error? ==> r.ruleName == rule.name
    ensures r.Error? ==>
              r.message == (if evaluated.Thrown? then evaluated.message else evaluated.value.message)
    ensures !r.Match? && !r.Error? ==> r == NoMatch
  {
    match evaluated
    case Thrown(e) => Error(rule.name, e)
    case Ok(base) =>
      if base.Match? then Match(rule.name, rule.message)
      else if base.Error? then Error(rule.name, base.message)
      else NoMatch
  }

  /** A null rule list is treated as an empty one. */
  function RulesOrEmpty(rules: Option<seq<Rule>>): seq<Rule> {
    rules.GetOr([])
  }

  class RuleEngineService {
    const evaluator: Evaluator
    /** Whether each result is echoed to the console; it affects output only. */
    var printResults: bool

    constructor (evaluator: Evaluator)
      ensures this.evaluator == evaluator && printResults
    {
      this.evaluator := evaluator;
      printResults := true;
    }

    /** Sets the console flag and returns this same service for chaining. */
    method SetPrintResults(printResults: bool) returns (self: RuleEngineService)
      modifies this`printResults
      ensures this.printResults == printResults
      ensures self == this
    {
      this.printResults := printResults;
      self := this;
    }

    /** Evaluates every rule in order. Each rule is evaluated on its own: what
        the evaluator does with one rule (including raising) decides that
        rule's result and no other, so there is exactly one result per rule,
        in rule order. The printResults flag does not enter the results. */
    method EvaluateRules(rules: Option<seq<Rule>>, context: Facts) returns (results: seq<RuleResult>)
      ensures |results| == |RulesOrEmpty(rules)|
      ensures rules.None? ==> results == []
      ensures forall i :: 0 <= i < |results| ==>
                results[i] == RuleOutcome(RulesOrEmpty(rules)[i], evaluator(RulesOrEmpty(rules)[i].condition, context))
    {
      results := [];
      if rules.None? || |rules.value| == 0 {
        return;
      }
      var rs := rules.value;
      for i := 0 to |rs|
        invariant |results| == i
        invariant forall j :: 0 <= j < i ==>
                    results[j] == RuleOutcome(rs[j], evaluator(rs[j].condition, context))
      {
        var rule := rs[i];
        var ruleResult: RuleResult;
        match evaluator(rule.condition, context) {
          case Thrown(e) =>
            ruleResult := Error(rule.name, e);
          case Ok(baseResult) =>
            if baseResult.Match? {
              ruleResult := Match(rule.name, rule.message);
            } else if baseResult.Error? {
              ruleResult := Error(rule.name, baseResult.message);
            } else {
              ruleResult := NoMatch;
            }
        }
        results := results + [ruleResult];
      }
    }
  }
}
