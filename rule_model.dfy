/** Rules, rule results and the rule-evaluation capabilities the services
    call into. */
module RuleModel {
  import opened Outcomes
  import opened Values

  /** An immutable rule: a name, a condition in the expression language and
      a descriptive message. */
  datatype Rule = Rule(name: string, condition: string, message: string)

  /** The outcome of evaluating a rule or a rule set. Only Match is
      triggered; NoMatch and NoRules carry neither rule name nor message.
      The identifier and timestamp of the source's results are not part of
      this model. */
  datatype RuleResult =
    | Match(ruleName: string, message: string)
    | NoMatch
    | Error(ruleName: string, message: string)
    | NoRules
  {
    predicate IsTriggered() {
      Match?
    }

    /** The rule name carried by the result, absent for NoMatch and NoRules. */
    function RuleName(): (n: Option<string>)
      ensures n.None? <==> (NoMatch? || NoRules?)
    {
      match this
      case Match(name, _) => Some(name)
      case Error(name, _) => Some(name)
      case _ => None
    }
  }

  /** The rules engine's executeRulesList: evaluates a list of rules against
      a fact map and yields one summary result, or raises. Its expression
      language is not modelled, so it is a parameter of the model. */
  type RulesEngine = (seq<Rule>, Facts) -> Try<RuleResult>

  /** The expression evaluator's evaluateWithResult: evaluates one condition
      against an evaluation context, or raises. A parameter of the model. */
  type Evaluator = (string, Facts) -> Try<RuleResult>
}
