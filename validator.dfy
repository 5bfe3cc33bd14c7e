/** Validators: a named, typed check over values of one type, with the
    result-producing wrapper every validator inherits. */
module Validation {
  import opened Outcomes
  import opened RuleModel

  /** A validator. The name and the type name are fixed when it is built
      (the immutable holder every concrete validator extends); `check` is the
      validator's own validate operation, which may raise. A datatype is
      immutable, so the name and type cannot change after construction. */
  datatype Validator<!T> = Validator(name: string, typeName: string, check: T -> Try<bool>)
  {
    function GetName(): string {
      name
    }

    function GetType(): string {
      typeName
    }

    function Validate(value: T): Try<bool> {
      check(value)
    }

    /** The inherited validateWithResult: a Match named after the validator
        exactly when validate accepts the value, otherwise NoMatch. It has no
        handler, so an exception from validate passes out unchanged. */
    function ValidateWithResult(value: T): (r: Try<RuleResult>)
      ensures r.Thrown? <==> Validate(value).Thrown?
      ensures Validate(value).Thrown? ==> r.message == Validate(value).message
      ensures r.Ok? ==> (r.value.IsTriggered() <==> Validate(value) == Ok(true))
      ensures r.Ok? && r.value.IsTriggered() ==>
                r.value.RuleName() == Some(GetName()) && r.value.message == "Validation successful for " + GetName()
      ensures r.Ok? && !r.value.IsTriggered() ==> r.value == NoMatch
      ensures r.Ok? ==> !r.value.Error? && !r.value.NoRules?
    {
      match Validate(value)
      case Thrown(e) => Thrown(e)
      case Ok(valid) =>
        if valid then Ok(Match(GetName(), "Validation successful for " + GetName()))
        else Ok(NoMatch)
    }
  }

  /** The getters return what the validator was built with. */
  lemma GettersReturnConstructionArguments<T>(name: string, typeName: string, check: T -> Try<bool>)
    ensures Validator(name, typeName, check).GetName() == name
    ensures Validator(name, typeName, check).GetType() == typeName
  {
  }

  /** Through validateWithResult, a triggered result carries the name given
      at construction, whatever the check. */
  lemma MatchCarriesConstructionName<T>(name: string, typeName: string, check: T -> Try<bool>, value: T)
    requires Validator(name, typeName, check).ValidateWithResult(value).Ok?
    requires Validator(name, typeName, check).ValidateWithResult(value).value.IsTriggered()
    ensures Validator(name, typeName, check).ValidateWithResult(value)
            == Ok(Match(name, "Validation successful for " + name))
  {
  }

  /** Two validators that agree on validate agree on validateWithResult:
      the wrapper adds no condition of its own beyond the name, and raises
      exactly what validate raises. */
  lemma ResultDependsOnlyOnValidate<T>(v1: Validator<T>, v2: Validator<T>, value: T)
    requires v1.GetName() == v2.GetName()
    requires v1.Validate(value) == v2.Validate(value)
    ensures v1.ValidateWithResult(value) == v2.ValidateWithResult(value)
  {
  }
}
