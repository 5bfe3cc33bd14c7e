/** The generic transformer: copies an object and changes the copy's fields
    under the control of an ordered list of transformer rules. */
module Transformer {
  import opened Outcomes
  import opened Values
  import opened RuleModel
  import opened Objects
  import opened TransformRules

  /** What transform promises: null for null; the original itself when the
      call fails open; otherwise a distinct, well-formed object of the same
      class holding the fields TransformResult gives. */
  ghost predicate TransformedAs(trs: seq<TransformerRule>, engine: RulesEngine, value: Instance?, r: Instance?)
    reads value, r
  {
    if value == null then r == null
    else
      r != null &&
      match TransformResult(trs, engine, value.cls, value.fields)
      case None => r == value
      case Some(m) => r != value && r.cls == value.cls && r.fields == m && r.Valid()
  }

  class GenericTransformer {
    const name: string
    /** The name of the class of objects this transformer handles. */
    const typeName: string
    const engine: RulesEngine
    var transformerRules: seq<TransformerRule>

    /** The rule list is taken by value (a later change to the caller's list
        cannot reach it); a null list gives an empty one. */
    constructor (name: string, typeName: string, engine: RulesEngine, transformerRules: Option<seq<TransformerRule>>)
      ensures this.name == name && this.typeName == typeName && this.engine == engine
      ensures this.transformerRules == transformerRules.GetOr([])
    {
      this.name := name;
      this.typeName := typeName;
      this.engine := engine;
      this.transformerRules := transformerRules.GetOr([]);
    }

    /** Appends a rule at the end; a null rule is ignored. */
    method AddTransformationRule(tr: Option<TransformerRule>)
      modifies this`transformerRules
      ensures tr.Some? ==> transformerRules == old(transformerRules) + [tr.value]
      ensures tr.None? ==> transformerRules == old(transformerRules)
    {
      if tr.Some? {
        transformerRules := transformerRules + [tr.value];
      }
    }

    /** transform. The method may change no object that existed before the
        call (it has no modifies clause), so the original is never changed:
        every action reads the original and writes only the fresh copy. */
    method Transform(value: Instance?) returns (r: Instance?)
      requires value != null ==> value.Valid()
      ensures TransformedAs(transformerRules, engine, value, r)
      ensures r != null && r != value ==> fresh(r)
    {
      if value == null {
        return null;
      }
      var copied := CreateCopy(value);
      if copied.Thrown? {
        return value;
      }
      var copy := copied.value;
      var original := value.State();
      var i := 0;
      while i < |transformerRules|
        invariant 0 <= i <= |transformerRules|
        invariant fresh(copy) && copy.Valid() && copy.cls == value.cls
        invariant ApplyRules(transformerRules[..i], engine, original, value.fields) == Ok(copy.fields)
      {
        var tr := transformerRules[i];
        var outcome := ApplyTransformationRule(tr, original, copy);
        ApplyRulesAppend(transformerRules[..i], [tr], engine, original, value.fields);
        assert transformerRules[..i + 1] == transformerRules[..i] + [tr];
        assert [tr][1..] == [];
        if outcome.Fail? {
          ApplyRulesAppend(transformerRules[..i + 1], transformerRules[i + 1..], engine, original, value.fields);
          assert transformerRules == transformerRules[..i + 1] + transformerRules[i + 1..];
          return value;
        }
        i := i + 1;
      }
      assert transformerRules[..i] == transformerRules;
      return copy;
    }

    /** transformWithResult: Error for null; otherwise Match when the output
        is not equal to the input and NoMatch when it is. Since transform
        catches every failure, a non-null input never yields Error. */
    method TransformWithResult(value: Instance?) returns (r: RuleResult)
      requires value != null ==> value.Valid()
      ensures value == null ==> r == Error(name, "Value is null")
      ensures value != null ==> !r.Error? && !r.NoRules?
      ensures value != null ==> (r.IsTriggered() <==> Changes(transformerRules, engine, value.cls, value.fields))
      ensures r.IsTriggered() ==> r == Match(name, "Value transformed successfully")
    {
      if value == null {
        return Error(name, "Value is null");
      }
      var transformed := Transform(value);
      if !value.Equals(transformed) {
        return Match(name, "Value transformed successfully");
      } else {
        return NoMatch;
      }
    }

    /** applyTransformationRule: evaluates the rule against "value" bound to
        the original plus the rule's additional facts, then runs exactly the
        positive actions if the result is triggered and exactly the negative
        ones otherwise. An exception from the engine is reported as Fail,
        with the copy untouched. */
    method ApplyTransformationRule(tr: TransformerRule, original: ObjectState, copy: Instance) returns (outcome: Outcome)
      requires copy.Valid()
      modifies copy
      ensures copy.Valid()
      ensures outcome.Pass? ==> RuleStep(tr, engine, original, old(copy.fields)) == Ok(copy.fields)
      ensures outcome.Fail? ==> RuleStep(tr, engine, original, old(copy.fields)) == Thrown(outcome.message)
      ensures outcome.Fail? ==> copy.fields == old(copy.fields)
    {
      var facts := FactsFor(Ref(original), tr.additionalFacts);
      match engine([tr.rule], facts) {
        case Thrown(e) =>
          return Fail(e);
        case Ok(ruleResult) =>
          if ruleResult.IsTriggered() {
            ApplyActionsInOrder(tr.positiveActions, original, copy, facts);
          } else {
            ApplyActionsInOrder(tr.negativeActions, original, copy, facts);
          }
          return Pass;
      }
    }

    /** The loop over one action list, in list order. */
    method ApplyActionsInOrder(actions: seq<FieldAction>, original: ObjectState, copy: Instance, facts: Facts)
      requires copy.Valid()
      modifies copy
      ensures copy.Valid()
      ensures copy.fields == ApplyActions(actions, original, facts, old(copy.fields))
    {
      for i := 0 to |actions|
        invariant copy.Valid()
        invariant copy.fields == ApplyActions(actions[..i], original, facts, old(copy.fields))
      {
        ApplyActionsAppend(actions[..i], [actions[i]], original, facts, old(copy.fields));
        assert actions[..i + 1] == actions[..i] + [actions[i]];
        ApplyFieldTransformationAction(actions[i], original, copy, facts);
      }
      assert actions[..|actions|] == actions;
    }

    /** applyFieldTransformationAction: extract from the original, transform,
        set into the copy; an exception at any of the three steps is caught
        and the copy keeps its fields. */
    method ApplyFieldTransformationAction(action: FieldAction, original: ObjectState, copy: Instance, facts: Facts)
      requires copy.Valid()
      modifies copy
      ensures copy.Valid()
      ensures copy.fields == ApplyAction(action, original, facts, old(copy.fields))
    {
      match action.extract(original) {
        case Thrown(_) =>
        case Ok(fieldValue) =>
          match action.transform(fieldValue, facts) {
            case Thrown(_) =>
            case Ok(newFieldValue) =>
              match action.setter(copy.fields, newFieldValue) {
                case Thrown(_) =>
                case Ok(updated) =>
                  copy.fields := updated;
              }
          }
      }
    }
  }
}
