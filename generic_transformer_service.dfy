/** The transformer service: a name-keyed façade over a registry of
    transformers, with fail-open fallbacks for unknown names and
    incompatible types. */
module TransformerService {
  import opened Outcomes
  import opened Values
  import opened RuleModel
  import opened Objects
  import opened TransformRules
  import opened Transformer
  import Text

  /** A registered service: a transformer, or some other named service
      (a validator, a lookup service) the transformer lookups skip. */
  datatype NamedService = TransformerEntry(transformer: GenericTransformer) | OtherService(serviceName: string)
  {
    function Name(): string {
      match this
      case TransformerEntry(t) => t.name
      case OtherService(n) => n
    }
  }

  /** The transformer registered under `name`, or null when there is none
      (nothing under that name, or a service of another kind). */
  function LookupTransformer(services: map<string, NamedService>, name: string): (t: GenericTransformer?)
    ensures t != null <==> name in services && services[name].TransformerEntry?
    ensures t != null ==> services[name] == TransformerEntry(t)
  {
    if name in services && services[name].TransformerEntry? then services[name].transformer else null
  }

  /** The registry of named services, keyed by each service's own name; a
      second registration under a name replaces the first. */
  class LookupServiceRegistry {
    var services: map<string, NamedService>

    ghost predicate Valid()
      reads this
    {
      forall name :: name in services ==> services[name].Name() == name
    }

    constructor ()
      ensures Valid() && services == map[]
    {
      services := map[];
    }

    method RegisterService(service: NamedService)
      requires Valid()
      modifies this
      ensures Valid()
      ensures services == old(services)[service.Name() := service]
    {
      services := services[service.Name() := service];
    }

    method GetTransformer(name: string) returns (t: GenericTransformer?)
      ensures t == LookupTransformer(services, name)
    {
      t := LookupTransformer(services, name);
    }
  }

  /** The type check before delegating: a null value passes, otherwise the
      value's class must be the transformer's type (class identity stands
      for Java's isInstance; subclasses are not modelled). */
  predicate Handles(t: GenericTransformer, value: Instance?)
    reads value
  {
    value == null || value.cls.name == t.typeName
  }

  /** The fact bound as "value": the object's state, or Null. */
  function Subject(value: Instance?): Value
    reads value
  {
    if value == null then Null else Ref(value.State())
  }

  /** The rule built from a bare condition. */
  function ConditionRule(condition: string, described: string): Rule {
    Rule("Transformation Rule", condition, "Transformation rule with condition: " + described)
  }

  /** The condition of the lookup-data overload: "#coreData" rewritten to
      "#value". */
  function LookupCondition(condition: string): (c: string)
    ensures forall i: nat :: !Text.OccursAt(c, "#coreData", i)
  {
    Text.NoCoreDataAfterRewrite(condition);
    Text.Replace(condition, "#coreData", "#value")
  }

  class GenericTransformerService {
    const registry: LookupServiceRegistry
    const engine: RulesEngine

    constructor (registry: LookupServiceRegistry, engine: RulesEngine)
      ensures this.registry == registry && this.engine == engine
    {
      this.registry := registry;
      this.engine := engine;
    }

    /** What applyRule promises: on a lookup miss or a type mismatch the
        value itself; otherwise the rule is evaluated by this service's
        engine against "value" bound to the value plus the additional
        facts, and the value is transformed by the registered transformer
        only when the result is triggered. An engine exception propagates. */
    ghost predicate AppliedAs(rule: Rule, value: Instance?, additionalFacts: Option<Facts>, transformerName: string, r: Try<Instance?>)
      reads registry, value, (if r.Ok? then r.value else null), LookupTransformer(registry.services, transformerName)
    {
      var t := LookupTransformer(registry.services, transformerName);
      if t == null || !Handles(t, value) then r == Ok(value)
      else
        match engine([rule], FactsFor(Subject(value), additionalFacts))
        case Thrown(e) => r == Thrown(e)
        case Ok(result) =>
          if result.IsTriggered() then r.Ok? && TransformedAs(t.transformerRules, t.engine, value, r.value)
          else r == Ok(value)
    }

    /** Builds a transformer over the given rules (null gives none), registers
        it under its name and returns that same instance. */
    method CreateTransformer(name: string, typeName: string, transformerRules: Option<seq<TransformerRule>>) returns (t: GenericTransformer)
      requires registry.Valid()
      modifies registry
      ensures registry.Valid()
      ensures fresh(t) && t.name == name && t.typeName == typeName && t.engine == engine
      ensures t.transformerRules == transformerRules.GetOr([])
      ensures registry.services == old(registry.services)[name := TransformerEntry(t)]
      ensures LookupTransformer(registry.services, name) == t
    {
      t := new GenericTransformer(name, typeName, engine, transformerRules);
      registry.RegisterService(TransformerEntry(t));
    }

    /** The single-rule overload: exactly one transformer rule, with no
        additional facts. */
    method CreateSingleRuleTransformer(name: string, typeName: string, rule: Rule,
                                       positiveActions: seq<FieldAction>, negativeActions: seq<FieldAction>)
      returns (t: GenericTransformer)
      requires registry.Valid()
      modifies registry
      ensures registry.Valid()
      ensures fresh(t) && t.name == name && t.typeName == typeName && t.engine == engine
      ensures t.transformerRules == [TransformerRule(rule, positiveActions, negativeActions, None)]
      ensures registry.services == old(registry.services)[name := TransformerEntry(t)]
    {
      t := CreateTransformer(name, typeName, Some([TransformerRule(rule, positiveActions, negativeActions, None)]));
    }

    /** The single-rule overload with additional facts. */
    method CreateSingleRuleTransformerWithFacts(name: string, typeName: string, rule: Rule,
                                                positiveActions: seq<FieldAction>, negativeActions: seq<FieldAction>,
                                                additionalFacts: Option<Facts>)
      returns (t: GenericTransformer)
      requires registry.Valid()
      modifies registry
      ensures registry.Valid()
      ensures fresh(t) && t.name == name && t.typeName == typeName && t.engine == engine
      ensures t.transformerRules == [TransformerRule(rule, positiveActions, negativeActions, additionalFacts)]
      ensures registry.services == old(registry.services)[name := TransformerEntry(t)]
    {
      t := CreateTransformer(name, typeName, Some([TransformerRule(rule, positiveActions, negativeActions, additionalFacts)]));
    }

    /** transform(value, rules): null for null, otherwise exactly what a new,
        unregistered transformer over those rules makes of the value. The
        clock-based name of that transformer is the parameter `dynamicName`. */
    method TransformWith(value: Instance?, transformerRules: Option<seq<TransformerRule>>, dynamicName: string) returns (r: Instance?)
      requires value != null ==> value.Valid()
      ensures TransformedAs(transformerRules.GetOr([]), engine, value, r)
      ensures r != null && r != value ==> fresh(r)
    {
      if value == null {
        return null;
      }
      var transformer := new GenericTransformer(dynamicName, value.cls.name, engine, transformerRules);
      r := transformer.Transform(value);
    }

    /** transformWithResult(value, rules): Error named "DynamicTransformer"
        for null; otherwise Match under the dynamic name exactly when the
        output differs from the input, else NoMatch. */
    method TransformWithResultWith(value: Instance?, transformerRules: Option<seq<TransformerRule>>, dynamicName: string)
      returns (r: RuleResult)
      requires value != null ==> value.Valid()
      ensures value == null ==> r == Error("DynamicTransformer", "Value is null")
      ensures value != null ==> !r.Error? && !r.NoRules?
      ensures value != null ==>
                (r.IsTriggered() <==> Changes(transformerRules.GetOr([]), engine, value.cls, value.fields))
      ensures r.IsTriggered() ==> r == Match(dynamicName, "Value transformed successfully")
    {
      if value == null {
        return Error("DynamicTransformer", "Value is null");
      }
      var transformer := new GenericTransformer(dynamicName, value.cls.name, engine, transformerRules);
      r := transformer.TransformWithResult(value);
    }

    /** transform(name, value): the value itself on a lookup miss or a type
        mismatch; otherwise what the registered transformer makes of it. */
    method Transform(transformerName: string, value: Instance?) returns (r: Instance?)
      requires value != null ==> value.Valid()
      ensures var t := LookupTransformer(registry.services, transformerName);
              if t == null || !Handles(t, value) then r == value
              else TransformedAs(t.transformerRules, t.engine, value, r)
      ensures r != null && r != value ==> fresh(r)
    {
      var transformer := registry.GetTransformer(transformerName);
      if transformer == null {
        return value;
      }
      if value != null && value.cls.name != transformer.typeName {
        return value;
      }
      r := transformer.Transform(value);
    }

    /** transformWithResult(name, value): Error "Transformer not found" on a
        lookup miss, Error "Transformer cannot handle type: ..." on a type
        mismatch, otherwise the registered transformer's own result. Every
        result that names a rule names the requested transformer. */
    method TransformWithResult(transformerName: string, value: Instance?) returns (r: RuleResult)
      requires value != null ==> value.Valid()
      ensures var t := LookupTransformer(registry.services, transformerName);
              && (t == null ==> r == Error(transformerName, "Transformer not found"))
              && (t != null && !Handles(t, value) ==>
                    r == Error(transformerName, "Transformer cannot handle type: " + value.cls.name))
              && (t != null && value == null ==> r == Error(t.name, "Value is null"))
              && (t != null && value != null && Handles(t, value) ==>
                    !r.Error? && !r.NoRules? &&
                    (r.IsTriggered() <==> Changes(t.transformerRules, t.engine, value.cls, value.fields)) &&
                    (r.IsTriggered() ==> r == Match(t.name, "Value transformed successfully")))
      ensures registry.Valid() && r.RuleName().Some? ==> r.RuleName() == Some(transformerName)
    {
      var transformer := registry.GetTransformer(transformerName);
      if transformer == null {
        return Error(transformerName, "Transformer not found");
      }
      if value != null && value.cls.name != transformer.typeName {
        return Error(transformerName, "Transformer cannot handle type: " + value.cls.name);
      }
      r := transformer.TransformWithResult(value);
    }

    /** applyRule: gates a whole registered transformer on one rule. */
    method ApplyRule(rule: Rule, value: Instance?, additionalFacts: Option<Facts>, transformerName: string) returns (r: Try<Instance?>)
      requires value != null ==> value.Valid()
      ensures AppliedAs(rule, value, additionalFacts, transformerName, r)
      ensures r.Ok? && r.value != null && r.value != value ==> fresh(r.value)
    {
      var transformer := registry.GetTransformer(transformerName);
      if transformer == null {
        return Ok(value);
      }
      if value != null && value.cls.name != transformer.typeName {
        return Ok(value);
      }
      var facts := FactsFor(Subject(value), additionalFacts);
      match engine([rule], facts) {
        case Thrown(e) =>
          return Thrown(e);
        case Ok(result) =>
          if result.IsTriggered() {
            var transformed := transformer.Transform(value);
            return Ok(transformed);
          } else {
            return Ok(value);
          }
      }
    }

    /** applyRuleCondition with additional facts: the condition becomes a
        rule named "Transformation Rule", then applyRule. */
    method ApplyRuleCondition(condition: string, value: Instance?, additionalFacts: Option<Facts>, transformerName: string)
      returns (r: Try<Instance?>)
      requires value != null ==> value.Valid()
      ensures AppliedAs(ConditionRule(condition, condition), value, additionalFacts, transformerName, r)
      ensures r.Ok? && r.value != null && r.value != value ==> fresh(r.value)
    {
      var rule := ConditionRule(condition, condition);
      r := ApplyRule(rule, value, additionalFacts, transformerName);
    }

    /** applyRuleCondition with lookup data: the only additional fact is
        "lookupData", and the rule's condition has every "#coreData"
        rewritten to "#value" (its message keeps the condition as given). */
    method ApplyRuleConditionWithLookupData(condition: string, value: Instance?, lookupData: Value, transformerName: string)
      returns (r: Try<Instance?>)
      requires value != null ==> value.Valid()
      ensures AppliedAs(ConditionRule(LookupCondition(condition), condition), value,
                        Some(map["lookupData" := lookupData]), transformerName, r)
      ensures r.Ok? && r.value != null && r.value != value ==> fresh(r.value)
    {
      var additionalFacts := map["lookupData" := lookupData];
      var rule := ConditionRule(LookupCondition(condition), condition);
      r := ApplyRule(rule, value, Some(additionalFacts), transformerName);
    }

    /** The service's public createCopy: null for null, otherwise the shared
        copy operation. */
    method CreateCopy(value: Instance?) returns (r: Try<Instance?>)
      requires value != null ==> value.Valid()
      ensures value == null ==> r == Ok(null)
      ensures value != null ==> (r.Ok? <==> CanCopy(value.cls))
      ensures value != null && r.Ok? ==>
                r.value != null && fresh(r.value) && r.value.cls == value.cls && r.value.fields == value.fields
    {
      if value == null {
        return Ok(null);
      }
      var copy := Objects.CreateCopy(value);
      match copy {
        case Thrown(e) => return Thrown(e);
        case Ok(c) => return Ok(c);
      }
    }
  }
}
