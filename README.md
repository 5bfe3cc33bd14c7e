# Rule-driven transformation and validation engine, modelled in Dafny

This project models the core of a Java rules engine. Callers give named
facts, conditions written as text, and field-level actions. The engine
decides which actions fire. It then changes a copy of an input object,
never the original.

The model covers five parts:

- **Generic transformer** (`Transformer`, with its specification in
  `TransformRules` and the copy operation in `Objects`). Transformer rules
  are kept in an ordered list that only grows. `transform` copies the
  object. Then, for each rule in order, it builds the facts: `"value"` bound
  to the original, with the rule's additional facts merged over it. It asks
  the rules engine whether the rule triggered. It runs the positive actions
  on the copy if it did, and the negative actions otherwise. Each action
  reads from the original and writes only to the copy. A failing action is
  skipped. A failing copy, or an exception from the engine, makes the call
  fail open: it returns the original itself. `transformWithResult` compares
  the output with the input.
- **Transformer service** (`TransformerService`). It is a façade over a
  registry of services keyed by name. It creates and registers
  transformers. It delegates to a transformer by name, falling back to the
  unchanged value, or to an Error result, when the lookup misses or the type
  does not match. It can gate a whole transformer on one rule. It can also
  turn a bare condition into a rule, and one variant rewrites `#coreData`
  to `#value` first (`Text` models Java's `String.replace`).
- **Rule evaluation** (`Engine`). Rules are evaluated in order, giving one
  result per rule. An exception is confined to the rule that raised it.
- **Validators** (`Validation`). A validator has a fixed name and type.
  The inherited `validateWithResult` maps `validate`'s boolean to Match or
  NoMatch. It has no handler, so an exception from `validate` passes out
  of it unchanged.
- **Shared data** (`Outcomes`, `Values`, `RuleModel`): null as `Option`,
  exceptions as `Try`, fact and field values, rules and rule results.

Three kinds of behaviour come from outside the model and are passed in as
function values. The first is the expression language: the rules engine's
`executeRulesList` and the evaluator's `evaluateWithResult`. These are the
types `RulesEngine` and `Evaluator`, and each may return `Thrown`. The
second is the caller's field actions: an extractor, a transformer and a
setter, each of which may raise. The third is a validator's own
`validate`, which may also raise. An object is an `Instance`: a class with
a fixed `ClassInfo` and a mutable field map. Its `State()` is what facts
and extractors see. The Java type check `Class.isInstance` is modelled as
equality of class names. `equals` is modelled as structural equality of
class and fields.

The source keeps the rule list in a defensive copy (`new ArrayList<>(…)`).
In Dafny a `seq` is a value, so a caller's later changes to its own list
cannot reach the transformer.

`applyRule` (GenericTransformerService.java:233-275) has no `try`/`catch`
around the engine call. So `ApplyRule` returns `Try`, and an engine
exception comes back out as `Thrown`.

## Model

| member | source | states |
|---|---|---|
| `Values.FactsFor` | rules-engine-core/src/main/java/dev/mars/rulesengine/core/service/transform/GenericTransformer.java:146-152 | the fact map's keys are "value" plus the additional keys; every additional fact keeps its value (so an additional "value" wins); otherwise "value" is the subject |
| `Values.FactsForNullIsEmpty` | rules-engine-core/src/main/java/dev/mars/rulesengine/core/service/transform/GenericTransformer.java:150-152 | a null additional-facts map gives the same facts as an empty one |
| `Validation.Validator.ValidateWithResult` | rules-engine-core/src/main/java/dev/mars/rulesengine/core/service/validation/Validator.java:25-32 | an exception from validate passes out unchanged; otherwise triggered exactly when validate returns true, then Match named after the validator with "Validation successful for " + name, else NoMatch with no name; never Error or NoRules |
| `Validation.GettersReturnConstructionArguments` | rules-engine-core/src/main/java/dev/mars/rulesengine/core/service/validation/AbstractValidator.java:19-36 | getName and getType return the name and type given at construction |
| `Validation.MatchCarriesConstructionName` | rules-engine-core/src/main/java/dev/mars/rulesengine/core/service/validation/AbstractValidator.java:25-27 | a triggered validateWithResult result is Match with the construction-time name and its success message |
| `Validation.ResultDependsOnlyOnValidate` | rules-engine-core/src/main/java/dev/mars/rulesengine/core/service/validation/Validator.java:26-31 | two validators with the same name that agree on validate give the same result, raising exactly when validate raises: the wrapper adds no condition and no handler of its own |
| `Engine.RuleOutcome` | rules-engine-core/src/main/java/dev/mars/rulesengine/core/service/engine/RuleEngineService.java:57-85 | triggered exactly when the evaluator returned MATCH, and then it is Match(rule name, rule message); Error exactly when the evaluator raised or returned ERROR, carrying the rule's name and the exception's or the evaluator's message; NoMatch otherwise |
| `Engine.RuleEngineService.constructor` | rules-engine-core/src/main/java/dev/mars/rulesengine/core/service/engine/RuleEngineService.java:19-25 | keeps the evaluator; printing starts enabled |
| `Engine.RuleEngineService.SetPrintResults` | rules-engine-core/src/main/java/dev/mars/rulesengine/core/service/engine/RuleEngineService.java:33-37 | sets the flag and returns the same service |
| `Engine.RuleEngineService.EvaluateRules` | rules-engine-core/src/main/java/dev/mars/rulesengine/core/service/engine/RuleEngineService.java:46-95 | null or empty rules give no results; otherwise exactly one result per rule, in rule order, each decided only by what the (pure) evaluator did with that rule's condition and the context; the print flag does not enter |
| `Objects.CreateCopy` | rules-engine-core/src/main/java/dev/mars/rulesengine/core/service/transform/GenericTransformer.java:202-218 | succeeds exactly when the class has a copy constructor or a default constructor; the copy is a new, well-formed object of the same class with equal fields (the field-by-field loop proved) |
| `Objects.Instance.Equals` | rules-engine-core/src/main/java/dev/mars/rulesengine/core/service/transform/GenericTransformer.java:125 | equals is reflexive, and two equal objects present the same class name and fields to facts and extractors |
| `TransformRules.ApplyAction` | rules-engine-core/src/main/java/dev/mars/rulesengine/core/service/transform/GenericTransformer.java:179-192 | an action keeps the copy's field names, and an action that raises at any of its three steps leaves the copy as it was |
| `TransformRules.ApplyActions` | rules-engine-core/src/main/java/dev/mars/rulesengine/core/service/transform/GenericTransformer.java:160-167 | running an action list keeps the copy's field names |
| `TransformRules.ApplyRules` | rules-engine-core/src/main/java/dev/mars/rulesengine/core/service/transform/GenericTransformer.java:99-101 | a successful pass over the rules keeps the copy's field names |
| `TransformRules.TransformResult` | rules-engine-core/src/main/java/dev/mars/rulesengine/core/service/transform/GenericTransformer.java:89-108 | a transformed result has exactly the input's field names |
| `TransformRules.ApplyActionsAppend` | rules-engine-core/src/main/java/dev/mars/rulesengine/core/service/transform/GenericTransformer.java:160-167 | actions run in list order: running xs + ys is running xs, then ys on the result |
| `TransformRules.ApplyRulesAppend` | rules-engine-core/src/main/java/dev/mars/rulesengine/core/service/transform/GenericTransformer.java:99-101 | rules run in list order: xs + ys is xs, then ys; an exception in xs stops the pass |
| `TransformRules.FailingActionSkipped` | rules-engine-core/src/main/java/dev/mars/rulesengine/core/service/transform/GenericTransformer.java:179-192 | an action that raises where it runs is skipped: the actions before and after it give the same copy as if it were not in the list |
| `TransformRules.ApplyRulesOkIffEngineAccepts` | rules-engine-core/src/main/java/dev/mars/rulesengine/core/service/transform/GenericTransformer.java:99-107 | field actions never abort the rules pass: it raises exactly when the engine raises on some rule (both directions) |
| `TransformRules.FailsOpenExactlyWhen` | rules-engine-core/src/main/java/dev/mars/rulesengine/core/service/transform/GenericTransformer.java:94-107 | transform returns the original itself exactly when the copy cannot be made or the engine raises on some rule |
| `TransformRules.LastWriteWins` | rules-engine-core/src/main/java/dev/mars/rulesengine/core/service/transform/GenericTransformer.java:181-188 | if action k writes field f and no later action touches f, then f ends up holding the value action k computed from the original, whatever earlier actions did to the copy |
| `TransformRules.SingleRuleBranch` | rules-engine-core/src/main/java/dev/mars/rulesengine/core/service/transform/GenericTransformer.java:155-168 | when the rule's result is triggered, exactly the positive actions run on the copy; otherwise (NoMatch, Error, NoRules) exactly the negative ones |
| `TransformRules.NoRulesYieldsEqualCopy` | rules-engine-core/src/main/java/dev/mars/rulesengine/core/service/transform/GenericTransformer.java:94-103 | with no rules the result is a copy equal to the input, so nothing counts as transformed |
| `Transformer.GenericTransformer.constructor` | rules-engine-core/src/main/java/dev/mars/rulesengine/core/service/transform/GenericTransformer.java:40-45 | keeps name, type and engine; the rule list is the given one, or empty for null |
| `Transformer.GenericTransformer.AddTransformationRule` | rules-engine-core/src/main/java/dev/mars/rulesengine/core/service/transform/GenericTransformer.java:77-81 | a non-null rule is appended at the end and nothing else in the list changes; null is ignored |
| `Transformer.GenericTransformer.Transform` | rules-engine-core/src/main/java/dev/mars/rulesengine/core/service/transform/GenericTransformer.java:89-108 | null gives null; on fail open the original itself; otherwise a fresh object of the same class with TransformResult's fields; no object that existed before the call is changed, so the original is not |
| `Transformer.GenericTransformer.TransformWithResult` | rules-engine-core/src/main/java/dev/mars/rulesengine/core/service/transform/GenericTransformer.java:116-135 | Error(name, "Value is null") for null; a non-null input never gives Error; triggered exactly when the output differs from the input, as Match(name, "Value transformed successfully"), else NoMatch |
| `Transformer.GenericTransformer.ApplyTransformationRule` | rules-engine-core/src/main/java/dev/mars/rulesengine/core/service/transform/GenericTransformer.java:144-169 | the copy's new fields are RuleStep's; an engine exception is reported with the copy untouched |
| `Transformer.GenericTransformer.ApplyActionsInOrder` | rules-engine-core/src/main/java/dev/mars/rulesengine/core/service/transform/GenericTransformer.java:158-168 | the loop over an action list leaves the copy as ApplyActions gives |
| `Transformer.GenericTransformer.ApplyFieldTransformationAction` | rules-engine-core/src/main/java/dev/mars/rulesengine/core/service/transform/GenericTransformer.java:179-192 | extract from the original, transform, set into the copy; an exception at any step is caught and the copy keeps its fields |
| `Text.Replace` | rules-engine-core/src/main/java/dev/mars/rulesengine/core/service/transform/GenericTransformerService.java:324 | String.replace on a non-empty target, left to right and non-overlapping: a string shorter than the target is returned unchanged |
| `Text.ReplaceWithoutOccurrence` | rules-engine-core/src/main/java/dev/mars/rulesengine/core/service/transform/GenericTransformerService.java:324 | a condition with no occurrence of the target is left unchanged |
| `Text.NoCoreDataAfterRewrite` | rules-engine-core/src/main/java/dev/mars/rulesengine/core/service/transform/GenericTransformerService.java:324 | after replacing "#coreData" with "#value", no "#coreData" is left anywhere in the condition |
| `TransformerService.LookupTransformer` | rules-engine-core/src/main/java/dev/mars/rulesengine/core/service/transform/GenericTransformerService.java:170 | gives a transformer exactly when one is registered under the name, and then the registered one |
| `TransformerService.LookupCondition` | rules-engine-core/src/main/java/dev/mars/rulesengine/core/service/transform/GenericTransformerService.java:324 | the rewritten condition contains no "#coreData" |
| `TransformerService.LookupServiceRegistry.RegisterService` | rules-engine-core/src/main/java/dev/mars/rulesengine/core/service/transform/GenericTransformerService.java:53 | registers the service under its own name, replacing any earlier entry, and keeps every entry keyed by its service's name |
| `TransformerService.LookupServiceRegistry.GetTransformer` | rules-engine-core/src/main/java/dev/mars/rulesengine/core/service/transform/GenericTransformerService.java:170 | returns the transformer registered under the name, or null |
| `TransformerService.GenericTransformerService.constructor` | rules-engine-core/src/main/java/dev/mars/rulesengine/core/service/transform/GenericTransformerService.java:35-39 | keeps the registry and the rules engine |
| `TransformerService.GenericTransformerService.CreateTransformer` | rules-engine-core/src/main/java/dev/mars/rulesengine/core/service/transform/GenericTransformerService.java:50-55 | a fresh transformer over the given rules (empty for null) with the service's engine, registered under its name, and that same instance returned; the rest of the registry is unchanged |
| `TransformerService.GenericTransformerService.CreateSingleRuleTransformer` | rules-engine-core/src/main/java/dev/mars/rulesengine/core/service/transform/GenericTransformerService.java:68-81 | as CreateTransformer, with exactly one transformer rule and no additional facts |
| `TransformerService.GenericTransformerService.CreateSingleRuleTransformerWithFacts` | rules-engine-core/src/main/java/dev/mars/rulesengine/core/service/transform/GenericTransformerService.java:95-109 | as CreateTransformer, with exactly one transformer rule carrying the given additional facts |
| `TransformerService.GenericTransformerService.TransformWith` | rules-engine-core/src/main/java/dev/mars/rulesengine/core/service/transform/GenericTransformerService.java:119-132 | null gives null; otherwise exactly what a new transformer over those rules and the service's engine makes of the value; a result other than the value itself is a fresh object |
| `TransformerService.GenericTransformerService.TransformWithResultWith` | rules-engine-core/src/main/java/dev/mars/rulesengine/core/service/transform/GenericTransformerService.java:142-155 | Error("DynamicTransformer", "Value is null") for null; otherwise never Error, and Match under the dynamic name exactly when the output differs from the input |
| `TransformerService.GenericTransformerService.Transform` | rules-engine-core/src/main/java/dev/mars/rulesengine/core/service/transform/GenericTransformerService.java:166-185 | the value itself on a lookup miss or a type mismatch; otherwise what the registered transformer makes of it; a result other than the value itself is a fresh object |
| `TransformerService.GenericTransformerService.TransformWithResult` | rules-engine-core/src/main/java/dev/mars/rulesengine/core/service/transform/GenericTransformerService.java:195-220 | Error "Transformer not found" on a miss; Error "Transformer cannot handle type: " + class name on a mismatch; otherwise the transformer's own result (Error "Value is null" for null, else Match exactly when changed); in a well-formed registry every named result carries the requested name |
| `TransformerService.GenericTransformerService.ApplyRule` | rules-engine-core/src/main/java/dev/mars/rulesengine/core/service/transform/GenericTransformerService.java:233-275 | the value on a miss or a mismatch; otherwise the rule is evaluated against "value" plus the additional facts, the value is transformed only when the result is triggered and returned as it is otherwise; an engine exception propagates; a result other than the value itself is a fresh object |
| `TransformerService.GenericTransformerService.ApplyRuleCondition` | rules-engine-core/src/main/java/dev/mars/rulesengine/core/service/transform/GenericTransformerService.java:288-300 | applyRule with the rule "Transformation Rule", the condition, and "Transformation rule with condition: " + condition |
| `TransformerService.GenericTransformerService.ApplyRuleConditionWithLookupData` | rules-engine-core/src/main/java/dev/mars/rulesengine/core/service/transform/GenericTransformerService.java:314-330 | applyRule with "lookupData" as the only additional fact, and the condition with every "#coreData" rewritten to "#value"; the message keeps the condition as given |
| `TransformerService.GenericTransformerService.CreateCopy` | rules-engine-core/src/main/java/dev/mars/rulesengine/core/service/transform/GenericTransformerService.java:366-386 | null gives null; otherwise the shared copy: it succeeds exactly when the class has a usable constructor, and gives a fresh, equal object |

## Left out

- The expression language (SpEL) is not modelled. The rules engine and the evaluator are function parameters that return a result or raise. The dependency extractor, `ValidationService`, and `executeRulesList`'s collapse to NoRules are not part of this model.
- Transformer.GenericTransformer.constructor: the source replaces a null rules engine with a default one (GenericTransformer.java:43). It also has a constructor without an engine (lines 54-56). `RulesEngine` is not part of this model, so the engine is always given.
- Transformer.GenericTransformer.Transform: the reflective details of `createCopy` are not modelled. These are accessibility, a copy constructor that raises, a default constructor that raises (`newInstance` wraps that in `InvocationTargetException`, and `transform` then fails open, while `CanCopy` counts the class as copyable), and a `field.set` that fails. The most common case of the last is a `static final` field: `getDeclaredFields()` includes static fields, and `Field.set` on a `static final` field raises `IllegalAccessException` even after `setAccessible(true)`. So in Java a class that has no copy constructor and declares, say, a `serialVersionUID` cannot be copied and `transform` fails open, while `CanCopy` counts it as copyable. A copy constructor is taken to copy every field.
- Transformer.GenericTransformer.Transform: the caller's extractors and transformers are modelled as pure functions. In Java they receive the original and could change it through its setters. A field transformer also receives the rule's facts `HashMap` itself (GenericTransformer.java:185) and could `put` into it before the next action runs, and a condition could change an object held in the additional facts. The model treats both the original and the facts map as immutable and does not cover such changes.
- Engine.RuleEngineService.EvaluateRules: every rule is evaluated against one shared, mutable `EvaluationContext` (RuleEngineService.java:59). A SpEL assignment or a side-effecting method in one condition can change what later rules see, so two rules with the same condition may give different results. The model's evaluator is a pure function of the condition and the context, so each result depends only on its own rule, and a context changed by an earlier rule is not modelled.
- Transformer.GenericTransformer.Transform: Java's copy is shallow, so objects reachable from the fields are shared by the copy and the original. A setter that changes such a shared object, or a condition that changes the original it receives as "value", changes the original. The model's `Ref` values are immutable snapshots, so "the original is not changed" holds here by construction and does not cover that.
- Transformer.GenericTransformer.Transform: the default-constructor path copies only the class's declared fields, so inherited fields keep their default values. The model has no superclasses, and `Objects.CreateCopy` promises a copy equal in every field.
- Transformer.GenericTransformer.ApplyFieldTransformationAction: a setter either takes effect completely or raises with the copy unchanged. A Java setter that changes part of the object and then raises is not modelled.
- Null action lists, a null rule inside a `TransformerRule`, and null elements in a rule list are not modelled. In Java these raise a NullPointerException.
- The `catch` blocks at GenericTransformer.java:132-134 and GenericTransformerService.java:216-219 cannot be reached in the model. `transform` catches every `Exception` (GenericTransformer.java:104), and structural equality cannot raise. A `java.lang.Error` from an action or the engine escapes both `transform` and `transformWithResult`; Errors are not modelled. A user `equals` that raises, and the identity `equals` of classes that do not override it, are not modelled.
- `Class.isInstance` is modelled as class-name equality, so subclasses are not covered.
- `createFieldTransformerAction` (GenericTransformerService.java:342-354) is the `FieldAction` datatype constructor. `getName`/`getType` of the transformer are its constant fields.
- `RuleResult` ids and timestamps are not modelled. The clock-based name "DynamicTransformer-" + time is the parameter `dynamicName`.
- Logging, console printing and `printStackTrace` are left out; they are side output only.
- `LookupServiceRegistry` is not part of this model beyond registering under a service's name and looking up by name and kind. Its thread safety is not modelled.
- `Text.Replace` models `String.replace` only for a non-empty target, the only use here.
