/** Transformation rules and the meaning of applying them: the specification
    the generic transformer is proved against. */
module TransformRules {
  import opened Outcomes
  import opened Values
  import opened RuleModel
  import opened Objects

  /** A setter changes the values of an object's fields; it cannot add or
      remove fields. */
  predicate KeepsFieldNames(fields: FieldMap, written: Try<FieldMap>) {
    written.Ok? ==> written.value.Keys == fields.Keys
  }

  /** A field setter, as a function from the copy's fields and the new value
      to the copy's new fields, or an exception. */
  type Setter = s: (FieldMap, Value) -> Try<FieldMap> | forall m, v :: KeepsFieldNames(m, s(m, v))
    witness (m: FieldMap, v: Value) => Thrown("no setter")

  /** A field transformer action: read a value from the original, compute a
      new value from it and the facts, write that into the copy. Each of the
      three may raise. The field name is for diagnostics only. */
  datatype FieldAction = FieldAction(
    fieldName: string,
    extract: ObjectState -> Try<Value>,
    transform: (Value, Facts) -> Try<Value>,
    setter: Setter)

  /** A rule with the actions to run when it triggers (positive) and when it
      does not (negative), and facts merged into its evaluation context
      (None stands for a null map). */
  datatype TransformerRule = TransformerRule(
    rule: Rule,
    positiveActions: seq<FieldAction>,
    negativeActions: seq<FieldAction>,
    additionalFacts: Option<Facts>)

  /** The value an action writes: extracted from the ORIGINAL and transformed
      with the facts. The copy does not enter into it. */
  function NewValue(action: FieldAction, original: ObjectState, facts: Facts): Try<Value> {
    match action.extract(original)
    case Thrown(e) => Thrown(e)
    case Ok(v) => action.transform(v, facts)
  }

  /** The copy's fields after the action, or the exception it raised. */
  function Attempt(action: FieldAction, original: ObjectState, facts: Facts, copy: FieldMap): Try<FieldMap> {
    match NewValue(action, original, facts)
    case Thrown(e) => Thrown(e)
    case Ok(v) => action.setter(copy, v)
  }

  predicate Succeeds(action: FieldAction, original: ObjectState, facts: Facts, copy: FieldMap) {
    Attempt(action, original, facts, copy).Ok?
  }

  /** One action with its exception caught: a failing action leaves the copy
      as it was. */
  function ApplyAction(action: FieldAction, original: ObjectState, facts: Facts, copy: FieldMap): (r: FieldMap)
    ensures r.Keys == copy.Keys
    ensures !Succeeds(action, original, facts, copy) ==> r == copy
  {
    match Attempt(action, original, facts, copy)
    case Thrown(_) => copy
    case Ok(m) => m
  }

  /** A list of actions, in list order, each with its exception caught. */
  function ApplyActions(actions: seq<FieldAction>, original: ObjectState, facts: Facts, copy: FieldMap): (r: FieldMap)
    ensures r.Keys == copy.Keys
    decreases |actions|
  {
    if actions == [] then copy
    else ApplyActions(actions[1..], original, facts, ApplyAction(actions[0], original, facts, copy))
  }

  /** The facts a transformer rule is evaluated against. */
  function RuleFacts(tr: TransformerRule, original: ObjectState): Facts {
    FactsFor(Ref(original), tr.additionalFacts)
  }

  /** The actions a rule result selects: the positive ones exactly when the
      result is triggered, the negative ones otherwise (NoMatch, Error or
      NoRules alike). */
  function SelectedActions(tr: TransformerRule, result: RuleResult): seq<FieldAction> {
    if result.IsTriggered() then tr.positiveActions else tr.negativeActions
  }

  /** What the rules engine makes of one transformer rule. */
  function Evaluate(tr: TransformerRule, engine: RulesEngine, original: ObjectState): Try<RuleResult> {
    engine([tr.rule], RuleFacts(tr, original))
  }

  /** One transformer rule: evaluate it, then run the selected actions on the
      copy. An exception from the engine is not caught here. */
  function RuleStep(tr: TransformerRule, engine: RulesEngine, original: ObjectState, copy: FieldMap): Try<FieldMap> {
    match Evaluate(tr, engine, original)
    case Thrown(e) => Thrown(e)
    case Ok(result) => Ok(ApplyActions(SelectedActions(tr, result), original, RuleFacts(tr, original), copy))
  }

  /** All transformer rules in list order; the first exception stops the pass. */
  function ApplyRules(trs: seq<TransformerRule>, engine: RulesEngine, original: ObjectState, copy: FieldMap): (r: Try<FieldMap>)
    ensures r.Ok? ==> r.value.Keys == copy.Keys
    decreases |trs|
  {
    if trs == [] then Ok(copy)
    else
      match RuleStep(trs[0], engine, original, copy)
      case Thrown(e) => Thrown(e)
      case Ok(m) => ApplyRules(trs[1..], engine, original, m)
  }

  /** transform on a non-null object of class `cls` with fields `fields`:
      the fields of the returned copy, or None when the call fails open and
      returns the original itself (the copy could not be made, or the rules
      pass raised). */
  function TransformResult(trs: seq<TransformerRule>, engine: RulesEngine, cls: ClassInfo, fields: FieldMap): (r: Option<FieldMap>)
    ensures r.Some? ==> r.value.Keys == fields.Keys
  {
    if !CanCopy(cls) then None
    else
      match ApplyRules(trs, engine, ObjectState(cls.name, fields), fields)
      case Thrown(_) => None
      case Ok(m) => Some(m)
  }

  /** Whether transform returns something not equal to its input. On fail
      open it returns the input itself; a copy has the input's class, so it
      differs exactly when its fields do. */
  predicate Changes(trs: seq<TransformerRule>, engine: RulesEngine, cls: ClassInfo, fields: FieldMap) {
    match TransformResult(trs, engine, cls, fields)
    case None => false
    case Some(m) => m != fields
  }

  // ---------------------------------------------------------------------
  // Properties

  /** Running two action lists one after the other is running their
      concatenation. */
  lemma {:induction false} ApplyActionsAppend(xs: seq<FieldAction>, ys: seq<FieldAction>, original: ObjectState, facts: Facts, copy: FieldMap)
    ensures ApplyActions(xs + ys, original, facts, copy)
            == ApplyActions(ys, original, facts, ApplyActions(xs, original, facts, copy))
    decreases |xs|
  {
    if xs == [] {
      assert xs + ys == ys;
    } else {
      assert (xs + ys)[0] == xs[0];
      assert (xs + ys)[1..] == xs[1..] + ys;
      ApplyActionsAppend(xs[1..], ys, original, facts, ApplyAction(xs[0], original, facts, copy));
    }
  }

  /** Running two rule lists one after the other is running their
      concatenation; an exception in the first stops the second. */
  lemma {:induction false} ApplyRulesAppend(xs: seq<TransformerRule>, ys: seq<TransformerRule>, engine: RulesEngine, original: ObjectState, copy: FieldMap)
    ensures ApplyRules(xs + ys, engine, original, copy)
            == match ApplyRules(xs, engine, original, copy)
               case Thrown(e) => Thrown(e)
               case Ok(m) => ApplyRules(ys, engine, original, m)
    decreases |xs|
  {
    if xs == [] {
      assert xs + ys == ys;
    } else {
      assert (xs + ys)[0] == xs[0];
      assert (xs + ys)[1..] == xs[1..] + ys;
      match RuleStep(xs[0], engine, original, copy)
      case Thrown(e) =>
      case Ok(m) => ApplyRulesAppend(xs[1..], ys, engine, original, m);
    }
  }

  /** Failure isolation: an action that raises at the point it runs is
      skipped, and the actions before and after it run as if it were not in
      the list. */
  lemma FailingActionSkipped(pre: seq<FieldAction>, action: FieldAction, post: seq<FieldAction>, original: ObjectState, facts: Facts, copy: FieldMap)
    requires !Succeeds(action, original, facts, ApplyActions(pre, original, facts, copy))
    ensures ApplyActions(pre + [action] + post, original, facts, copy)
            == ApplyActions(pre + post, original, facts, copy)
  {
    var mid := ApplyActions(pre, original, facts, copy);
    ApplyActionsAppend(pre + [action], post, original, facts, copy);
    ApplyActionsAppend(pre, [action], original, facts, copy);
    assert ApplyActions([action], original, facts, mid) == mid;
    ApplyActionsAppend(pre, post, original, facts, copy);
  }

  /** Whether the engine evaluates a transformer rule without raising. Only
      the original and the rule's own facts enter into it, never the copy. */
  predicate EngineAccepts(tr: TransformerRule, engine: RulesEngine, original: ObjectState) {
    Evaluate(tr, engine, original).Ok?
  }

  /** Field actions never abort the rules pass: it raises exactly when the
      engine raises on some rule. */
  lemma {:induction false} ApplyRulesOkIffEngineAccepts(trs: seq<TransformerRule>, engine: RulesEngine, original: ObjectState, copy: FieldMap)
    ensures ApplyRules(trs, engine, original, copy).Ok?
            <==> forall i :: 0 <= i < |trs| ==> EngineAccepts(trs[i], engine, original)
    decreases |trs|
  {
    if trs != [] {
      assert forall i :: 0 <= i < |trs| - 1 ==> trs[1..][i] == trs[i + 1];
      match RuleStep(trs[0], engine, original, copy)
      case Thrown(e) =>
        assert !EngineAccepts(trs[0], engine, original);
      case Ok(m) =>
        ApplyRulesOkIffEngineAccepts(trs[1..], engine, original, m);
    }
  }

  /** Fail open: transform returns the original itself exactly when the copy
      cannot be made or the engine raises on some rule. */
  lemma FailsOpenExactlyWhen(trs: seq<TransformerRule>, engine: RulesEngine, cls: ClassInfo, fields: FieldMap)
    ensures TransformResult(trs, engine, cls, fields).None?
            <==> !CanCopy(cls)
                 || exists i :: 0 <= i < |trs| && !EngineAccepts(trs[i], engine, ObjectState(cls.name, fields))
  {
    ApplyRulesOkIffEngineAccepts(trs, engine, ObjectState(cls.name, fields), fields);
  }

  /** The setter writes exactly field f with the new value. */
  ghost predicate WritesField(setter: Setter, f: string) {
    forall m: FieldMap, v: Value :: f in m ==> setter(m, v) == Ok(m[f := v])
  }

  /** The setter leaves field f as it was. */
  ghost predicate KeepsField(setter: Setter, f: string) {
    forall m: FieldMap, v: Value :: f in m && setter(m, v).Ok? ==> setter(m, v).value[f] == m[f]
  }

  lemma {:induction false} KeepsFieldThroughActions(actions: seq<FieldAction>, original: ObjectState, facts: Facts, copy: FieldMap, f: string)
    requires f in copy
    requires forall j :: 0 <= j < |actions| ==> KeepsField(actions[j].setter, f)
    ensures ApplyActions(actions, original, facts, copy)[f] == copy[f]
    decreases |actions|
  {
    if actions != [] {
      var next := ApplyAction(actions[0], original, facts, copy);
      assert next[f] == copy[f];
      assert forall j :: 0 <= j < |actions| - 1 ==> actions[1..][j] == actions[j + 1];
      KeepsFieldThroughActions(actions[1..], original, facts, next, f);
    }
  }

  /** Last write wins, and what is written comes from the original: when
      action k writes field f and no later action touches f, the field ends
      up holding the value action k computed from the ORIGINAL, whatever the
      earlier actions did to the copy. */
  lemma LastWriteWins(actions: seq<FieldAction>, k: nat, original: ObjectState, facts: Facts, copy: FieldMap, f: string)
    requires k < |actions| && f in copy
    requires WritesField(actions[k].setter, f)
    requires NewValue(actions[k], original, facts).Ok?
    requires forall j :: k < j < |actions| ==> KeepsField(actions[j].setter, f)
    ensures ApplyActions(actions, original, facts, copy)[f] == NewValue(actions[k], original, facts).value
  {
    var pre, post := actions[..k], actions[k + 1..];
    assert actions == pre + [actions[k]] + post;
    ApplyActionsAppend(pre + [actions[k]], post, original, facts, copy);
    ApplyActionsAppend(pre, [actions[k]], original, facts, copy);
    var before := ApplyActions(pre, original, facts, copy);
    var after := ApplyAction(actions[k], original, facts, before);
    assert ApplyActions([actions[k]], original, facts, before) == after;
    assert after[f] == NewValue(actions[k], original, facts).value;
    assert forall j :: 0 <= j < |post| ==> post[j] == actions[k + 1 + j];
    KeepsFieldThroughActions(post, original, facts, after, f);
  }

  /** Branch selection for one rule: when the engine's result is triggered
      exactly the positive actions run on the copy, otherwise (NoMatch,
      Error, NoRules) exactly the negative ones. */
  lemma SingleRuleBranch(tr: TransformerRule, engine: RulesEngine, cls: ClassInfo, fields: FieldMap, result: RuleResult)
    requires CanCopy(cls)
    requires Evaluate(tr, engine, ObjectState(cls.name, fields)) == Ok(result)
    ensures result.IsTriggered() ==>
              TransformResult([tr], engine, cls, fields)
              == Some(ApplyActions(tr.positiveActions, ObjectState(cls.name, fields), RuleFacts(tr, ObjectState(cls.name, fields)), fields))
    ensures !result.IsTriggered() ==>
              TransformResult([tr], engine, cls, fields)
              == Some(ApplyActions(tr.negativeActions, ObjectState(cls.name, fields), RuleFacts(tr, ObjectState(cls.name, fields)), fields))
  {
    var original := ObjectState(cls.name, fields);
    var ran := ApplyActions(SelectedActions(tr, result), original, RuleFacts(tr, original), fields);
    assert RuleStep(tr, engine, original, fields) == Ok(ran);
    assert [tr][1..] == [];
    assert ApplyRules([tr], engine, original, fields) == ApplyRules([], engine, original, ran);
  }

  /** With no rules the result is an equal copy, so nothing changed. */
  lemma NoRulesYieldsEqualCopy(engine: RulesEngine, cls: ClassInfo, fields: FieldMap)
    requires CanCopy(cls)
    ensures TransformResult([], engine, cls, fields) == Some(fields)
    ensures !Changes([], engine, cls, fields)
  {
  }
}
