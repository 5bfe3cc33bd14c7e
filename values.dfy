/** The values the engine passes around: field values, fact values and
    snapshots of objects. */
module Values {
  import opened Outcomes

  /** A value held in a field or bound as a fact. Ref stands for a reference
      to an object and carries the object's state. */
  datatype Value =
    | Null
    | Int(i: int)
    | Bool(b: bool)
    | Str(s: string)
    | Ref(obj: ObjectState)

  /** The observable state of an object: its runtime class name and the
      values of its declared fields. */
  datatype ObjectState = ObjectState(className: string, fields: FieldMap)

  type FieldMap = map<string, Value>

  /** Named facts offered to a condition when it is evaluated. */
  type Facts = map<string, Value>

  /** The fact map a condition is evaluated against: "value" bound to the
      subject, then the additional facts (when not null) merged over it,
      so an additional fact named "value" replaces the subject. */
  function FactsFor(subject: Value, additional: Option<Facts>): (facts: Facts)
    ensures facts.Keys == {"value"} + (if additional.Some? then additional.value.Keys else {})
    ensures additional.Some? ==>
              forall k :: k in additional.value ==> facts[k] == additional.value[k]
    ensures (additional.None? || "value" !in additional.value) ==> facts["value"] == subject
  {
    map["value" := subject] + (if additional.Some? then additional.value else map[])
  }

  /** A null additional-facts map and an empty one give the same facts. */
  lemma FactsForNullIsEmpty(subject: Value)
    ensures FactsFor(subject, None) == FactsFor(subject, Some(map[]))
  {
  }
}
