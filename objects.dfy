/** Objects the transformer works on, and the reflective copy it makes of
    them before changing anything. */
module Objects {
  import opened Outcomes
  import opened Values

  /** What the model needs of a runtime class: its name, the field values of
      a freshly default-constructed instance (whose keys are the declared
      fields), and which of the two copy strategies the class supports. */
  datatype ClassInfo = ClassInfo(
    name: string,
    defaults: FieldMap,
    hasCopyConstructor: bool,
    hasDefaultConstructor: bool)

  /** A copy can be made when the class has a copy constructor or, failing
      that, a default constructor. */
  predicate CanCopy(cls: ClassInfo) {
    cls.hasCopyConstructor || cls.hasDefaultConstructor
  }

  /** A mutable object: its class is fixed, its fields may be set in place. */
  class Instance {
    const cls: ClassInfo
    var fields: FieldMap

    /** An object holds exactly the fields its class declares. */
    ghost predicate Valid()
      reads this
    {
      fields.Keys == cls.defaults.Keys
    }

    constructor (cls: ClassInfo, fields: FieldMap)
      requires fields.Keys == cls.defaults.Keys
      ensures Valid() && this.cls == cls && this.fields == fields
    {
      this.cls := cls;
      this.fields := fields;
    }

    /** The class's default constructor. */
    constructor Default(cls: ClassInfo)
      ensures Valid() && this.cls == cls && fields == cls.defaults
    {
      this.cls := cls;
      fields := cls.defaults;
    }

    /** The class's copy constructor, taken to copy every field. */
    constructor CopyOf(other: Instance)
      requires other.Valid()
      ensures Valid() && cls == other.cls && fields == other.fields
    {
      cls := other.cls;
      fields := other.fields;
    }

    /** The object's state as a fact or field value sees it. */
    function State(): (s: ObjectState)
      reads this
      ensures s.className == cls.name && s.fields == fields
    {
      ObjectState(cls.name, fields)
    }

    /** equals, taken as structural equality of class and fields. A Java
        type that does not override equals compares identities instead, and
        then every successful copy differs from its original. */
    predicate Equals(other: Instance): (e: bool)
      reads this, other
      ensures this == other ==> e
      ensures e ==> State() == other.State()
    {
      cls == other.cls && fields == other.fields
    }
  }

  /** createCopy: the copy constructor when the class has one, otherwise a
      default-constructed instance whose declared fields are set one by one
      from the original; with neither constructor the copy fails. The copy
      is a new object equal to the original; the original is not changed. */
  method CreateCopy(value: Instance) returns (copy: Try<Instance>)
    requires value.Valid()
    ensures copy.Ok? <==> CanCopy(value.cls)
    ensures copy.Ok? ==> fresh(copy.value) && copy.value.Valid()
    ensures copy.Ok? ==> copy.value.cls == value.cls && copy.value.fields == value.fields
  {
    if value.cls.hasCopyConstructor {
      var c := new Instance.CopyOf(value);
      return Ok(c);
    }
    if !value.cls.hasDefaultConstructor {
      return Thrown("NoSuchMethodException");
    }
    var c := new Instance.Default(value.cls);
    var pending := value.cls.defaults.Keys;
    while pending != {}
      invariant pending <= value.fields.Keys
      invariant c.fields.Keys == value.fields.Keys
      invariant forall f :: f in value.fields && f !in pending ==> c.fields[f] == value.fields[f]
      decreases pending
    {
      var f :| f in pending;
      c.fields := c.fields[f := value.fields[f]];
      pending := pending - {f};
    }
    return Ok(c);
  }
}
