/** JSON-Schema-like nodes as the differ reads them, and the changes it reports. */
module SchemaModel {

  import opened Options

  /** A scalar keyword value. Numbers stand for Python floats and for ints that `float()` keeps exact. */
  datatype Scalar =
    | NullValue
    | BoolValue(b: bool)
    | NumberValue(r: real)
    | TextValue(s: string)

  datatype TypeKeyword = NoType | OneType(name: string) | TypeList(names: seq<string>)

  datatype ConstraintKey =
    | Minimum | Maximum | ExclusiveMinimum | ExclusiveMaximum
    | MinLength | MaxLength | Pattern
    | MinItems | MaxItems | UniqueItems
    | MultipleOf | MinProperties | MaxProperties

  /** The keys in the order the differ walks them. */
  const CONSTRAINT_KEYS: seq<ConstraintKey> :=
    [ Minimum, Maximum, ExclusiveMinimum, ExclusiveMaximum, MinLength, MaxLength, Pattern,
      MinItems, MaxItems, UniqueItems, MultipleOf, MinProperties, MaxProperties ]

  /** `Opaque` is a boolean schema or another non-object node. In a `Node`, an absent `properties`
      or `required` is the empty one, and `otherHeight` is the nesting height of the tallest value
      under a keyword the differ ignores. */
  datatype Schema =
    | Opaque(value: Scalar)
    | Node(typ: TypeKeyword,
           nullable: Scalar,
           enum: Option<seq<Scalar>>,
           constraints: map<ConstraintKey, Scalar>,
           properties: map<string, Schema>,
           required: seq<string>,
           items: Option<Schema>,
           otherHeight: Option<nat>)

  /** `schema.get(key)` for a constraint key; Python's `None` is `NullValue`. */
  function ConstraintOf(s: Schema, key: ConstraintKey): Scalar
    requires s.Node?
  {
    if key in s.constraints then s.constraints[key] else NullValue
  }

  function SetOf<T(==)>(s: seq<T>): set<T> { set x | x in s }

  function EnumSet(enum: Option<seq<Scalar>>): set<Scalar> {
    if enum.Some? then SetOf(enum.value) else {}
  }

  // ---------- directions, verdicts, changes ----------

  datatype Direction = Input | Output | Neutral

  datatype ChangeType =
    | FieldAdded | FieldRemoved | RequiredFieldAdded | RequiredFieldRemoved
    | TypeChanged | NullableToNonNullable | NonNullableToNullable
    | EnumValueAdded | EnumValueRemoved | EnumNarrowed
    | ArrayItemTypeChanged | ConstraintChanged
    | ValueChanged | DescriptionChanged

  datatype Classification = Compatible | PotentiallyBreaking | Breaking

  datatype Severity = Info | Low | Medium | High | Critical

  datatype CompatibilityStatus = StatusCompatible | StatusWarning | StatusBreaking

  /** What a change shows as its old or new value. */
  datatype Shown =
    | NotShown
    | ShownScalar(scalar: Scalar)
    | ShownScalars(scalars: set<Scalar>)
    | ShownType(types: seq<string>)
    | ShownSchema(schema: Schema)
    | ShownText(text: Option<string>)

  datatype Evidence =
    | NoEvidence
    | RemovedValues(removed: set<Scalar>)
    | ConstraintEvidence(key: ConstraintKey, tightened: Option<bool>)

  datatype Change = Change(
    changeType: ChangeType,
    path: string,
    classification: Classification,
    severity: Severity,
    oldValue: Shown,
    newValue: Shown,
    evidence: Evidence)
}
