/** What a schema means: which JSON values a producer emits under it and a consumer accepts.
    The keywords follow JSON Schema Validation (2020-12) sections 6.1 to 6.5 and JSON Schema Core
    section 10.3, with OpenAPI 3.0's `nullable`. */
module SchemaSemantics {
  import opened JsonValues
  import opened Options
  import opened SchemaModel
  import opened SchemaRules
  import opened SchemaDiff

  /** The meaning of `pattern` and `multipleOf`, left to the caller. */
  type Reading = (ConstraintKey, Scalar, Json) -> bool

  predicate HasType(v: Json, name: string) {
    match v
    case JNull => name == "null"
    case JBool(_) => name == "boolean"
    case JInt(_) => name == "number" || name == "integer"
    case JFloat(r) => name == "number" || (name == "integer" && r.Floor as real == r)
    case JString(_) => name == "string"
    case JArray(_) => name == "array"
    case JObject(_) => name == "object"
  }

  ghost predicate TypeOk(s: Schema, v: Json)
    requires s.Node?
  {
    match s.typ
    case NoType => true
    case OneType(name) => HasType(v, name) || (v.JNull? && Truthy(s.nullable))
    case TypeList(names) => (exists n :: n in names && HasType(v, n)) || (v.JNull? && Truthy(s.nullable))
  }

  predicate Denotes(e: Scalar, v: Json) {
    match e
    case NullValue => v == JNull
    case BoolValue(b) => v == JBool(b)
    case NumberValue(r) => IsNumber(v) && NumberOf(v) == r
    case TextValue(s) => v == JString(s)
  }

  ghost predicate EnumOk(enum: Option<seq<Scalar>>, v: Json) {
    enum.None? || exists e :: e in EnumSet(enum) && Denotes(e, v)
  }

  /** Equality of JSON values: numbers by value, `1` and `1.0` alike. */
  predicate SameJson(a: Json, b: Json)
    decreases a
  {
    if IsNumber(a) && IsNumber(b) then NumberOf(a) == NumberOf(b)
    else match (a, b)
      case (JArray(x), JArray(y)) => |x| == |y| && forall i :: 0 <= i < |x| ==> SameJson(x[i], y[i])
      case (JObject(x), JObject(y)) => x.Keys == y.Keys && forall k :: k in x ==> SameJson(x[k], y[k])
      case _ => a == b
  }

  predicate Distinct(elems: seq<Json>) { forall i, j :: 0 <= i < j < |elems| ==> !SameJson(elems[i], elems[j]) }

  ghost predicate ConstraintHolds(key: ConstraintKey, bound: Scalar, v: Json, reading: Reading) {
    match key
    case Minimum => bound.NumberValue? && IsNumber(v) ==> NumberOf(v) >= bound.r
    case Maximum => bound.NumberValue? && IsNumber(v) ==> NumberOf(v) <= bound.r
    case ExclusiveMinimum => bound.NumberValue? && IsNumber(v) ==> NumberOf(v) > bound.r
    case ExclusiveMaximum => bound.NumberValue? && IsNumber(v) ==> NumberOf(v) < bound.r
    case MinLength => bound.NumberValue? && v.JString? ==> |v.s| as real >= bound.r
    case MaxLength => bound.NumberValue? && v.JString? ==> |v.s| as real <= bound.r
    case MinItems => bound.NumberValue? && v.JArray? ==> |v.elems| as real >= bound.r
    case MaxItems => bound.NumberValue? && v.JArray? ==> |v.elems| as real <= bound.r
    case MinProperties => bound.NumberValue? && v.JObject? ==> |v.fields| as real >= bound.r
    case MaxProperties => bound.NumberValue? && v.JObject? ==> |v.fields| as real <= bound.r
    case UniqueItems => bound == BoolValue(true) && v.JArray? ==> Distinct(v.elems)
    case Pattern => bound != NullValue ==> reading(key, bound, v)
    case MultipleOf => bound != NullValue ==> reading(key, bound, v)
  }

  ghost predicate ConstraintsOk(s: Schema, v: Json, reading: Reading)
    requires s.Node?
  {
    forall key :: ConstraintHolds(key, ConstraintOf(s, key), v, reading)
  }

  ghost predicate RequiredOk(s: Schema, v: Json)
    requires s.Node?
  {
    v.JObject? ==> forall name :: name in s.required ==> name in v.fields
  }

  ghost predicate Conforms(s: Schema, v: Json, closed: bool, reading: Reading)
    decreases s
  {
    match s
    case Opaque(value) => value != BoolValue(false)
    case Node(_, _, _, _, _, _, _, _) =>
      && TypeOk(s, v) && EnumOk(s.enum, v) && ConstraintsOk(s, v, reading) && RequiredOk(s, v)
      && (v.JObject? && closed ==> forall k :: k in v.fields ==> k in s.properties)
      && (v.JObject? ==>
            forall k :: k in s.properties && k in v.fields ==> Conforms(s.properties[k], v.fields[k], closed, reading))
      && (v.JArray? && s.items.Some? ==>
            forall i :: 0 <= i < |v.elems| ==> Conforms(s.items.value, v.elems[i], closed, reading))
  }

  /** `v` conforms to `s` and, at every described object, carries declared keys only. */
  ghost predicate Emits(s: Schema, v: Json, reading: Reading) { Conforms(s, v, true, reading) }

  /** `v` conforms to `s`; undeclared keys are ignored. */
  ghost predicate Accepts(s: Schema, v: Json, reading: Reading) { Conforms(s, v, false, reading) }

  // ---------- structural flow implies value flow ----------

  /** A type list naming every JSON kind restricts nothing. */
  predicate AdmitsEveryKind(s: Schema)
    requires s.Node?
  {
    s.typ.TypeList? &&
    "boolean" in s.typ.names && "number" in s.typ.names && "string" in s.typ.names &&
    "array" in s.typ.names && "object" in s.typ.names && ("null" in s.typ.names || Truthy(s.nullable))
  }

  ghost predicate TypeFlows(x: Schema, y: Schema)
    requires x.Node? && y.Node?
  {
    y.typ.NoType? || AdmitsEveryKind(y) ||
    (NonNullType(x).Some? && NonNullType(x) == NonNullType(y) && (IsNullable(x) ==> IsNullable(y)))
  }

  ghost predicate EnumFlows(x: Schema, y: Schema)
    requires x.Node? && y.Node?
  {
    y.enum.None? || (x.enum.Some? && EnumSet(x.enum) <= EnumSet(y.enum))
  }

  ghost predicate ConstraintFlows(x: Schema, y: Schema, key: ConstraintKey)
    requires x.Node? && y.Node?
  {
    var xv, yv := ConstraintOf(x, key), ConstraintOf(y, key);
    xv == yv || ConstraintTightened(key, xv, yv) == Some(false)
  }

  /** Every keyword of `y` is no stricter than what `x` guarantees, at every shared node. */
  ghost predicate Flows(x: Schema, y: Schema)
    decreases x
  {
    if x.Opaque? || y.Opaque? then x == y
    else
      && TypeFlows(x, y) && EnumFlows(x, y)
      && (forall key :: ConstraintFlows(x, y, key))
      && (forall name :: name in y.required ==> name in x.required)
      && (forall k :: k in x.properties && k in y.properties ==> Flows(x.properties[k], y.properties[k]))
      && (y.items.Some? ==> x.items.Some? && Flows(x.items.value, y.items.value))
  }

  lemma TypeFlowsSound(x: Schema, y: Schema, v: Json)
    requires x.Node? && y.Node? && TypeFlows(x, y) && TypeOk(x, v)
    ensures TypeOk(y, v)
  {
    if !y.typ.NoType? && !AdmitsEveryKind(y) && !(v.JNull? && IsNullable(x)) {
      var n :| n in NonNullType(x).value && HasType(v, n);
      assert n in NonNullType(y).value;
    }
  }

  lemma ConstraintFlowsSound(x: Schema, y: Schema, v: Json, reading: Reading)
    requires x.Node? && y.Node? && ConstraintsOk(x, v, reading)
    requires forall key :: ConstraintFlows(x, y, key)
    ensures ConstraintsOk(y, v, reading)
  {
    forall key ensures ConstraintHolds(key, ConstraintOf(y, key), v, reading) {
      assert ConstraintFlows(x, y, key);
      assert ConstraintHolds(key, ConstraintOf(x, key), v, reading);
    }
  }

  lemma {:induction false} FlowsSound(x: Schema, y: Schema, v: Json, reading: Reading)
    requires Flows(x, y) && Emits(x, v, reading)
    ensures Accepts(y, v, reading)
    decreases x
  {
    if x.Node? && y.Node? {
      TypeFlowsSound(x, y, v);
      ConstraintFlowsSound(x, y, v, reading);
      if v.JObject? {
        forall k | k in y.properties && k in v.fields ensures Conforms(y.properties[k], v.fields[k], false, reading) {
          FlowsSound(x.properties[k], y.properties[k], v.fields[k], reading);
        }
      }
      if v.JArray? && y.items.Some? {
        forall i | 0 <= i < |v.elems| ensures Conforms(y.items.value, v.elems[i], false, reading) {
          FlowsSound(x.items.value, y.items.value, v.elems[i], reading);
        }
      }
    }
  }
}
