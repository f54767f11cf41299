/** What a compatible verdict leaves unchecked, as a guard on keywords; under it every value flows. */
module SchemaFlowGuard {
  import opened JsonValues
  import opened Options
  import opened SchemaModel
  import opened SchemaDiff
  import opened SchemaSemantics

  // ---------- kinds of values ----------

  datatype Kind = NullKind | BoolKind | WholeKind | FractionKind | TextKind | ArrayKind | ObjectKind

  function KindOf(v: Json): Kind {
    match v
    case JNull => NullKind
    case JBool(_) => BoolKind
    case JInt(_) => WholeKind
    case JFloat(r) => if r.Floor as real == r then WholeKind else FractionKind
    case JString(_) => TextKind
    case JArray(_) => ArrayKind
    case JObject(_) => ObjectKind
  }

  function ScalarKind(e: Scalar): Kind {
    match e
    case NullValue => NullKind
    case BoolValue(_) => BoolKind
    case NumberValue(r) => if r.Floor as real == r then WholeKind else FractionKind
    case TextValue(_) => TextKind
  }

  predicate KindNamed(k: Kind, name: string) {
    match k
    case NullKind => name == "null"
    case BoolKind => name == "boolean"
    case WholeKind => name == "number" || name == "integer"
    case FractionKind => name == "number"
    case TextKind => name == "string"
    case ArrayKind => name == "array"
    case ObjectKind => name == "object"
  }

  /** The `type` and `nullable` keywords let a kind through. */
  predicate AdmitsKind(s: Schema, k: Kind)
    requires s.Node?
  {
    match s.typ
    case NoType => true
    case OneType(name) => KindNamed(k, name) || (k.NullKind? && Truthy(s.nullable))
    case TypeList(names) => (exists n :: n in names && KindNamed(k, n)) || (k.NullKind? && Truthy(s.nullable))
  }

  lemma TypeIsKind(s: Schema, v: Json)
    requires s.Node?
    ensures TypeOk(s, v) <==> AdmitsKind(s, KindOf(v))
  {
    assert forall name :: HasType(v, name) <==> KindNamed(KindOf(v), name);
  }

  lemma DenotedKind(e: Scalar, v: Json)
    requires Denotes(e, v)
    ensures KindOf(v) == ScalarKind(e)
  {
    if v.JInt? { assert (v.n as real).Floor == v.n; }
  }

  // ---------- a node's own ranges ----------

  predicate AtLeast(bound: Scalar, r: real) { bound.NumberValue? ==> r >= bound.r }

  predicate AtMost(bound: Scalar, r: real) { bound.NumberValue? ==> r <= bound.r }

  predicate NumberFits(s: Schema, r: real)
    requires s.Node?
  {
    && AtLeast(ConstraintOf(s, Minimum), r) && AtMost(ConstraintOf(s, Maximum), r)
    && (ConstraintOf(s, ExclusiveMinimum).NumberValue? ==> r > ConstraintOf(s, ExclusiveMinimum).r)
    && (ConstraintOf(s, ExclusiveMaximum).NumberValue? ==> r < ConstraintOf(s, ExclusiveMaximum).r)
  }

  predicate WholeFits(s: Schema, n: int)
    requires s.Node?
  {
    NumberFits(s, n as real)
  }

  predicate FractionFits(s: Schema, r: real)
    requires s.Node?
  {
    r.Floor as real != r && NumberFits(s, r)
  }

  predicate LengthFits(s: Schema, n: nat)
    requires s.Node?
  {
    AtLeast(ConstraintOf(s, MinLength), n as real) && AtMost(ConstraintOf(s, MaxLength), n as real)
  }

  predicate ItemCountFits(s: Schema, n: nat)
    requires s.Node?
  {
    AtLeast(ConstraintOf(s, MinItems), n as real) && AtMost(ConstraintOf(s, MaxItems), n as real)
  }

  predicate PropertyCountFits(s: Schema, n: nat)
    requires s.Node?
  {
    AtLeast(ConstraintOf(s, MinProperties), n as real) && AtMost(ConstraintOf(s, MaxProperties), n as real)
  }

  /** A scalar of the node's enum within the node's ranges. */
  predicate ScalarFits(s: Schema, e: Scalar)
    requires s.Node?
  {
    match e
    case NumberValue(r) => NumberFits(s, r)
    case TextValue(t) => LengthFits(s, |t|)
    case _ => true
  }

  /** A value within the node's ranges. */
  predicate ValueFits(s: Schema, v: Json)
    requires s.Node?
  {
    match v
    case JInt(n) => WholeFits(s, n)
    case JFloat(r) => NumberFits(s, r)
    case JString(t) => LengthFits(s, |t|)
    case JArray(elems) => ItemCountFits(s, |elems|)
    case JObject(fields) => PropertyCountFits(s, |fields|)
    case _ => true
  }

  lemma ConformingFits(s: Schema, v: Json, reading: Reading)
    requires s.Node? && ConstraintsOk(s, v, reading)
    ensures ValueFits(s, v)
  {
    assert forall key :: ConstraintHolds(key, ConstraintOf(s, key), v, reading);
    assert ConstraintHolds(Minimum, ConstraintOf(s, Minimum), v, reading);
    assert ConstraintHolds(Maximum, ConstraintOf(s, Maximum), v, reading);
    assert ConstraintHolds(ExclusiveMinimum, ConstraintOf(s, ExclusiveMinimum), v, reading);
    assert ConstraintHolds(ExclusiveMaximum, ConstraintOf(s, ExclusiveMaximum), v, reading);
    assert ConstraintHolds(MinLength, ConstraintOf(s, MinLength), v, reading);
    assert ConstraintHolds(MaxLength, ConstraintOf(s, MaxLength), v, reading);
    assert ConstraintHolds(MinItems, ConstraintOf(s, MinItems), v, reading);
    assert ConstraintHolds(MaxItems, ConstraintOf(s, MaxItems), v, reading);
    assert ConstraintHolds(MinProperties, ConstraintOf(s, MinProperties), v, reading);
    assert ConstraintHolds(MaxProperties, ConstraintOf(s, MaxProperties), v, reading);
  }

  /** The enum holds every value of the kind within the producer's ranges. */
  ghost predicate EnumCovers(x: Schema, enum: Option<seq<Scalar>>, k: Kind)
    requires x.Node?
  {
    enum.None? ||
    match k
    case NullKind => NullValue in enum.value
    case BoolKind => BoolValue(true) in enum.value && BoolValue(false) in enum.value
    case WholeKind => forall n: int :: WholeFits(x, n) ==> NumberValue(n as real) in enum.value
    case FractionKind => forall r :: FractionFits(x, r) ==> NumberValue(r) in enum.value
    case TextKind => forall t: string :: LengthFits(x, |t|) ==> TextValue(t) in enum.value
    case _ => false
  }

  // ---------- what a producer sends ----------

  /** Some value conforms, going by types, enums, ranges and required names. */
  ghost predicate Possible(s: Schema)
    decreases s, 1
  {
    match s
    case Opaque(value) => value != BoolValue(false)
    case Node(_, _, enum, _, _, _, _, _) =>
      if enum.Some? then exists e :: e in enum.value && AdmitsKind(s, ScalarKind(e)) && ScalarFits(s, e)
      else exists k :: Sends(s, k)
  }

  /** The declared names some value can stand under. */
  ghost function PossibleNames(s: Schema): set<string>
    requires s.Node?
    decreases s, 0, 0
  {
    set k | k in s.properties && Possible(s.properties[k])
  }

  /** The node allows an object with some number of properties in the range. */
  ghost predicate RoomBetween(s: Schema, low: nat, high: nat)
    requires s.Node?
  {
    exists n: nat :: PropertyCountFits(s, n) && low <= n <= high
  }

  /** Without an enum, the node sends values of the kind. */
  ghost predicate Sends(s: Schema, k: Kind)
    requires s.Node?
    decreases s, 0, 1
  {
    AdmitsKind(s, k) &&
    match k
    case WholeKind => exists n: int :: WholeFits(s, n)
    case FractionKind => exists r :: FractionFits(s, r)
    case TextKind => exists n: nat :: LengthFits(s, n)
    case ArrayKind => exists n: nat :: ItemCountFits(s, n) && (n == 0 || s.items.None? || Possible(s.items.value))
    case ObjectKind =>
      SetOf(s.required) <= PossibleNames(s) && RoomBetween(s, |SetOf(s.required)|, |PossibleNames(s)|)
    case _ => true
  }

  /** Some array the node allows holds an item. */
  ghost predicate RoomForItem(s: Schema)
    requires s.Node?
  {
    exists n: nat :: n >= 1 && ItemCountFits(s, n)
  }

  /** Some object the node allows holds the name. */
  ghost predicate RoomFor(s: Schema, name: string)
    requires s.Node?
  {
    RoomBetween(s, |SetOf(s.required) + {name}|, |PossibleNames(s)|)
  }

  /** Some object the node allows leaves the name out. */
  ghost predicate MayOmit(s: Schema, name: string)
    requires s.Node?
  {
    name !in s.required && RoomBetween(s, |SetOf(s.required)|, |PossibleNames(s) - {name}|)
  }

  /** What the verdict does not check, at every node whose values travel: the consumer admits the kinds the
      producer sends, its enum does not shut them out, and it requires no name the producer may leave out. */
  ghost predicate FlowGuard(x: Schema, y: Schema)
    decreases x
  {
    x.Node? && y.Node? ==>
      if x.enum.Some? then
        forall e :: e in x.enum.value && AdmitsKind(x, ScalarKind(e)) && ScalarFits(x, e) ==> AdmitsKind(y, ScalarKind(e))
      else
        && (forall k :: Sends(x, k) ==> AdmitsKind(y, k) && EnumCovers(x, y.enum, k))
        && (Sends(x, ObjectKind) ==> NamesGuard(x, y))
        && (Sends(x, ObjectKind) ==>
              forall k :: k in x.properties && k in y.properties && RoomFor(x, k) ==> FlowGuard(x.properties[k], y.properties[k]))
        && (Sends(x, ArrayKind) && RoomForItem(x) && x.items.Some? && y.items.Some? ==> FlowGuard(x.items.value, y.items.value))
  }

  ghost predicate NamesGuard(x: Schema, y: Schema)
    requires x.Node? && y.Node?
  {
    forall name :: name in y.required && MayOmit(x, name) ==> name in y.properties
  }

  // ---------- the guard is enough, for every producer ----------

  lemma SubsetSize<T>(a: set<T>, b: set<T>)
    requires a <= b
    ensures |a| <= |b|
  {
    assert b == a + (b - a);
  }

  /** What an emitted object tells of its node. */
  ghost predicate ObjectSeen(s: Schema, names: set<string>)
    requires s.Node?
  {
    && SetOf(s.required) <= names <= PossibleNames(s)
    && (forall k :: k in names ==> RoomFor(s, k))
    && (forall k :: k !in names && k !in s.required ==> MayOmit(s, k))
  }

  lemma SeenObject(s: Schema, names: set<string>)
    requires s.Node? && SetOf(s.required) <= names <= PossibleNames(s) && PropertyCountFits(s, |names|)
    ensures ObjectSeen(s, names) && RoomBetween(s, |SetOf(s.required)|, |PossibleNames(s)|)
  {
    hide PossibleNames, PropertyCountFits;
    SubsetSize(SetOf(s.required), names);
    SubsetSize(names, PossibleNames(s));
    forall k | k in names ensures RoomFor(s, k) { SubsetSize(SetOf(s.required) + {k}, names); }
    forall k | k !in names && k !in s.required ensures MayOmit(s, k) { SubsetSize(names, PossibleNames(s) - {k}); }
  }

  lemma {:induction false} EmittedIsPossible(s: Schema, v: Json, reading: Reading)
    requires Emits(s, v, reading)
    ensures Possible(s)
    ensures s.Node? && s.enum.None? ==> Sends(s, KindOf(v))
    ensures s.Node? && v.JObject? ==> ObjectSeen(s, v.fields.Keys)
    decreases s
  {
    if s.Node? {
      TypeIsKind(s, v);
      ConformingFits(s, v, reading);
      if v.JObject? { EmittedObject(s, v, reading); }
      if v.JArray? { EmittedArray(s, v, reading); }
      if s.enum.Some? {
        var e :| e in EnumSet(s.enum) && Denotes(e, v);
        DenotedKind(e, v);
        assert ScalarFits(s, e);
      } else {
        hide ObjectSeen, Conforms, NumberFits, LengthFits;
        assert v.JInt? ==> WholeFits(s, v.n);
        assert v.JFloat? && v.r.Floor as real == v.r ==> WholeFits(s, v.r.Floor);
        assert v.JFloat? && v.r.Floor as real != v.r ==> FractionFits(s, v.r);
        assert v.JString? ==> LengthFits(s, |v.s|);
        assert v.JArray? ==> ItemCountFits(s, |v.elems|);
        assert Sends(s, KindOf(v));
      }
    }
  }

  lemma EmittedObject(s: Schema, v: Json, reading: Reading)
    requires s.Node? && v.JObject? && Emits(s, v, reading) && PropertyCountFits(s, |v.fields|)
    ensures ObjectSeen(s, v.fields.Keys) && SetOf(s.required) <= PossibleNames(s)
    ensures RoomBetween(s, |SetOf(s.required)|, |PossibleNames(s)|)
    decreases s, 0
  {
    forall k | k in v.fields ensures k in PossibleNames(s) {
      EmittedIsPossible(s.properties[k], v.fields[k], reading);
    }
    assert |v.fields| == |v.fields.Keys|;
    SeenObject(s, v.fields.Keys);
  }

  lemma EmittedArray(s: Schema, v: Json, reading: Reading)
    requires s.Node? && v.JArray? && Emits(s, v, reading)
    ensures |v.elems| == 0 || s.items.None? || Possible(s.items.value)
    decreases s, 0
  {
    if |v.elems| > 0 && s.items.Some? { EmittedIsPossible(s.items.value, v.elems[0], reading); }
  }
}
