/** Exactly when a compatible verdict keeps values flowing, on keywords a caller can check. */
module SchemaFlowExactness {
  import opened JsonValues
  import opened Options
  import opened SchemaModel
  import opened SchemaRules
  import opened SchemaDiff
  import opened SchemaDiffFacts
  import opened SchemaExactness
  import opened SchemaSemantics
  import opened SchemaSoundness
  import opened SchemaFlowGuard

  // ---------- the guard is enough, for every producer ----------

  lemma EnumIsScalar(enum: Option<seq<Scalar>>, v: Json)
    requires enum.Some? && EnumOk(enum, v)
    ensures !v.JObject? && !v.JArray?
  {
    var e :| e in EnumSet(enum) && Denotes(e, v);
  }

  lemma TypeKeywordFlows(x: Schema, y: Schema, v: Json, reading: Reading)
    requires x.Node? && y.Node? && FlowGuard(x, y) && Emits(x, v, reading)
    ensures TypeOk(y, v)
  {
    EmittedIsPossible(x, v, reading);
    TypeIsKind(x, v);
    TypeIsKind(y, v);
    if x.enum.Some? {
      var e :| e in EnumSet(x.enum) && Denotes(e, v);
      DenotedKind(e, v);
      ConformingFits(x, v, reading);
      assert ScalarFits(x, e);
    }
  }

  lemma EnumKeywordFlows(b: Schema, c: Schema, d: Direction, path: string, v: Json, reading: Reading)
    requires b.Node? && c.Node? && !d.Neutral? && AllCompatible(DiffEnum(b.enum, c.enum, d, path))
    requires FlowGuard(Producer(d, b, c), Consumer(d, b, c)) && Emits(Producer(d, b, c), v, reading)
    ensures EnumOk(Consumer(d, b, c).enum, v)
  {
    hide DiffEnum, SortedScalars;
    var x, y := Producer(d, b, c), Consumer(d, b, c);
    if x.enum.Some? {
      var e :| e in EnumSet(x.enum) && Denotes(e, v);
      assert y.enum.Some? ==> e in EnumSet(y.enum) by {
        if e !in EnumSet(y.enum) { LostValueReported(b.enum, c.enum, d, path, e); }
      }
    } else {
      EmittedIsPossible(x, v, reading);
      ConformingFits(x, v, reading);
      assert EnumCovers(x, y.enum, KindOf(v));
      if y.enum.Some? { CoveredKind(x, y.enum, v); }
    }
  }

  lemma CoveredKind(x: Schema, enum: Option<seq<Scalar>>, v: Json)
    requires x.Node? && enum.Some? && EnumCovers(x, enum, KindOf(v)) && ValueFits(x, v)
    ensures EnumOk(enum, v)
  {
    var e := match v
      case JNull => NullValue
      case JBool(b) => BoolValue(b)
      case JInt(n) => NumberValue(n as real)
      case JFloat(r) => NumberValue(r)
      case JString(t) => TextValue(t)
      case _ => NullValue;
    assert v.JInt? ==> WholeFits(x, v.n);
    assert v.JFloat? && v.r.Floor as real == v.r ==> WholeFits(x, v.r.Floor);
    assert v.JFloat? && v.r.Floor as real != v.r ==> FractionFits(x, v.r);
    assert e in EnumSet(enum) && Denotes(e, v);
  }

  lemma ObjectIsSent(x: Schema, v: Json, reading: Reading)
    requires x.Node? && v.JObject? && Emits(x, v, reading)
    ensures x.enum.None? && Sends(x, ObjectKind) && ObjectSeen(x, v.fields.Keys)
  {
    EmittedIsPossible(x, v, reading);
    if x.enum.Some? { EnumIsScalar(x.enum, v); }
  }

  lemma RequiredKeywordFlows(b: Schema, c: Schema, d: Direction, path: string, depth: nat, v: Json, reading: Reading)
    requires b.Node? && c.Node? && !d.Neutral? && v.JObject?
    requires forall n :: n in b.properties || n in c.properties ==> AllCompatible(DiffProperty(b, c, d, path, depth, n))
    requires NamesGuard(Producer(d, b, c), Consumer(d, b, c)) && ObjectSeen(Producer(d, b, c), v.fields.Keys)
    ensures RequiredOk(Consumer(d, b, c), v)
  {
    hide DiffProperty, PossibleNames, RoomFor, MayOmit, AllCompatible;
    var x, y := Producer(d, b, c), Consumer(d, b, c);
    forall name | name in y.required ensures name in v.fields {
      assert name in x.required ==> name in SetOf(x.required);
      if name in y.properties && name !in x.required { RequiredPart(b, c, d, path, depth, name); }
    }
  }

  lemma OpaqueUnchanged(b: Schema, c: Schema, d: Direction, path: string, depth: nat)
    requires depth > MAX_DEPTH || b.Opaque? || c.Opaque?
    ensures AllCompatible(DiffAt(b, c, d, path, depth)) ==> b == c && b.Opaque?
  {
    var all := DiffAt(b, c, d, path, depth);
    assert all != [] ==> all[0] in all && all[0].classification.Breaking?;
  }

  /** Whatever the producer: under a compatible diff and the guard, every value it emits is accepted. */
  lemma {:induction false} GuardedValueFlows(b: Schema, c: Schema, d: Direction, path: string, depth: nat, v: Json, reading: Reading)
    requires !d.Neutral? && AllCompatible(DiffAt(b, c, d, path, depth))
    requires FlowGuard(Producer(d, b, c), Consumer(d, b, c)) && Emits(Producer(d, b, c), v, reading)
    ensures Accepts(Consumer(d, b, c), v, reading)
    decreases b, 1
  {
    if depth > MAX_DEPTH || b.Opaque? || c.Opaque? {
      OpaqueUnchanged(b, c, d, path, depth);
      hide DiffAt, FlowGuard;
    } else {
      hide DiffAt, FlowGuard, Conforms;
      GuardedNodeFlows(b, c, d, path, depth, v, reading);
    }
  }

  lemma GuardedNodeFlows(b: Schema, c: Schema, d: Direction, path: string, depth: nat, v: Json, reading: Reading)
    requires b.Node? && c.Node? && depth <= MAX_DEPTH
    requires !d.Neutral? && AllCompatible(DiffAt(b, c, d, path, depth))
    requires FlowGuard(Producer(d, b, c), Consumer(d, b, c)) && Emits(Producer(d, b, c), v, reading)
    ensures Accepts(Consumer(d, b, c), v, reading)
    decreases b, 0, 1
  {
    var x, y := Producer(d, b, c), Consumer(d, b, c);
    CompatibleParts(b, c, d, path, depth);
    hide DiffAt, DiffProperty, DiffEnum, DiffItems, DiffConstraint, ObjectSeen, Sends;
    TypeKeywordFlows(x, y, v, reading);
    EnumKeywordFlows(b, c, d, path, v, reading);
    ConstraintKeywordsFlow(b, c, d, path, v, reading);
    if v.JObject? {
      ObjectIsSent(x, v, reading);
      RequiredKeywordFlows(b, c, d, path, depth, v, reading);
      ObjectFlows(b, c, d, path, depth, v, reading);
    }
    if v.JArray? && y.items.Some? { ArrayFlows(b, c, d, path, depth, v, reading); }
  }

  lemma ConstraintKeywordsFlow(b: Schema, c: Schema, d: Direction, path: string, v: Json, reading: Reading)
    requires b.Node? && c.Node? && !d.Neutral?
    requires forall key :: AllCompatible(DiffConstraint(b, c, d, path, key))
    requires Emits(Producer(d, b, c), v, reading)
    ensures ConstraintsOk(Consumer(d, b, c), v, reading)
  {
    hide DiffConstraint, ConstraintFlows, ConstraintHolds;
    var x, y := Producer(d, b, c), Consumer(d, b, c);
    forall key ensures ConstraintFlows(x, y, key) { ConstraintPart(b, c, d, path, key); }
    ConstraintFlowsSound(x, y, v, reading);
  }

  lemma ObjectFlows(b: Schema, c: Schema, d: Direction, path: string, depth: nat, v: Json, reading: Reading)
    requires b.Node? && c.Node? && !d.Neutral? && v.JObject?
    requires forall n :: n in b.properties || n in c.properties ==> AllCompatible(DiffProperty(b, c, d, path, depth, n))
    requires FlowGuard(Producer(d, b, c), Consumer(d, b, c)) && Emits(Producer(d, b, c), v, reading)
    requires Producer(d, b, c).enum.None? && Sends(Producer(d, b, c), ObjectKind)
    requires ObjectSeen(Producer(d, b, c), v.fields.Keys)
    ensures var y := Consumer(d, b, c);
      forall k :: k in y.properties && k in v.fields ==> Accepts(y.properties[k], v.fields[k], reading)
    decreases b, 0, 0
  {
    var x, y := Producer(d, b, c), Consumer(d, b, c);
    hide DiffAt, Sends, PossibleNames, RoomFor, MayOmit;
    forall k | k in y.properties && k in v.fields ensures Accepts(y.properties[k], v.fields[k], reading) {
      assert k in x.properties && Emits(x.properties[k], v.fields[k], reading);
      var at := PropertyPath(path, k);
      AllCompatibleConcat(DiffRequiredness(b, c, d, at, k), DiffAt(b.properties[k], c.properties[k], d, at, depth + 1));
      GuardedValueFlows(b.properties[k], c.properties[k], d, at, depth + 1, v.fields[k], reading);
    }
  }

  lemma ArrayFlows(b: Schema, c: Schema, d: Direction, path: string, depth: nat, v: Json, reading: Reading)
    requires b.Node? && c.Node? && !d.Neutral? && v.JArray? && Consumer(d, b, c).items.Some?
    requires AllCompatible(DiffItems(b, c, d, path, depth))
    requires FlowGuard(Producer(d, b, c), Consumer(d, b, c)) && Emits(Producer(d, b, c), v, reading)
    ensures var items := Consumer(d, b, c).items.value;
      forall i :: 0 <= i < |v.elems| ==> Accepts(items, v.elems[i], reading)
    decreases b, 0, 0
  {
    var x, y := Producer(d, b, c), Consumer(d, b, c);
    ItemsPart(b, c, d, path, depth);
    EmittedIsPossible(x, v, reading);
    if x.enum.Some? { EnumIsScalar(x.enum, v); }
    if |v.elems| > 0 {
      ConformingFits(x, v, reading);
      assert ItemCountFits(x, |v.elems|);
    }
    hide DiffAt, DiffItems, Sends;
    forall i | 0 <= i < |v.elems| ensures Accepts(y.items.value, v.elems[i], reading) {
      GuardedValueFlows(b.items.value, c.items.value, d, ItemPath(path), depth + 1, v.elems[i], reading);
    }
  }

  // ---------- the guard is needed, for every producer bounded by ranges ----------

  /** The node's bounds are ranges: no pattern or multiple, and unique items only where one item suffices. */
  predicate PlainBounds(s: Schema)
    requires s.Node?
  {
    && ConstraintOf(s, Pattern) == NullValue && ConstraintOf(s, MultipleOf) == NullValue
    && (ConstraintOf(s, UniqueItems) == BoolValue(true) ==> AtLeast(ConstraintOf(s, MinItems), 1.0))
  }

  /** Every bound anywhere is a range of numbers, lengths or counts. */
  ghost predicate RangeBoundsOnly(s: Schema)
    decreases s
  {
    s.Node? ==>
      && PlainBounds(s)
      && (forall k :: k in s.properties ==> RangeBoundsOnly(s.properties[k]))
      && (s.items.Some? ==> RangeBoundsOnly(s.items.value))
  }

  lemma FittingConforms(s: Schema, v: Json, reading: Reading)
    requires s.Node? && PlainBounds(s) && ValueFits(s, v)
    requires v.JArray? && ConstraintOf(s, UniqueItems) == BoolValue(true) ==> |v.elems| <= 1
    ensures ConstraintsOk(s, v, reading)
  {
    forall key ensures ConstraintHolds(key, ConstraintOf(s, key), v, reading) { }
  }

  function ValueOf(e: Scalar): Json {
    match e case NullValue => JNull case BoolValue(b) => JBool(b) case NumberValue(r) => JFloat(r) case TextValue(s) => JString(s)
  }

  lemma EnumValueEmitted(s: Schema, e: Scalar, reading: Reading)
    requires s.Node? && PlainBounds(s) && s.enum.Some? && e in s.enum.value
    requires AdmitsKind(s, ScalarKind(e)) && ScalarFits(s, e)
    ensures Emits(s, ValueOf(e), reading)
  {
    var v := ValueOf(e);
    assert Denotes(e, v) && e in EnumSet(s.enum);
    DenotedKind(e, v);
    TypeIsKind(s, v);
    FittingConforms(s, v, reading);
  }

  /** A value exists as soon as the keywords leave one. */
  lemma {:induction false} Sample(s: Schema, reading: Reading) returns (v: Json)
    requires Possible(s) && RangeBoundsOnly(s)
    ensures Emits(s, v, reading)
    decreases s, 1
  {
    if s.Opaque? {
      v := JNull;
    } else if s.enum.Some? {
      var e :| e in s.enum.value && AdmitsKind(s, ScalarKind(e)) && ScalarFits(s, e);
      v := ValueOf(e);
      EnumValueEmitted(s, e, reading);
    } else {
      var k :| Sends(s, k);
      v := SampleOfKind(s, k, reading);
    }
  }

  /** A set of the wanted size between two others. */
  lemma SetBetween<T>(base: set<T>, pool: set<T>, n: nat) returns (s: set<T>)
    requires base <= pool && |base| <= n <= |pool|
    ensures base <= s <= pool && |s| == n
    decreases n - |base|
  {
    if n == |base| {
      s := base;
    } else {
      assert |pool - base| > 0 by { assert pool == base + (pool - base); }
      var x :| x in pool - base;
      s := SetBetween(base + {x}, pool, n);
    }
  }

  /** A sample under each of some possible names. */
  lemma {:induction false} FieldsOver(s: Schema, names: set<string>, reading: Reading) returns (fields: map<string, Json>)
    requires s.Node? && RangeBoundsOnly(s) && names <= PossibleNames(s)
    ensures fields.Keys == names
    ensures forall k :: k in fields ==> k in s.properties && Emits(s.properties[k], fields[k], reading)
    decreases s, 0, 0, |names|
  {
    hide Emits;
    if names == {} {
      fields := map[];
    } else {
      var k :| k in names;
      var rest := FieldsOver(s, names - {k}, reading);
      var w := Sample(s.properties[k], reading);
      fields := rest[k := w];
    }
  }

  /** An object's fields over some of the possible names, within the node's range. */
  lemma {:induction false} FieldsBetween(s: Schema, base: set<string>, pool: set<string>, reading: Reading)
    returns (fields: map<string, Json>)
    requires s.Node? && RangeBoundsOnly(s)
    requires SetOf(s.required) <= base <= pool <= PossibleNames(s) && RoomBetween(s, |base|, |pool|)
    ensures base <= fields.Keys <= pool && PropertyCountFits(s, |fields|)
    ensures forall k :: k in fields ==> k in s.properties && Emits(s.properties[k], fields[k], reading)
    decreases s, 0, 1
  {
    hide PropertyCountFits, Emits, RangeBoundsOnly, PossibleNames;
    var n: nat :| PropertyCountFits(s, n) && |base| <= n <= |pool|;
    var names := SetBetween(base, pool, n);
    fields := FieldsOver(s, names, reading);
    assert |fields| == |fields.Keys|;
  }

  /** Such an object conforms. */
  lemma ObjectEmitted(s: Schema, fields: map<string, Json>, reading: Reading)
    requires s.Node? && s.enum.None? && PlainBounds(s) && AdmitsKind(s, ObjectKind)
    requires SetOf(s.required) <= fields.Keys && PropertyCountFits(s, |fields|)
    requires forall k :: k in fields ==> k in s.properties && Emits(s.properties[k], fields[k], reading)
    ensures Emits(s, JObject(fields), reading)
  {
    var v := JObject(fields);
    TypeIsKind(s, v);
    FittingConforms(s, v, reading);
    forall name | name in s.required ensures name in fields { assert name in SetOf(s.required); }
    hide ConstraintsOk, TypeOk, PropertyCountFits;
  }

  /** As many copies of an item as the node asks for, at least `from`. */
  lemma ArrayEmitted(s: Schema, from: nat, w: Json, reading: Reading) returns (v: Json)
    requires s.Node? && s.enum.None? && PlainBounds(s) && AdmitsKind(s, ArrayKind)
    requires exists n: nat :: n >= from && ItemCountFits(s, n) && (n == 0 || s.items.None? || Emits(s.items.value, w, reading))
    requires from <= 1
    ensures v.JArray? && |v.elems| >= from && (forall i :: 0 <= i < |v.elems| ==> v.elems[i] == w) && Emits(s, v, reading)
  {
    var n: nat :| n >= from && ItemCountFits(s, n) && (n == 0 || s.items.None? || Emits(s.items.value, w, reading));
    var count := if n > 1 && ConstraintOf(s, UniqueItems) == BoolValue(true) then 1 else n;
    assert ItemCountFits(s, count);
    v := JArray(seq(count, _ => w));
    TypeIsKind(s, v);
    FittingConforms(s, v, reading);
  }

  lemma {:induction false} SampleOfKind(s: Schema, k: Kind, reading: Reading) returns (v: Json)
    requires s.Node? && s.enum.None? && RangeBoundsOnly(s) && Sends(s, k)
    ensures KindOf(v) == k && Emits(s, v, reading)
    decreases s, 0, 2
  {
    match k
    case ArrayKind =>
      var n: nat :| ItemCountFits(s, n) && (n == 0 || s.items.None? || Possible(s.items.value));
      var w := JNull;
      if n > 0 && s.items.Some? { w := Sample(s.items.value, reading); }
      v := ArrayEmitted(s, 0, w, reading);
    case ObjectKind =>
      var fields := FieldsBetween(s, SetOf(s.required), PossibleNames(s), reading);
      v := JObject(fields);
      ObjectEmitted(s, fields, reading);
    case _ =>
      v := ScalarOfKind(s, k, reading);
  }

  lemma ScalarOfKind(s: Schema, k: Kind, reading: Reading) returns (v: Json)
    requires s.Node? && s.enum.None? && PlainBounds(s) && Sends(s, k) && !k.ArrayKind? && !k.ObjectKind?
    ensures KindOf(v) == k && Emits(s, v, reading)
  {
    match k {
      case NullKind => v := JNull;
      case BoolKind => v := JBool(true);
      case WholeKind => var n :| WholeFits(s, n); v := JInt(n);
      case FractionKind => var r :| FractionFits(s, r); v := JFloat(r);
      case TextKind => var n: nat :| LengthFits(s, n); v := JString(seq(n, _ => 'a'));
    }
    ScalarEmitted(s, v, reading);
  }

  lemma ScalarEmitted(s: Schema, v: Json, reading: Reading)
    requires s.Node? && s.enum.None? && PlainBounds(s) && ValueFits(s, v) && AdmitsKind(s, KindOf(v))
    requires !v.JArray? && !v.JObject?
    ensures Emits(s, v, reading)
  {
    TypeIsKind(s, v);
    FittingConforms(s, v, reading);
  }

  /** A value of the kind outside the enum, where the enum does not cover it. */
  lemma OutsideEnum(x: Schema, k: Kind, enum: Option<seq<Scalar>>, reading: Reading) returns (v: Json)
    requires x.Node? && x.enum.None? && RangeBoundsOnly(x) && Sends(x, k) && !EnumCovers(x, enum, k)
    ensures Emits(x, v, reading) && !EnumOk(enum, v)
  {
    if k.ArrayKind? || k.ObjectKind? {
      v := SampleOfKind(x, k, reading);
    } else {
      match k {
        case NullKind => v := JNull;
        case BoolKind => v := JBool(BoolValue(true) !in enum.value);
        case WholeKind => var n :| WholeFits(x, n) && NumberValue(n as real) !in enum.value; v := JInt(n);
        case FractionKind => var r :| FractionFits(x, r) && NumberValue(r) !in enum.value; v := JFloat(r);
        case TextKind => var t: string :| LengthFits(x, |t|) && TextValue(t) !in enum.value; v := JString(t);
      }
      ScalarEmitted(x, v, reading);
    }
    forall e | e in EnumSet(enum) ensures !Denotes(e, v) { }
  }

  /** The guard's failing clause shuts out a value the producer emits. */
  lemma {:induction false} FlowWitness(x: Schema, y: Schema, reading: Reading) returns (v: Json)
    requires RangeBoundsOnly(x) && !FlowGuard(x, y)
    ensures Emits(x, v, reading) && !Accepts(y, v, reading)
    decreases x, 1
  {
    if x.enum.Some? {
      var e :| e in x.enum.value && AdmitsKind(x, ScalarKind(e)) && ScalarFits(x, e) && !AdmitsKind(y, ScalarKind(e));
      v := ValueOf(e);
      EnumValueEmitted(x, e, reading);
      DenotedKind(e, v);
      TypeIsKind(y, v);
    } else if k :| Sends(x, k) && !(AdmitsKind(y, k) && EnumCovers(x, y.enum, k)) {
      if AdmitsKind(y, k) {
        v := OutsideEnum(x, k, y.enum, reading);
      } else {
        v := SampleOfKind(x, k, reading);
        TypeIsKind(y, v);
      }
    } else if Sends(x, ObjectKind) && !NamesGuard(x, y) {
      v := OmittingWitness(x, y, reading);
    } else if Sends(x, ArrayKind) && RoomForItem(x) && x.items.Some? && y.items.Some? && !FlowGuard(x.items.value, y.items.value) {
      var w := FlowWitness(x.items.value, y.items.value, reading);
      v := ArrayEmitted(x, 1, w, reading);
      assert v.elems[0] == w;
    } else {
      var k :| k in x.properties && k in y.properties && RoomFor(x, k) && !FlowGuard(x.properties[k], y.properties[k]);
      var w := FlowWitness(x.properties[k], y.properties[k], reading);
      v := ObjectAround(x, y, k, w, reading);
    }
  }

  lemma ObjectAround(x: Schema, y: Schema, k: string, w: Json, reading: Reading) returns (v: Json)
    requires x.Node? && y.Node? && x.enum.None? && RangeBoundsOnly(x) && Sends(x, ObjectKind) && RoomFor(x, k)
    requires k in x.properties && k in y.properties
    requires Emits(x.properties[k], w, reading) && !Accepts(y.properties[k], w, reading)
    ensures Emits(x, v, reading) && !Accepts(y, v, reading)
  {
    EmittedIsPossible(x.properties[k], w, reading);
    var fields := FieldsBetween(x, SetOf(x.required) + {k}, PossibleNames(x), reading);
    var around := fields[k := w];
    assert around.Keys == fields.Keys && |around| == |around.Keys| && |fields| == |fields.Keys|;
    v := JObject(around);
    ObjectEmitted(x, around, reading);
    assert v.fields[k] == w;
  }

  /** An object that leaves out a name the consumer requires. */
  lemma OmittingWitness(x: Schema, y: Schema, reading: Reading) returns (v: Json)
    requires x.Node? && y.Node? && x.enum.None? && RangeBoundsOnly(x) && Sends(x, ObjectKind) && !NamesGuard(x, y)
    ensures Emits(x, v, reading) && !Accepts(y, v, reading)
  {
    var name :| name in y.required && MayOmit(x, name) && name !in y.properties;
    var fields := FieldsBetween(x, SetOf(x.required), PossibleNames(x) - {name}, reading);
    v := JObject(fields);
    ObjectEmitted(x, fields, reading);
    assert !RequiredOk(y, v);
  }

  /** The result: for every producer whose bounds are ranges, whatever its types, enums, required names and
      nesting, a compatible diff keeps every value flowing if and only if the guard holds. */
  lemma CompatibleFlowsExactly(b: Schema, c: Schema, d: Direction, path: string, depth: nat, reading: Reading)
    requires !d.Neutral? && AllCompatible(DiffAt(b, c, d, path, depth)) && RangeBoundsOnly(Producer(d, b, c))
    ensures (forall v :: Emits(Producer(d, b, c), v, reading) ==> Accepts(Consumer(d, b, c), v, reading))
       <==> FlowGuard(Producer(d, b, c), Consumer(d, b, c))
  {
    hide DiffAt, FlowGuard, RangeBoundsOnly, Conforms;
    var x, y := Producer(d, b, c), Consumer(d, b, c);
    if FlowGuard(x, y) {
      forall v | Emits(x, v, reading) ensures Accepts(y, v, reading) { GuardedValueFlows(b, c, d, path, depth, v, reading); }
    } else {
      var v := FlowWitness(x, y, reading);
    }
  }

  // ---------- untyped producers ----------

  /** No type, enum, bound or required name at any depth: what `{}` and its nestings emit. */
  ghost predicate Untyped(s: Schema)
    decreases s
  {
    s.Node? ==>
      && s.typ.NoType? && s.enum.None? && s.required == [] && (forall key :: ConstraintOf(s, key) == NullValue)
      && (forall k :: k in s.properties ==> Untyped(s.properties[k]))
      && (s.items.Some? ==> Untyped(s.items.value))
  }

  lemma {:induction false} UntypedIsRanged(s: Schema)
    requires Untyped(s)
    ensures RangeBoundsOnly(s)
    decreases s
  {
    if s.Node? {
      forall k | k in s.properties ensures RangeBoundsOnly(s.properties[k]) { UntypedIsRanged(s.properties[k]); }
      if s.items.Some? { UntypedIsRanged(s.items.value); }
    }
  }

  lemma UntypedSends(s: Schema)
    requires s.Node? && Untyped(s)
    ensures forall k :: Sends(s, k)
    ensures Possible(s) && RoomForItem(s) && forall name :: MayOmit(s, name)
    ensures forall k :: k in s.properties && s.properties[k].Node? && Possible(s.properties[k]) ==> RoomFor(s, k)
  {
    assert SetOf(s.required) == {};
    assert PropertyCountFits(s, 0) && ItemCountFits(s, 0) && ItemCountFits(s, 1) && LengthFits(s, 0) && WholeFits(s, 0);
    assert (0.5).Floor == 0;
    assert FractionFits(s, 0.5);
    forall k ensures Sends(s, k) { }
    assert Sends(s, NullKind);
    forall k | k in s.properties && Possible(s.properties[k]) ensures RoomFor(s, k) {
      assert k in PossibleNames(s);
      SubsetSize({k}, PossibleNames(s));
      assert SetOf(s.required) + {k} == {k};
      assert PropertyCountFits(s, 1);
    }
  }

  lemma EveryKindAdmitted(s: Schema)
    requires s.Node?
    ensures (forall k :: AdmitsKind(s, k)) <==> s.typ.NoType? || AdmitsEveryKind(s)
  {
    if forall k :: AdmitsKind(s, k) {
      assert AdmitsKind(s, NullKind) && AdmitsKind(s, BoolKind) && AdmitsKind(s, FractionKind);
      assert AdmitsKind(s, TextKind) && AdmitsKind(s, ArrayKind) && AdmitsKind(s, ObjectKind);
    }
  }

  lemma NothingCovers(x: Schema, enum: Option<seq<Scalar>>)
    requires x.Node?
    ensures (forall k :: EnumCovers(x, enum, k)) <==> enum.None?
  {
    if forall k :: EnumCovers(x, enum, k) { assert EnumCovers(x, enum, ArrayKind); }
  }

  /** For untyped producers the two guards are the same. */
  lemma {:induction false} GuardsAgree(x: Schema, y: Schema)
    requires Untyped(x)
    ensures FlowGuard(x, y) <==> Guarded(x, y)
    decreases x
  {
    if x.Node? && y.Node? {
      EveryKindAdmitted(y);
      NothingCovers(x, y.enum);
      UntypedSends(x);
      forall k | k in x.properties && k in y.properties
        ensures FlowGuard(x.properties[k], y.properties[k]) <==> Guarded(x.properties[k], y.properties[k])
        ensures RoomFor(x, k) || (FlowGuard(x.properties[k], y.properties[k]) && Guarded(x.properties[k], y.properties[k]))
      {
        GuardsAgree(x.properties[k], y.properties[k]);
        if x.properties[k].Node? { UntypedSends(x.properties[k]); }
      }
      if x.items.Some? && y.items.Some? { GuardsAgree(x.items.value, y.items.value); }
      SplitGuard(x, y);
      hide AdmitsKind, AdmitsEveryKind, EnumCovers, Sends, MayOmit, RoomFor, RoomForItem, FlowGuard;
    }
  }

  lemma SplitGuard(x: Schema, y: Schema)
    requires x.Node? && y.Node? && x.enum.None? && RoomForItem(x)
    requires (forall k :: Sends(x, k)) && forall name :: MayOmit(x, name)
    ensures FlowGuard(x, y) <==>
      && (forall k :: AdmitsKind(y, k)) && (forall k :: EnumCovers(x, y.enum, k))
      && (forall name :: name in y.required ==> name in y.properties)
      && (forall k :: k in x.properties && k in y.properties && RoomFor(x, k) ==> FlowGuard(x.properties[k], y.properties[k]))
      && (x.items.Some? && y.items.Some? ==> FlowGuard(x.items.value, y.items.value))
  {
    hide AdmitsKind, EnumCovers, Sends, MayOmit, RoomFor, RoomForItem;
  }

  /** So against a producer untyped and unbounded throughout, the structural guard is exact. */
  lemma UntypedProducerExact(b: Schema, c: Schema, d: Direction, path: string, depth: nat, reading: Reading)
    requires !d.Neutral? && AllCompatible(DiffAt(b, c, d, path, depth)) && Untyped(Producer(d, b, c))
    ensures (forall v :: Emits(Producer(d, b, c), v, reading) ==> Accepts(Consumer(d, b, c), v, reading))
       <==> Guarded(Producer(d, b, c), Consumer(d, b, c))
  {
    hide DiffAt, FlowGuard, RangeBoundsOnly, Conforms, Guarded, Untyped;
    UntypedIsRanged(Producer(d, b, c));
    CompatibleFlowsExactly(b, c, d, path, depth, reading);
    GuardsAgree(Producer(d, b, c), Consumer(d, b, c));
  }

  // ---------- compatible diffs that break ----------

  /** The schema `{}`. */
  const OPEN: Schema := Node(NoType, NullValue, None, map[], map[], [], None, None)

  function DiffFromOpen(y: Schema, d: Direction): seq<Change> {
    if d.Input? then DiffAt(OPEN, y, d, "$", 0) else DiffAt(y, OPEN, d, "$", 0)
  }

  lemma OpenEmits(v: Json, reading: Reading)
    requires v.JObject? ==> v.fields == map[]
    ensures Emits(OPEN, v, reading)
  {
  }

  /** A `type` only the consumer has is not reported at all, and shuts out a boolean. */
  lemma TypeGap(d: Direction, reading: Reading)
    requires !d.Neutral?
    ensures var y := OPEN.(typ := OneType("string"));
      DiffFromOpen(y, d) == [] && Emits(OPEN, JBool(true), reading) && !Accepts(y, JBool(true), reading)
  {
    var y := OPEN.(typ := OneType("string"));
    assert OPEN.typ.NoType? && !TypeOk(y, JBool(true));
    OpenEmits(JBool(true), reading);
    hide DiffAt, Conforms;
    DiffExact(OPEN, y, d, "$", 0);
    DiffExact(y, OPEN, d, "$", 0);
  }

  /** Nor is a `required` name it does not declare, which shuts out the empty object. */
  lemma RequiredGap(d: Direction, reading: Reading)
    requires !d.Neutral?
    ensures var y := OPEN.(required := ["id"]);
      DiffFromOpen(y, d) == [] && Emits(OPEN, JObject(map[]), reading) && !Accepts(y, JObject(map[]), reading)
  {
    var y := OPEN.(required := ["id"]);
    assert "id" in y.required && !RequiredOk(y, JObject(map[]));
    OpenEmits(JObject(map[]), reading);
    hide DiffAt, Conforms;
    DiffExact(OPEN, y, d, "$", 0);
    DiffExact(y, OPEN, d, "$", 0);
  }

  /** An `enum` only the consumer has is reported, as compatible changes, and shuts out a boolean. */
  lemma EnumGap(d: Direction, reading: Reading)
    requires !d.Neutral?
    ensures var y := OPEN.(enum := Some([TextValue("a")]));
      AllCompatible(DiffFromOpen(y, d)) && Emits(OPEN, JBool(true), reading) && !Accepts(y, JBool(true), reading)
  {
    var y := OPEN.(enum := Some([TextValue("a")]));
    assert !EnumOk(y.enum, JBool(true));
    OpenEmits(JBool(true), reading);
    hide Conforms, DiffAt, Accepts, Emits;
    if d.Input? { OneEnumValue(OPEN, y, d); } else { OneEnumValue(y, OPEN, d); }
  }

  /** Nodes that differ in `enum` alone differ by its changes alone. */
  lemma OnlyEnumDiffers(b: Schema, c: Schema, d: Direction, path: string, ch: Change)
    requires b.Node? && c.Node? && c == b.(enum := c.enum) && b.properties == map[] && b.items.None?
    requires ch in DiffAt(b, c, d, path, 0)
    ensures ch in DiffEnum(b.enum, c.enum, d, path)
  {
    InNode(b, c, d, path, 0, ch);
    hide DiffAt, DiffEnum, DiffProperty;
    assert NonNullType(b) == NonNullType(c) && IsNullable(b) == IsNullable(c);
    assert forall key :: DiffConstraint(b, c, d, path, key) == [];
  }

  /** An enum the producer lacks makes compatible changes only. */
  lemma ConsumerEnumCompatible(be: Option<seq<Scalar>>, ce: Option<seq<Scalar>>, d: Direction, path: string, ch: Change)
    requires !d.Neutral? && (d.Input? ==> EnumSet(be) == {}) && (d.Output? ==> EnumSet(ce) == {})
    requires ch in DiffEnum(be, ce, d, path)
    ensures ch.classification.Compatible?
  {
    InEnum(be, ce, d, path, ch);
    hide DiffEnum, EnumSet;
  }

  lemma OneEnumValue(b: Schema, c: Schema, d: Direction)
    requires b.Node? && c.Node? && c == b.(enum := c.enum) && b.properties == map[] && b.items.None?
    requires !d.Neutral? && (if d.Input? then b.enum.None? else c.enum.None?)
    ensures AllCompatible(DiffAt(b, c, d, "$", 0))
  {
    assert EnumSet(None) == {};
    hide DiffAt, DiffEnum, EnumSet;
    forall ch | ch in DiffAt(b, c, d, "$", 0) ensures ch.classification.Compatible? {
      OnlyEnumDiffers(b, c, d, "$", ch);
      ConsumerEnumCompatible(b.enum, c.enum, d, "$", ch);
    }
  }
}
