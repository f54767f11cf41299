/** Which differences make a diff breaking, and which ones only a warning, read off the schemas as they were
    published: no table, no change list, no normalization. */
module SchemaBreakage {
  import opened Ordering
  import opened Options
  import opened SchemaModel
  import opened SchemaRules
  import opened SchemaDiff
  import opened SchemaNormalizer
  import opened SchemaVerdicts
  import opened SchemaLocations

  // ---------- readings of a published node ----------

  /** The types a node declares, "null" aside unless it is the only one. */
  function DeclaredTypes(s: Schema): Option<set<string>>
    requires s.Node?
  {
    match s.typ
    case NoType => None
    case OneType(name) => Some({name})
    case TypeList(names) =>
      var all := set name | name in names;
      if |all| == 1 then Some(all)
      else if all - {"null"} == {} then None
      else Some(all - {"null"})
  }

  /** "null" beside another type, or a `nullable` that Python reads as true. */
  predicate MayBeNull(s: Schema)
    requires s.Node?
  {
    || (s.typ.TypeList? && "null" in s.typ.names && exists other :: other in s.typ.names && other != "null")
    || s.nullable !in {NullValue, BoolValue(false), NumberValue(0.0), TextValue("")}
  }

  // ---------- what breaks, and what warns ----------

  /** Breaks in every direction: another non-node schema, another type, or `items` on one side only. */
  predicate ShapeBreaks(x: Schema, y: Schema) {
    if x.Opaque? || y.Opaque? then x != y
    else
      || (DeclaredTypes(x).Some? && DeclaredTypes(y).Some? && DeclaredTypes(x) != DeclaredTypes(y))
      || (x.items.Some? && y.items.None?)
      || (x.items.None? && y.items.Some?)
  }

  ghost predicate LosesValue(x: Schema, y: Schema)
    requires x.Node? && y.Node?
  {
    exists v :: Lists(x, v) && !Lists(y, v)
  }

  ghost predicate NodeBreaks(x: Schema, y: Schema, d: Direction) {
    || ShapeBreaks(x, y)
    || (x.Node? && y.Node? && d.Input? && MayBeNull(x) && !MayBeNull(y))
    || (x.Node? && y.Node? && d.Input? && LosesValue(x, y))
    || (x.Node? && y.Node? && d.Input? && exists n :: n in y.properties && n in y.required && !(n in x.properties && n in x.required))
    || (x.Node? && y.Node? && d.Output? && exists n :: n in x.properties && n !in x.required && n !in y.properties)
  }

  ghost predicate InputWarns(x: Schema, y: Schema)
    requires x.Node? && y.Node?
  {
    || (exists n :: n in x.properties && n !in x.required && n !in y.properties)
    || (exists key, was, now :: ConstraintMoves(x, y, key, was, now) && !Stricter(key, now, was))
  }

  ghost predicate OutputWarns(x: Schema, y: Schema)
    requires x.Node? && y.Node?
  {
    || (exists n :: n in x.properties && n in x.required && !(n in y.properties && n in y.required))
    || (!MayBeNull(x) && MayBeNull(y))
    || LosesValue(y, x)
    || (exists key, was, now :: ConstraintMoves(x, y, key, was, now) && !Stricter(key, was, now))
  }

  /** Declared on one side only, or required on one side only. */
  predicate PropertyMoves(x: Schema, y: Schema, n: string)
    requires x.Node? && y.Node?
  {
    || (n in x.properties && n !in y.properties)
    || (n !in x.properties && n in y.properties)
    || (n in x.properties && n in y.properties && (n in x.required <==> n !in y.required))
  }

  ghost predicate NeutralWarns(x: Schema, y: Schema)
    requires x.Node? && y.Node?
  {
    || (exists n :: PropertyMoves(x, y, n))
    || (MayBeNull(x) <==> !MayBeNull(y))
    || LosesValue(x, y) || LosesValue(y, x)
    || (exists key, was, now :: ConstraintMoves(x, y, key, was, now))
  }

  ghost predicate NodeWarns(x: Schema, y: Schema, d: Direction) {
    && x.Node? && y.Node?
    && match d
       case Input => InputWarns(x, y)
       case Output => OutputWarns(x, y)
       case Neutral => NeutralWarns(x, y)
  }

  ghost predicate BreaksSomewhere(b: Schema, c: Schema, d: Direction) {
    exists route :: BreaksAt(b, c, d, route)
  }

  ghost predicate BreaksAt(b: Schema, c: Schema, d: Direction, route: seq<Hop>) {
    && SubschemaAt(b, route).Some? && SubschemaAt(c, route).Some?
    && NodeBreaks(SubschemaAt(b, route).value, SubschemaAt(c, route).value, d)
  }

  ghost predicate WarnsSomewhere(b: Schema, c: Schema, d: Direction) {
    exists route :: WarnsAt(b, c, d, route)
  }

  ghost predicate WarnsAt(b: Schema, c: Schema, d: Direction, route: seq<Hop>) {
    && SubschemaAt(b, route).Some? && SubschemaAt(c, route).Some?
    && NodeWarns(SubschemaAt(b, route).value, SubschemaAt(c, route).value, d)
  }

  // ---------- the normalized node reads the same ----------

  lemma NamesAscend(s: set<string>)
    ensures SortedBy(NameLe, SortedNames(s))
  {
    NameOrder();
  }

  /** A set of names has one ascending arrangement. */
  lemma {:induction false} AscendingUnique(a: seq<string>, b: seq<string>)
    requires SortedBy(NameLe, a) && NoDuplicates(a) && SortedBy(NameLe, b) && NoDuplicates(b)
    requires forall n :: n in a <==> n in b
    ensures a == b
  {
    hide NameLe;
    assert a == [] || a[0] in a;
    assert b == [] || b[0] in b;
    if a != [] {
      NameLeTotal(a[0], b[0]);
      assert a[0] == b[0];
      assert a == [a[0]] + a[1..] && b == [b[0]] + b[1..];
      forall n ensures n in a[1..] <==> n in b[1..] {
        assert n in a[1..] <==> n in a && n != a[0];
        assert n in b[1..] <==> n in b && n != b[0];
      }
      AscendingUnique(a[1..], b[1..]);
    }
  }

  lemma {:induction false} WithoutNullAscends(names: seq<string>)
    requires SortedBy(NameLe, names) && NoDuplicates(names)
    ensures SortedBy(NameLe, WithoutNull(names)) && NoDuplicates(WithoutNull(names))
  {
    if names != [] {
      WithoutNullAscends(names[1..]);
      forall n | n in WithoutNull(names[1..]) ensures NameLe(names[0], n) && n != names[0] {
        var i :| 1 <= i < |names| && names[i] == n;
      }
    }
  }

  /** The differ's reading of a normalized node is the published reading, its types in ascending order. */
  lemma ReadingsNormalized(s: Schema, depth: nat)
    requires s.Node? && Normalize(s, depth).Some?
    ensures var n := Normalize(s, depth).value;
      && n.Node?
      && NonNullType(n) == (if DeclaredTypes(s).Some? then Some(SortedNames(DeclaredTypes(s).value)) else None)
      && (IsNullable(n) <==> MayBeNull(s))
  {
    NormalizedNode(s, depth);
    var n := Normalize(s, depth).value;
    hide Normalize;
    match s.typ
    case NoType =>
    case OneType(name) =>
      OneName(name);
    case TypeList(names) =>
      TypeListNormalized(names, n.typ);
      assert SetOf(names) == set name | name in names;
      AmongOthers(names);
  }

  lemma AmongOthers(names: seq<string>)
    ensures "null" in names ==> (|SetOf(names)| != 1 <==> exists other :: other in names && other != "null")
  {
    var all := SetOf(names);
    if "null" in names {
      if other :| other in names && other != "null" {
        assert all == {"null", other} + (all - {"null", other});
      } else {
        assert all == {"null"};
      }
    }
  }

  lemma NamesDetermineSet(a: set<string>, b: set<string>)
    ensures SortedNames(a) == SortedNames(b) ==> a == b
  {
    assert forall n :: n in a <==> n in SortedNames(a);
    assert forall n :: n in b <==> n in SortedNames(b);
  }

  lemma OneName(name: string)
    ensures SortedNames({name}) == [name]
  {
    var r := SortedNames({name});
    assert |r| == |{name}| == 1;
    assert r[0] in r;
  }

  lemma TypeListNormalized(names: seq<string>, t: TypeKeyword)
    requires t == NormalizeType(TypeList(names))
    ensures var all := SetOf(names); var rest := all - {"null"};
      if |all| == 1 then t.OneType? && SortedNames(all) == [t.name]
      else t.TypeList? && SetOf(t.names) == all && WithoutNull(t.names) == SortedNames(rest)
  {
    var all := SetOf(names);
    var sorted := SortedNames(all);
    if |all| != 1 {
      assert t.names == sorted;
      NamesAscend(all);
      NamesAscend(all - {"null"});
      WithoutNullAscends(sorted);
      AscendingUnique(WithoutNull(sorted), SortedNames(all - {"null"}));
    }
  }

  /** `n` reads as `x` does, keyword by keyword. */
  ghost predicate ReadsAs(x: Schema, n: Schema) {
    if x.Opaque? then n == x
    else
      && n.Node?
      && NonNullType(n) == (if DeclaredTypes(x).Some? then Some(SortedNames(DeclaredTypes(x).value)) else None)
      && (IsNullable(n) <==> MayBeNull(x))
      && n.constraints == x.constraints
      && (forall v :: Lists(n, v) <==> Lists(x, v))
      && n.properties.Keys == x.properties.Keys
      && (forall name :: name in n.required <==> name in x.required)
      && (n.items.Some? <==> x.items.Some?)
  }

  lemma NormalizedReadsAs(s: Schema, depth: nat)
    requires Normalize(s, depth).Some?
    ensures ReadsAs(s, Normalize(s, depth).value)
  {
    if s.Node? {
      NormalizedNode(s, depth);
      ReadingsNormalized(s, depth);
      hide Normalize, NonNullType, DeclaredTypes, IsNullable, MayBeNull;
      var n := Normalize(s, depth).value;
      forall v ensures Lists(n, v) <==> Lists(s, v) {
        if s.enum.Some? { assert v in s.enum.value <==> v in SetOf(s.enum.value); assert v in n.enum.value <==> v in SetOf(n.enum.value); }
      }
    }
  }

  /** The route reaches nothing in either schema, or two subschemas that read the same. */
  ghost predicate ReachesAlike(s: Schema, n: Schema, route: seq<Hop>) {
    && (SubschemaAt(s, route).Some? <==> SubschemaAt(n, route).Some?)
    && (SubschemaAt(s, route).Some? ==> ReadsAs(SubschemaAt(s, route).value, SubschemaAt(n, route).value))
  }

  /** Normalization keeps which subschemas a route reaches, and how they read. */
  lemma {:induction false} SubschemaNormalized(s: Schema, n: Schema, depth: nat, route: seq<Hop>)
    requires Normalize(s, depth) == Some(n)
    ensures ReachesAlike(s, n, route)
    decreases |route|
  {
    hide ReadsAs;
    NormalizedReadsAs(s, depth);
    if s.Node? && route != [] {
      NormalizedNode(s, depth);
      hide Normalize;
      match route[0]
      case IntoProperty(name) =>
        if name in s.properties { SubschemaNormalized(s.properties[name], n.properties[name], depth + 1, route[1..]); }
      case IntoItems =>
        if s.items.Some? { SubschemaNormalized(s.items.value, n.items.value, depth + 1, route[1..]); }
    }
  }

  // ---------- one pair of nodes ----------

  /** The verdict the tables give a finding. */
  function Weight(f: Finding, d: Direction): Classification {
    VerdictFor(f.changeType, d, if f.evidence.ConstraintEvidence? then f.evidence.tightened else None).0
  }

  ghost predicate Weighs(x: Schema, y: Schema, named: ChangeType, here: string, d: Direction, cl: Classification, f: Finding) {
    OwnDifference(x, y, named, here, f) && Weight(f, d) == cl
  }

  /** Some difference of the normalized nodes is breaking exactly when the published nodes break. */
  lemma BreakingNode(x: Schema, y: Schema, nx: Schema, ny: Schema, named: ChangeType, here: string, d: Direction)
    requires ReadsAs(x, nx) && ReadsAs(y, ny) && named in {TypeChanged, ArrayItemTypeChanged}
    ensures (exists f :: Weighs(nx, ny, named, here, d, Breaking, f)) <==> NodeBreaks(x, y, d)
  {
    if f :| Weighs(nx, ny, named, here, d, Breaking, f) { BreakingFound(x, y, nx, ny, named, here, d, f); }
    if NodeBreaks(x, y, d) { var f := BreakingFinding(x, y, nx, ny, named, here, d); }
  }

  lemma BreakingFound(x: Schema, y: Schema, nx: Schema, ny: Schema, named: ChangeType, here: string, d: Direction, f: Finding)
    requires ReadsAs(x, nx) && ReadsAs(y, ny) && named in {TypeChanged, ArrayItemTypeChanged}
    requires Weighs(nx, ny, named, here, d, Breaking, f)
    ensures NodeBreaks(x, y, d)
  {
    hide NonNullType, DeclaredTypes, IsNullable, MayBeNull, Lists, ConstraintMoves, Stricter;
    if x.Node? && y.Node? {
      if KeywordDifference(nx, ny, named, here, f) {
        hide PropertyDifference, ItemDifference, OwnDifference, EnumNarrowing;
        NarrowingLoses(nx, ny, here, f);
      } else if !ItemDifference(nx, ny, here, f) {
        hide KeywordDifference, ItemDifference;
        var n :| PropertyDifference(nx, ny, here, n, f);
      }
    }
  }

  lemma NarrowingLoses(x: Schema, y: Schema, here: string, f: Finding)
    requires x.Node? && y.Node?
    ensures EnumNarrowing(x, y, here, f) ==> f.changeType.EnumNarrowed? && LosesValue(x, y)
  {
    if EnumNarrowing(x, y, here, f) {
      var was, now := SetOf(x.enum.value), SetOf(y.enum.value);
      assert !(was <= now);
      var v :| v in was && v !in now;
      assert Lists(x, v) && !Lists(y, v);
    }
  }

  lemma PropertyFinding(x: Schema, y: Schema, here: string, n: string) returns (f: Finding)
    requires x.Node? && y.Node? && (n in x.properties || n in y.properties)
    requires n in x.properties && n in y.properties ==> (n in x.required <==> n !in y.required)
    ensures PropertyDifference(x, y, here, n, f) && f.evidence.NoEvidence?
    ensures n in x.properties && n in x.required ==> f.changeType.RequiredFieldRemoved?
    ensures n in x.properties && n !in x.required && n !in y.properties ==> f.changeType.FieldRemoved?
    ensures !(n in x.properties && n in x.required) && n in y.properties && n in y.required ==> f.changeType.RequiredFieldAdded?
    ensures n !in x.properties && n !in y.required ==> f.changeType.FieldAdded?
  {
    var at := here + ".properties." + n;
    f := if n !in y.properties then
           Finding(if n in x.required then RequiredFieldRemoved else FieldRemoved, at, ShownSchema(x.properties[n]), NotShown, NoEvidence)
         else if n !in x.properties then
           Finding(if n in y.required then RequiredFieldAdded else FieldAdded, at, NotShown, ShownSchema(y.properties[n]), NoEvidence)
         else
           Finding(if n in y.required then RequiredFieldAdded else RequiredFieldRemoved, at, NotShown, NotShown, NoEvidence);
  }

  lemma BreakingFinding(x: Schema, y: Schema, nx: Schema, ny: Schema, named: ChangeType, here: string, d: Direction)
    returns (f: Finding)
    requires ReadsAs(x, nx) && ReadsAs(y, ny) && named in {TypeChanged, ArrayItemTypeChanged}
    requires NodeBreaks(x, y, d)
    ensures Weighs(nx, ny, named, here, d, Breaking, f)
  {
    hide NonNullType, DeclaredTypes, IsNullable, MayBeNull, Lists, ConstraintMoves, Stricter;
    if ShapeBreaks(x, y) {
      f := ShapeFinding(x, y, nx, ny, named, here);
    } else if d.Input? && MayBeNull(x) && !MayBeNull(y) {
      f := Finding(NullableToNonNullable, here, NotShown, NotShown, NoEvidence);
    } else if d.Input? && LosesValue(x, y) {
      var v :| Lists(x, v) && !Lists(y, v);
      f := Finding(EnumValueRemoved, here, ShownScalar(v), NotShown, NoEvidence);
    } else if d.Input? {
      var n :| n in y.properties && n in y.required && !(n in x.properties && n in x.required);
      f := PropertyFinding(nx, ny, here, n);
    } else {
      var n :| n in x.properties && n !in x.required && n !in y.properties;
      f := PropertyFinding(nx, ny, here, n);
    }
  }

  lemma ShapeFinding(x: Schema, y: Schema, nx: Schema, ny: Schema, named: ChangeType, here: string) returns (f: Finding)
    requires ReadsAs(x, nx) && ReadsAs(y, ny) && named in {TypeChanged, ArrayItemTypeChanged} && ShapeBreaks(x, y)
    ensures OwnDifference(nx, ny, named, here, f) && f.changeType in {TypeChanged, ArrayItemTypeChanged}
  {
    hide NonNullType, DeclaredTypes, IsNullable, MayBeNull, Lists, ConstraintMoves, Stricter;
    if x.Opaque? || y.Opaque? {
      f := Finding(named, here, ShownSchema(nx), ShownSchema(ny), NoEvidence);
    } else if x.items.Some? != y.items.Some? {
      f := Finding(ArrayItemTypeChanged, here + "[]", ShownItems(nx.items), ShownItems(ny.items), NoEvidence);
    } else {
      f := Finding(named, here, ShownType(NonNullType(nx).value), ShownType(NonNullType(ny).value), NoEvidence);
      NamesDetermineSet(DeclaredTypes(x).value, DeclaredTypes(y).value);
    }
  }

  lemma WarningNode(x: Schema, y: Schema, nx: Schema, ny: Schema, named: ChangeType, here: string, d: Direction)
    requires ReadsAs(x, nx) && ReadsAs(y, ny) && named in {TypeChanged, ArrayItemTypeChanged}
    ensures (exists f :: Weighs(nx, ny, named, here, d, PotentiallyBreaking, f)) <==> NodeWarns(x, y, d)
  {
    hide Weighs, NodeWarns, ReadsAs;
    if f :| Weighs(nx, ny, named, here, d, PotentiallyBreaking, f) { WarningFound(x, y, nx, ny, named, here, d, f); }
    if NodeWarns(x, y, d) {
      var f := WarningFinding(x, y, nx, ny, named, here, d);
    }
  }

  lemma WarningFound(x: Schema, y: Schema, nx: Schema, ny: Schema, named: ChangeType, here: string, d: Direction, f: Finding)
    requires ReadsAs(x, nx) && ReadsAs(y, ny) && named in {TypeChanged, ArrayItemTypeChanged}
    requires Weighs(nx, ny, named, here, d, PotentiallyBreaking, f)
    ensures NodeWarns(x, y, d)
  {
    hide NonNullType, DeclaredTypes, IsNullable, MayBeNull, Lists, ConstraintMoves, Stricter;
    if x.Node? && y.Node? {
      if KeywordDifference(nx, ny, named, here, f) {
        hide PropertyDifference, ItemDifference, OwnDifference, EnumNarrowing;
        NarrowingLoses(nx, ny, here, f);
        if key :| ConstraintDifference(nx, ny, here, key, f) { MoveFound(x, y, nx, ny, here, d, key, f); }
      } else if !ItemDifference(nx, ny, here, f) {
        hide KeywordDifference, ItemDifference;
        var n :| PropertyDifference(nx, ny, here, n, f);
        assert PropertyMoves(x, y, n);
      }
    }
  }

  lemma MoveFound(x: Schema, y: Schema, nx: Schema, ny: Schema, here: string, d: Direction, key: ConstraintKey, f: Finding)
    requires x.Node? && y.Node? && ReadsAs(x, nx) && ReadsAs(y, ny)
    requires ConstraintDifference(nx, ny, here, key, f) && Weight(f, d) == PotentiallyBreaking
    ensures NodeWarns(x, y, d)
  {
    hide NonNullType, DeclaredTypes, IsNullable, MayBeNull, Lists, Stricter;
    var was, now :| ConstraintMoves(nx, ny, key, was, now) && f == MoveFinding(key, was, now, here);
    assert ConstraintMoves(x, y, key, was, now);
    NotBothWays(key, was, now);
  }

  lemma NotBothWays(key: ConstraintKey, was: Scalar, now: Scalar)
    ensures !(Stricter(key, was, now) && Stricter(key, now, was))
  {
  }

  lemma PropertyOwned(x: Schema, y: Schema, named: ChangeType, here: string, n: string, f: Finding)
    requires x.Node? && y.Node? && PropertyDifference(x, y, here, n, f)
    ensures OwnDifference(x, y, named, here, f)
  {
    hide PropertyDifference, KeywordDifference, ItemDifference;
  }

  lemma MoveOwned(x: Schema, y: Schema, named: ChangeType, here: string, key: ConstraintKey, f: Finding)
    requires x.Node? && y.Node? && ConstraintDifference(x, y, here, key, f)
    ensures OwnDifference(x, y, named, here, f)
  {
    hide ConstraintDifference, PropertyDifference, ItemDifference;
  }

  lemma InputFinding(x: Schema, y: Schema, nx: Schema, ny: Schema, named: ChangeType, here: string) returns (f: Finding)
    requires x.Node? && y.Node? && ReadsAs(x, nx) && ReadsAs(y, ny) && InputWarns(x, y)
    ensures Weighs(nx, ny, named, here, Input, PotentiallyBreaking, f)
  {
    hide NonNullType, DeclaredTypes, IsNullable, MayBeNull, Lists, Stricter, PropertyDifference, ConstraintDifference;
    if n :| n in x.properties && n !in x.required && n !in y.properties {
      f := PropertyFinding(nx, ny, here, n);
      PropertyOwned(nx, ny, named, here, n, f);
    } else {
      var key, was, now :| ConstraintMoves(x, y, key, was, now) && !Stricter(key, now, was);
      f := MoveShown(x, y, nx, ny, here, key, was, now);
      MoveOwned(nx, ny, named, here, key, f);
    }
  }

  lemma MoveShown(x: Schema, y: Schema, nx: Schema, ny: Schema, here: string, key: ConstraintKey, was: Scalar, now: Scalar)
    returns (f: Finding)
    requires x.Node? && y.Node? && ReadsAs(x, nx) && ReadsAs(y, ny) && ConstraintMoves(x, y, key, was, now)
    ensures f == MoveFinding(key, was, now, here) && ConstraintDifference(nx, ny, here, key, f)
  {
    hide NonNullType, DeclaredTypes, IsNullable, MayBeNull, Lists, Stricter;
    f := MoveFinding(key, was, now, here);
    assert ConstraintMoves(nx, ny, key, was, now);
  }

  lemma OutputFinding(x: Schema, y: Schema, nx: Schema, ny: Schema, named: ChangeType, here: string) returns (f: Finding)
    requires x.Node? && y.Node? && ReadsAs(x, nx) && ReadsAs(y, ny) && OutputWarns(x, y)
    ensures Weighs(nx, ny, named, here, Output, PotentiallyBreaking, f)
  {
    hide NonNullType, DeclaredTypes, IsNullable, MayBeNull, Lists, Stricter, PropertyDifference, ConstraintDifference;
    if n :| n in x.properties && n in x.required && !(n in y.properties && n in y.required) {
      f := PropertyFinding(nx, ny, here, n);
      PropertyOwned(nx, ny, named, here, n, f);
    } else if !MayBeNull(x) && MayBeNull(y) {
      f := Finding(NonNullableToNullable, here, NotShown, NotShown, NoEvidence);
    } else if v :| Lists(y, v) && !Lists(x, v) {
      f := Finding(EnumValueAdded, here, NotShown, ShownScalar(v), NoEvidence);
    } else {
      var key, was, now :| ConstraintMoves(x, y, key, was, now) && !Stricter(key, was, now);
      f := MoveShown(x, y, nx, ny, here, key, was, now);
      MoveOwned(nx, ny, named, here, key, f);
    }
  }

  lemma NeutralFinding(x: Schema, y: Schema, nx: Schema, ny: Schema, named: ChangeType, here: string) returns (f: Finding)
    requires x.Node? && y.Node? && ReadsAs(x, nx) && ReadsAs(y, ny) && NeutralWarns(x, y)
    ensures Weighs(nx, ny, named, here, Neutral, PotentiallyBreaking, f)
  {
    hide NonNullType, DeclaredTypes, IsNullable, MayBeNull, Lists, Stricter, PropertyDifference, ConstraintDifference;
    if n :| PropertyMoves(x, y, n) {
      f := PropertyFinding(nx, ny, here, n);
      PropertyOwned(nx, ny, named, here, n, f);
    } else if MayBeNull(x) <==> !MayBeNull(y) {
      f := Finding(if MayBeNull(x) then NullableToNonNullable else NonNullableToNullable, here, NotShown, NotShown, NoEvidence);
    } else if v :| Lists(x, v) && !Lists(y, v) {
      f := Finding(EnumValueRemoved, here, ShownScalar(v), NotShown, NoEvidence);
    } else if v :| Lists(y, v) && !Lists(x, v) {
      f := Finding(EnumValueAdded, here, NotShown, ShownScalar(v), NoEvidence);
    } else {
      var key, was, now :| ConstraintMoves(x, y, key, was, now);
      f := MoveShown(x, y, nx, ny, here, key, was, now);
      MoveOwned(nx, ny, named, here, key, f);
    }
  }

  lemma WarningFinding(x: Schema, y: Schema, nx: Schema, ny: Schema, named: ChangeType, here: string, d: Direction)
    returns (f: Finding)
    requires ReadsAs(x, nx) && ReadsAs(y, ny) && NodeWarns(x, y, d)
    ensures Weighs(nx, ny, named, here, d, PotentiallyBreaking, f)
  {
    match d
    case Input => f := InputFinding(x, y, nx, ny, named, here);
    case Output => f := OutputFinding(x, y, nx, ny, named, here);
    case Neutral => f := NeutralFinding(x, y, nx, ny, named, here);
  }

  // ---------- whole documents ----------

  ghost predicate SomeClassified(changes: seq<Change>, cl: Classification) {
    exists ch :: ch in changes && ch.classification == cl
  }

  ghost predicate WeighsAt(b: Schema, c: Schema, d: Direction, root: string, cl: Classification, route: seq<Hop>) {
    && SubschemaAt(b, route).Some? && SubschemaAt(c, route).Some?
    && exists f :: Weighs(SubschemaAt(b, route).value, SubschemaAt(c, route).value, TypeChangeAt(route), root + RouteText(route), d, cl, f)
  }

  lemma ChangeWeighs(b: Schema, c: Schema, d: Direction, root: string, ch: Change) returns (route: seq<Hop>)
    requires Fits(b, 0) && ch in DiffAt(b, c, d, root, 0)
    ensures WeighsAt(b, c, d, root, ch.classification, route)
  {
    hide DiffAt, Fits, OwnDifference, SubschemaAt, RouteText, TypeChangeAt, VerdictFor;
    var f := FindingOf(ch);
    DiffWellClassified(b, c, d, root, 0, ch);
    FindingsAreLocated(b, c, d, root, 0, f);
    route :| Located(b, c, root, route, f);
    var x, y := SubschemaAt(b, route).value, SubschemaAt(c, route).value;
    assert Weighs(x, y, TypeChangeAt(route), root + RouteText(route), d, ch.classification, f);
  }

  lemma WeightIsReported(b: Schema, c: Schema, d: Direction, root: string, cl: Classification, route: seq<Hop>) returns (ch: Change)
    requires Fits(b, 0) && WeighsAt(b, c, d, root, cl, route)
    ensures ch in DiffAt(b, c, d, root, 0) && ch.classification == cl
  {
    hide DiffAt, Fits, OwnDifference, SubschemaAt, RouteText, TypeChangeAt, VerdictFor;
    var x, y := SubschemaAt(b, route).value, SubschemaAt(c, route).value;
    var f :| Weighs(x, y, TypeChangeAt(route), root + RouteText(route), d, cl, f);
    assert Located(b, c, root, route, f);
    FindingsAreLocated(b, c, d, root, 0, f);
    ch :| ch in DiffAt(b, c, d, root, 0) && FindingOf(ch) == f;
    DiffWellClassified(b, c, d, root, 0, ch);
  }

  /** A diff holds a change of some classification exactly when some route's own differences weigh that much. */
  lemma DiffWeighs(b: Schema, c: Schema, d: Direction, root: string, cl: Classification)
    requires Fits(b, 0)
    ensures SomeClassified(DiffAt(b, c, d, root, 0), cl) <==> exists route :: WeighsAt(b, c, d, root, cl, route)
  {
    hide DiffAt, Fits, WeighsAt;
    if SomeClassified(DiffAt(b, c, d, root, 0), cl) {
      var ch :| ch in DiffAt(b, c, d, root, 0) && ch.classification == cl;
      var route := ChangeWeighs(b, c, d, root, ch);
    }
    if route :| WeighsAt(b, c, d, root, cl, route) {
      var ch := WeightIsReported(b, c, d, root, cl, route);
    }
  }

  lemma RouteWeighs(b: Schema, c: Schema, nb: Schema, nc: Schema, d: Direction, root: string, route: seq<Hop>)
    requires Normalize(b, 0) == Some(nb) && Normalize(c, 0) == Some(nc)
    ensures WeighsAt(nb, nc, d, root, Breaking, route) <==> BreaksAt(b, c, d, route)
    ensures WeighsAt(nb, nc, d, root, PotentiallyBreaking, route) <==> WarnsAt(b, c, d, route)
  {
    hide Normalize, ReadsAs, Weighs, NodeBreaks, NodeWarns, SubschemaAt, RouteText;
    SubschemaNormalized(b, nb, 0, route);
    SubschemaNormalized(c, nc, 0, route);
    if SubschemaAt(b, route).Some? && SubschemaAt(c, route).Some? {
      var x, y := SubschemaAt(b, route).value, SubschemaAt(c, route).value;
      var nx, ny := SubschemaAt(nb, route).value, SubschemaAt(nc, route).value;
      BreakingNode(x, y, nx, ny, TypeChangeAt(route), root + RouteText(route), d);
      WarningNode(x, y, nx, ny, TypeChangeAt(route), root + RouteText(route), d);
    }
  }

  /** The diff of two documents holds a breaking change exactly when the published documents break somewhere, and a
      potentially breaking one exactly when they warn somewhere. */
  lemma DiffBreaksExactly(b: Schema, c: Schema, d: Direction, root: string)
    requires Normalize(b, 0).Some? && Normalize(c, 0).Some?
    ensures var changes := DiffAt(Normalize(b, 0).value, Normalize(c, 0).value, d, root, 0);
      && (SomeClassified(changes, Breaking) <==> BreaksSomewhere(b, c, d))
      && (SomeClassified(changes, PotentiallyBreaking) <==> WarnsSomewhere(b, c, d))
  {
    hide DiffAt, Normalize, Fits, WeighsAt, BreaksAt, WarnsAt, SomeClassified;
    var nb, nc := Normalize(b, 0).value, Normalize(c, 0).value;
    NormalizedFits(b, 0);
    DiffWeighs(nb, nc, d, root, Breaking);
    DiffWeighs(nb, nc, d, root, PotentiallyBreaking);
    forall route
      ensures WeighsAt(nb, nc, d, root, Breaking, route) <==> BreaksAt(b, c, d, route)
      ensures WeighsAt(nb, nc, d, root, PotentiallyBreaking, route) <==> WarnsAt(b, c, d, route)
    {
      RouteWeighs(b, c, nb, nc, d, root, route);
    }
  }
}
