/** Where each change sits and what it shows: the findings of a diff are exactly the differences between the two
    subschemas some shared route leads to, at the path that spells the route. */
module SchemaLocations {
  import opened Options
  import opened SchemaModel
  import opened SchemaRules
  import opened SchemaDiff
  import opened SchemaDiffFacts
  import opened SchemaNormalizer
  import opened SchemaVerdicts

  /** A change without its verdict. */
  datatype Finding = Finding(changeType: ChangeType, path: string, oldValue: Shown, newValue: Shown, evidence: Evidence)

  function FindingOf(ch: Change): Finding { Finding(ch.changeType, ch.path, ch.oldValue, ch.newValue, ch.evidence) }

  ghost predicate Reports(changes: seq<Change>, f: Finding) {
    exists ch :: ch in changes && FindingOf(ch) == f
  }

  // ---------- routes ----------

  /** The subschema a route leads to, object node or not. */
  function SubschemaAt(s: Schema, route: seq<Hop>): Option<Schema>
    decreases |route|
  {
    if route == [] then Some(s)
    else if s.Opaque? then None
    else match route[0]
      case IntoProperty(name) => if name in s.properties then SubschemaAt(s.properties[name], route[1..]) else None
      case IntoItems => if s.items.Some? then SubschemaAt(s.items.value, route[1..]) else None
  }

  function HopText(hop: Hop): string {
    match hop
    case IntoProperty(name) => ".properties." + name
    case IntoItems => "[]"
  }

  function RouteText(route: seq<Hop>): string {
    if route == [] then "" else HopText(route[0]) + RouteText(route[1..])
  }

  /** What a differing type is named: an item schema's own type has a name of its own. */
  function TypeChangeAt(route: seq<Hop>): ChangeType {
    if route != [] && route[|route| - 1].IntoItems? then ArrayItemTypeChanged else TypeChanged
  }

  // ---------- the differences two subschemas show ----------

  predicate Lists(s: Schema, v: Scalar)
    requires s.Node?
  {
    s.enum.Some? && v in s.enum.value
  }

  /** The constraint keyword has value `v`; an absent one reads as null. */
  predicate Holds(s: Schema, key: ConstraintKey, v: Scalar)
    requires s.Node?
  {
    if key in s.constraints then s.constraints[key] == v else v == NullValue
  }

  predicate Smaller(x: Scalar, y: Scalar) { x.NumberValue? && y.NumberValue? && x.r < y.r }

  /** A lower bound that rises, an upper bound that falls, uniqueness switched on. */
  predicate Stricter(key: ConstraintKey, was: Scalar, now: Scalar) {
    match key
    case Minimum => Smaller(was, now)
    case ExclusiveMinimum => Smaller(was, now)
    case MinLength => Smaller(was, now)
    case MinItems => Smaller(was, now)
    case MinProperties => Smaller(was, now)
    case Maximum => Smaller(now, was)
    case ExclusiveMaximum => Smaller(now, was)
    case MaxLength => Smaller(now, was)
    case MaxItems => Smaller(now, was)
    case MaxProperties => Smaller(now, was)
    case UniqueItems => was == BoolValue(false) && now == BoolValue(true)
    case Pattern => false
    case MultipleOf => false
  }

  predicate TypeDifference(x: Schema, y: Schema, named: ChangeType, here: string, f: Finding)
    requires x.Node? && y.Node?
  {
    && NonNullType(x).Some? && NonNullType(y).Some? && NonNullType(x) != NonNullType(y)
    && f == Finding(named, here, ShownType(NonNullType(x).value), ShownType(NonNullType(y).value), NoEvidence)
  }

  predicate NullabilityDifference(x: Schema, y: Schema, here: string, f: Finding)
    requires x.Node? && y.Node?
  {
    || (IsNullable(x) && !IsNullable(y) && f == Finding(NullableToNonNullable, here, NotShown, NotShown, NoEvidence))
    || (!IsNullable(x) && IsNullable(y) && f == Finding(NonNullableToNullable, here, NotShown, NotShown, NoEvidence))
  }

  ghost predicate EnumDifference(x: Schema, y: Schema, here: string, f: Finding)
    requires x.Node? && y.Node?
  {
    || (exists v :: Lists(x, v) && !Lists(y, v) && f == Finding(EnumValueRemoved, here, ShownScalar(v), NotShown, NoEvidence))
    || (exists v :: Lists(y, v) && !Lists(x, v) && f == Finding(EnumValueAdded, here, NotShown, ShownScalar(v), NoEvidence))
    || EnumNarrowing(x, y, here, f)
  }

  /** Something is left, nothing is new, and something is gone. */
  ghost predicate EnumNarrowing(x: Schema, y: Schema, here: string, f: Finding)
    requires x.Node? && y.Node?
  {
    && x.enum.Some? && y.enum.Some?
    && var was, now := SetOf(x.enum.value), SetOf(y.enum.value);
    now != {} && now < was && f == Finding(EnumNarrowed, here, ShownScalars(was), ShownScalars(now), RemovedValues(was - now))
  }

  predicate ConstraintMoves(x: Schema, y: Schema, key: ConstraintKey, was: Scalar, now: Scalar)
    requires x.Node? && y.Node?
  {
    Holds(x, key, was) && Holds(y, key, now) && was != now
  }

  function MoveFinding(key: ConstraintKey, was: Scalar, now: Scalar, here: string): Finding {
    var tightened := if Stricter(key, was, now) then Some(true) else if Stricter(key, now, was) then Some(false) else None;
    Finding(ConstraintChanged, here, ShownScalar(was), ShownScalar(now), ConstraintEvidence(key, tightened))
  }

  ghost predicate ConstraintDifference(x: Schema, y: Schema, here: string, key: ConstraintKey, f: Finding)
    requires x.Node? && y.Node?
  {
    exists was, now :: ConstraintMoves(x, y, key, was, now) && f == MoveFinding(key, was, now, here)
  }

  /** A property on one side only shows itself; on both sides, only its requiredness can differ here. */
  predicate PropertyDifference(x: Schema, y: Schema, here: string, n: string, f: Finding)
    requires x.Node? && y.Node?
  {
    var at := here + ".properties." + n;
    if n in x.properties && n !in y.properties then
      var change := if n in x.required then RequiredFieldRemoved else FieldRemoved;
      f == Finding(change, at, ShownSchema(x.properties[n]), NotShown, NoEvidence)
    else if n !in x.properties && n in y.properties then
      var change := if n in y.required then RequiredFieldAdded else FieldAdded;
      f == Finding(change, at, NotShown, ShownSchema(y.properties[n]), NoEvidence)
    else if n in x.properties && n !in x.required && n in y.required then
      f == Finding(RequiredFieldAdded, at, NotShown, NotShown, NoEvidence)
    else if n in x.properties && n in x.required && n !in y.required then
      f == Finding(RequiredFieldRemoved, at, NotShown, NotShown, NoEvidence)
    else
      false
  }

  predicate ItemDifference(x: Schema, y: Schema, here: string, f: Finding)
    requires x.Node? && y.Node?
  {
    if x.items.Some? && y.items.None? then
      f == Finding(ArrayItemTypeChanged, here + "[]", ShownSchema(x.items.value), NotShown, NoEvidence)
    else if x.items.None? && y.items.Some? then
      f == Finding(ArrayItemTypeChanged, here + "[]", NotShown, ShownSchema(y.items.value), NoEvidence)
    else
      false
  }

  /** A difference of the node's own keywords. */
  ghost predicate KeywordDifference(x: Schema, y: Schema, named: ChangeType, here: string, f: Finding)
    requires x.Node? && y.Node?
  {
    || TypeDifference(x, y, named, here, f)
    || NullabilityDifference(x, y, here, f)
    || EnumDifference(x, y, here, f)
    || (exists key :: ConstraintDifference(x, y, here, key, f))
  }

  /** A difference two subschemas show on their own, apart from the subschemas they share. */
  ghost predicate OwnDifference(x: Schema, y: Schema, named: ChangeType, here: string, f: Finding) {
    if x.Opaque? || y.Opaque? then
      x != y && f == Finding(named, here, ShownSchema(x), ShownSchema(y), NoEvidence)
    else
      || KeywordDifference(x, y, named, here, f)
      || (exists n :: PropertyDifference(x, y, here, n, f))
      || ItemDifference(x, y, here, f)
  }

  ghost predicate Located(b: Schema, c: Schema, root: string, route: seq<Hop>, f: Finding) {
    && SubschemaAt(b, route).Some? && SubschemaAt(c, route).Some?
    && OwnDifference(SubschemaAt(b, route).value, SubschemaAt(c, route).value, TypeChangeAt(route), root + RouteText(route), f)
  }

  ghost predicate LocatedSomewhere(b: Schema, c: Schema, root: string, f: Finding) {
    exists route :: Located(b, c, root, route, f)
  }

  // ---------- part by part ----------

  lemma TypeFound(b: Schema, c: Schema, d: Direction, here: string, f: Finding)
    requires b.Node? && c.Node?
    ensures Reports(DiffType(b, c, d, here), f) <==> TypeDifference(b, c, TypeChanged, here, f)
  {
    hide Classify, NonNullType;
    if TypeDifference(b, c, TypeChanged, here, f) { assert FindingOf(DiffType(b, c, d, here)[0]) == f; }
  }

  lemma NullabilityFound(b: Schema, c: Schema, d: Direction, here: string, f: Finding)
    requires b.Node? && c.Node?
    ensures Reports(DiffNullability(b, c, d, here), f) <==> NullabilityDifference(b, c, here, f)
  {
    hide Classify, IsNullable;
    if NullabilityDifference(b, c, here, f) { assert FindingOf(DiffNullability(b, c, d, here)[0]) == f; }
  }

  lemma EnumFound(b: Schema, c: Schema, d: Direction, here: string, f: Finding)
    requires b.Node? && c.Node?
    ensures Reports(DiffEnum(b.enum, c.enum, d, here), f) <==> EnumDifference(b, c, here, f)
  {
    hide Classify, DiffEnum;
    var changes := DiffEnum(b.enum, c.enum, d, here);
    forall v ensures v in EnumSet(b.enum) <==> Lists(b, v) {}
    forall v ensures v in EnumSet(c.enum) <==> Lists(c, v) {}
    forall ch | ch in changes && FindingOf(ch) == f ensures EnumDifference(b, c, here, f) {
      InEnum(b.enum, c.enum, d, here, ch);
      NarrowingFound(b, c, d, here, ch);
    }
    if EnumDifference(b, c, here, f) {
      EnumReported(b, c, d, here, f);
    }
  }

  lemma NarrowingFound(b: Schema, c: Schema, d: Direction, here: string, ch: Change)
    requires b.Node? && c.Node?
    ensures ch in Narrowing(EnumSet(b.enum), EnumSet(c.enum), d, here) ==> EnumNarrowing(b, c, here, FindingOf(ch))
  {
    hide Classify;
  }

  lemma EnumReported(b: Schema, c: Schema, d: Direction, here: string, f: Finding)
    requires b.Node? && c.Node? && EnumDifference(b, c, here, f)
    ensures Reports(DiffEnum(b.enum, c.enum, d, here), f)
  {
    hide Classify, DiffEnum;
    var ch: Change;
    if EnumNarrowing(b, c, here, f) {
      ch := Narrowing(EnumSet(b.enum), EnumSet(c.enum), d, here)[0];
    } else if v :| Lists(b, v) && !Lists(c, v) && f == Finding(EnumValueRemoved, here, ShownScalar(v), NotShown, NoEvidence) {
      ch := RemovedValue(v, d, here);
      assert v in EnumSet(b.enum) - EnumSet(c.enum);
    } else {
      var v :| Lists(c, v) && !Lists(b, v) && f == Finding(EnumValueAdded, here, NotShown, ShownScalar(v), NoEvidence);
      ch := AddedValue(v, d, here);
      assert v in EnumSet(c.enum) - EnumSet(b.enum);
    }
    InEnum(b.enum, c.enum, d, here, ch);
    assert FindingOf(ch) == f;
  }

  lemma TightenedMeans(key: ConstraintKey, was: Scalar, now: Scalar)
    requires was != now
    ensures ConstraintTightened(key, was, now) ==
      if Stricter(key, was, now) then Some(true) else if Stricter(key, now, was) then Some(false) else None
  {
  }

  lemma ConstraintFound(b: Schema, c: Schema, d: Direction, here: string, key: ConstraintKey, f: Finding)
    requires b.Node? && c.Node?
    ensures Reports(DiffConstraint(b, c, d, here, key), f) <==> ConstraintDifference(b, c, here, key, f)
  {
    hide ClassifyConstraintChange, ConstraintTightened, Stricter;
    var was, now := ConstraintOf(b, key), ConstraintOf(c, key);
    forall v ensures Holds(b, key, v) <==> v == was {}
    forall v ensures Holds(c, key, v) <==> v == now {}
    if was != now {
      TightenedMeans(key, was, now);
      var ch := DiffConstraint(b, c, d, here, key)[0];
      assert ConstraintMoves(b, c, key, was, now) && ConstraintDifference(b, c, here, key, FindingOf(ch));
    }
  }

  lemma PropertyFound(b: Schema, c: Schema, d: Direction, here: string, depth: nat, n: string, f: Finding)
    requires b.Node? && c.Node? && (n in b.properties || n in c.properties)
    ensures Reports(DiffProperty(b, c, d, here, depth, n), f) <==>
      || PropertyDifference(b, c, here, n, f)
      || (n in b.properties && n in c.properties
          && Reports(DiffAt(b.properties[n], c.properties[n], d, here + ".properties." + n, depth + 1), f))
  {
    hide Classify, DiffAt;
    var changes := DiffProperty(b, c, d, here, depth, n);
    if PropertyDifference(b, c, here, n, f) { assert FindingOf(changes[0]) == f; }
    if n in b.properties && n in c.properties {
      var nested := DiffAt(b.properties[n], c.properties[n], d, here + ".properties." + n, depth + 1);
      assert forall ch :: ch in nested ==> ch in changes;
    }
  }

  /** What relabelling does to a finding. */
  function Renamed(g: Finding, at: string): Finding {
    if g.path == at && g.changeType == TypeChanged
    then Finding(ArrayItemTypeChanged, at, g.oldValue, g.newValue, NoEvidence)
    else g
  }

  lemma RelabelFound(nested: seq<Change>, at: string, d: Direction, f: Finding)
    ensures Reports(Relabel(nested, at, d), f) <==> exists g :: Reports(nested, g) && f == Renamed(g, at)
  {
    hide Classify, Relabel;
    var changes := Relabel(nested, at, d);
    forall n: Change ensures FindingOf(RelabelOne(n, at, d)) == Renamed(FindingOf(n), at) {}
    forall ch | ch in changes && FindingOf(ch) == f ensures exists g :: Reports(nested, g) && f == Renamed(g, at) {
      InRelabeled(nested, at, d, ch);
      var n :| n in nested && ch == RelabelOne(n, at, d);
      assert Reports(nested, FindingOf(n));
    }
    if g :| Reports(nested, g) && f == Renamed(g, at) {
      var n :| n in nested && FindingOf(n) == g;
      InRelabeled(nested, at, d, RelabelOne(n, at, d));
    }
  }

  // ---------- the induction ----------

  lemma OwnDifferenceSits(x: Schema, y: Schema, named: ChangeType, here: string, f: Finding)
    requires OwnDifference(x, y, named, here, f)
    ensures |f.path| >= |here|
    ensures f.evidence.NoEvidence? || !f.changeType.TypeChanged?
  {
    hide NonNullType, IsNullable, Lists, ConstraintMoves, Stricter;
  }

  /** Calling an item schema's own type change by its name and renaming the finding are the same thing. */
  lemma NameSwap(x: Schema, y: Schema, at: string, f: Finding)
    ensures OwnDifference(x, y, ArrayItemTypeChanged, at, f)
       <==> exists g :: OwnDifference(x, y, TypeChanged, at, g) && f == Renamed(g, at)
  {
    hide NonNullType, IsNullable, Lists, ConstraintMoves, Stricter;
    if OwnDifference(x, y, ArrayItemTypeChanged, at, f) {
      var g := if f.path == at && f.changeType == ArrayItemTypeChanged then f.(changeType := TypeChanged) else f;
      assert OwnDifference(x, y, TypeChanged, at, g) && f == Renamed(g, at);
    }
  }

  lemma ThroughProperty(b: Schema, c: Schema, root: string, n: string, route: seq<Hop>, f: Finding)
    requires b.Node? && c.Node? && n in b.properties && n in c.properties
    ensures Located(b.properties[n], c.properties[n], root + ".properties." + n, route, f)
       <==> Located(b, c, root, [IntoProperty(n)] + route, f)
  {
    hide OwnDifference;
    var whole := [IntoProperty(n)] + route;
    assert whole[0] == IntoProperty(n) && whole[1..] == route;
    assert root + RouteText(whole) == root + ".properties." + n + RouteText(route);
  }

  lemma ThroughItems(b: Schema, c: Schema, root: string, route: seq<Hop>, f: Finding)
    requires b.Node? && c.Node? && b.items.Some? && c.items.Some?
    ensures (exists g :: Located(b.items.value, c.items.value, root + "[]", route, g) && f == Renamed(g, root + "[]"))
       <==> Located(b, c, root, [IntoItems] + route, f)
  {
    hide OwnDifference;
    var whole, at := [IntoItems] + route, root + "[]";
    assert whole[0] == IntoItems && whole[1..] == route;
    assert root + RouteText(whole) == at + RouteText(route);
    if SubschemaAt(b.items.value, route).Some? && SubschemaAt(c.items.value, route).Some? {
      var x, y := SubschemaAt(b.items.value, route).value, SubschemaAt(c.items.value, route).value;
      if route == [] {
        assert at + RouteText(route) == at;
        assert TypeChangeAt(whole) == ArrayItemTypeChanged && TypeChangeAt(route) == TypeChanged;
        NameSwap(x, y, at, f);
      } else {
        var here := at + RouteText(route);
        assert TypeChangeAt(whole) == TypeChangeAt(route) && |here| > |at|;
        forall g | OwnDifference(x, y, TypeChangeAt(route), here, g) ensures Renamed(g, at) == g {
          OwnDifferenceSits(x, y, TypeChangeAt(route), here, g);
        }
        assert Located(b.items.value, c.items.value, at, route, f) <==> Located(b, c, root, whole, f);
      }
    }
  }

  ghost predicate ReportsBelowProperty(b: Schema, c: Schema, d: Direction, here: string, depth: nat, n: string, f: Finding)
    requires b.Node? && c.Node?
  {
    && n in b.properties && n in c.properties
    && Reports(DiffAt(b.properties[n], c.properties[n], d, here + ".properties." + n, depth + 1), f)
  }

  ghost predicate ReportsBelowItems(b: Schema, c: Schema, d: Direction, here: string, depth: nat, f: Finding)
    requires b.Node? && c.Node?
  {
    && b.items.Some? && c.items.Some?
    && exists g :: Reports(DiffAt(b.items.value, c.items.value, d, here + "[]", depth + 1), g) && f == Renamed(g, here + "[]")
  }

  lemma ItemsFound(b: Schema, c: Schema, d: Direction, here: string, depth: nat, f: Finding)
    requires b.Node? && c.Node?
    ensures Reports(DiffItems(b, c, d, here, depth), f)
       <==> ItemDifference(b, c, here, f) || ReportsBelowItems(b, c, d, here, depth, f)
  {
    hide Classify, DiffAt, Reports, Renamed;
    if b.items.Some? && c.items.Some? {
      RelabelFound(DiffAt(b.items.value, c.items.value, d, here + "[]", depth + 1), here + "[]", d, f);
    } else {
      OneSidedItemsFound(b, c, d, here, depth, f);
    }
  }

  lemma OneSidedItemsFound(b: Schema, c: Schema, d: Direction, here: string, depth: nat, f: Finding)
    requires b.Node? && c.Node? && (b.items.None? || c.items.None?)
    ensures Reports(DiffItems(b, c, d, here, depth), f) <==> ItemDifference(b, c, here, f)
  {
    hide Classify, DiffAt;
    if ItemDifference(b, c, here, f) { assert FindingOf(DiffItems(b, c, d, here, depth)[0]) == f; }
  }

  ghost predicate ReportsForKeywords(b: Schema, c: Schema, d: Direction, here: string, f: Finding)
    requires b.Node? && c.Node?
  {
    || Reports(DiffType(b, c, d, here), f)
    || Reports(DiffNullability(b, c, d, here), f)
    || Reports(DiffEnum(b.enum, c.enum, d, here), f)
    || (exists key :: Reports(DiffConstraint(b, c, d, here, key), f))
  }

  lemma KeywordsFound(b: Schema, c: Schema, d: Direction, here: string, f: Finding)
    requires b.Node? && c.Node?
    ensures ReportsForKeywords(b, c, d, here, f) <==> KeywordDifference(b, c, TypeChanged, here, f)
  {
    hide DiffType, DiffNullability, DiffEnum, DiffConstraint, Reports;
    hide TypeDifference, NullabilityDifference, EnumDifference, ConstraintDifference;
    TypeFound(b, c, d, here, f);
    NullabilityFound(b, c, d, here, f);
    EnumFound(b, c, d, here, f);
    forall key ensures Reports(DiffConstraint(b, c, d, here, key), f) <==> ConstraintDifference(b, c, here, key, f) {
      ConstraintFound(b, c, d, here, key, f);
    }
  }

  ghost predicate ReportsForProperty(b: Schema, c: Schema, d: Direction, here: string, depth: nat, n: string, f: Finding)
    requires b.Node? && c.Node?
  {
    (n in b.properties || n in c.properties) && Reports(DiffProperty(b, c, d, here, depth, n), f)
  }

  lemma PropertyPart(b: Schema, c: Schema, d: Direction, here: string, depth: nat, n: string, f: Finding)
    requires b.Node? && c.Node?
    ensures ReportsForProperty(b, c, d, here, depth, n, f)
       <==> PropertyDifference(b, c, here, n, f) || ReportsBelowProperty(b, c, d, here, depth, n, f)
  {
    hide DiffAt, DiffProperty, Reports;
    if n in b.properties || n in c.properties {
      PropertyFound(b, c, d, here, depth, n, f);
    }
  }

  lemma PropertiesFound(b: Schema, c: Schema, d: Direction, here: string, depth: nat, f: Finding)
    requires b.Node? && c.Node?
    ensures (exists n :: ReportsForProperty(b, c, d, here, depth, n, f)) <==>
      || (exists n :: PropertyDifference(b, c, here, n, f))
      || (exists n :: ReportsBelowProperty(b, c, d, here, depth, n, f))
  {
    hide PropertyDifference, ReportsForProperty, ReportsBelowProperty;
    forall n
      ensures ReportsForProperty(b, c, d, here, depth, n, f)
         <==> PropertyDifference(b, c, here, n, f) || ReportsBelowProperty(b, c, d, here, depth, n, f)
    {
      PropertyPart(b, c, d, here, depth, n, f);
    }
  }

  /** The findings at a pair of object nodes: their own differences, and what their shared children report. */
  lemma NodeFound(b: Schema, c: Schema, d: Direction, here: string, depth: nat, f: Finding)
    requires b.Node? && c.Node? && depth <= MAX_DEPTH
    ensures Reports(DiffAt(b, c, d, here, depth), f) <==>
      || OwnDifference(b, c, TypeChanged, here, f)
      || (exists n :: ReportsBelowProperty(b, c, d, here, depth, n, f))
      || ReportsBelowItems(b, c, d, here, depth, f)
  {
    NodeReports(b, c, d, here, depth, f);
    hide DiffAt, DiffItems, Reports, ReportsForKeywords, KeywordDifference;
    hide PropertyDifference, ItemDifference, ReportsForProperty, ReportsBelowProperty, ReportsBelowItems;
    KeywordsFound(b, c, d, here, f);
    PropertiesFound(b, c, d, here, depth, f);
    ItemsFound(b, c, d, here, depth, f);
  }

  lemma NodeReports(b: Schema, c: Schema, d: Direction, here: string, depth: nat, f: Finding)
    requires b.Node? && c.Node? && depth <= MAX_DEPTH
    ensures Reports(DiffAt(b, c, d, here, depth), f) <==>
      || ReportsForKeywords(b, c, d, here, f)
      || (exists n :: ReportsForProperty(b, c, d, here, depth, n, f))
      || Reports(DiffItems(b, c, d, here, depth), f)
  {
    hide DiffAt, DiffType, DiffNullability, DiffEnum, DiffConstraint, DiffProperty, DiffItems;
    forall ch ensures ch in DiffAt(b, c, d, here, depth) <==> InSomePart(b, c, d, here, depth, ch) {
      InNode(b, c, d, here, depth, ch);
    }
    if Reports(DiffAt(b, c, d, here, depth), f) {
      var ch :| ch in DiffAt(b, c, d, here, depth) && FindingOf(ch) == f;
      if n :| (n in b.properties || n in c.properties) && ch in DiffProperty(b, c, d, here, depth, n) {
        assert ReportsForProperty(b, c, d, here, depth, n, f);
      } else if key :| ch in DiffConstraint(b, c, d, here, key) {
        assert Reports(DiffConstraint(b, c, d, here, key), f);
      }
    }
    if n :| ReportsForProperty(b, c, d, here, depth, n, f) {
      var ch :| ch in DiffProperty(b, c, d, here, depth, n) && FindingOf(ch) == f;
      assert InSomePart(b, c, d, here, depth, ch);
    }
    if key :| Reports(DiffConstraint(b, c, d, here, key), f) {
      var ch :| ch in DiffConstraint(b, c, d, here, key) && FindingOf(ch) == f;
      assert InOwnParts(b, c, d, here, ch);
    }
  }

  /** The location theorem: a diff reports a finding if and only if some shared route spells its path and the two
      subschemas there show that very difference, the old value being the baseline's. */
  lemma {:induction false} FindingsAreLocated(b: Schema, c: Schema, d: Direction, root: string, depth: nat, f: Finding)
    requires Fits(b, depth)
    ensures Reports(DiffAt(b, c, d, root, depth), f) <==> LocatedSomewhere(b, c, root, f)
    decreases b, 1
  {
    if b.Node? && c.Node? {
      NodeLocated(b, c, d, root, depth, f);
    } else {
      OpaqueLocated(b, c, d, root, depth, f);
    }
  }

  lemma OpaqueLocated(b: Schema, c: Schema, d: Direction, root: string, depth: nat, f: Finding)
    requires depth <= MAX_DEPTH && (b.Opaque? || c.Opaque?)
    ensures Reports(DiffAt(b, c, d, root, depth), f) <==> LocatedSomewhere(b, c, root, f)
  {
    hide Classify;
    assert root + RouteText([]) == root;
    assert Located(b, c, root, [], f) <==> OwnDifference(b, c, TypeChanged, root, f);
    if OwnDifference(b, c, TypeChanged, root, f) { assert FindingOf(DiffAt(b, c, d, root, depth)[0]) == f; }
  }

  lemma NodeLocated(b: Schema, c: Schema, d: Direction, root: string, depth: nat, f: Finding)
    requires Fits(b, depth) && b.Node? && c.Node?
    ensures Reports(DiffAt(b, c, d, root, depth), f) <==> LocatedSomewhere(b, c, root, f)
    decreases b, 0, 1
  {
    assert depth <= MAX_DEPTH;
    hide DiffAt, OwnDifference, Located, Reports, Renamed, ReportsBelowItems, LocatedSomewhere;
    NodeFound(b, c, d, root, depth, f);
    forall n | n in b.properties && n in c.properties
      ensures ReportsBelowProperty(b, c, d, root, depth, n, f) <==> exists rest :: Located(b, c, root, [IntoProperty(n)] + rest, f)
    {
      PropertyLocated(b, c, d, root, depth, n, f);
    }
    if b.items.Some? && c.items.Some? { ItemsLocated(b, c, d, root, depth, f); }
    RoutesBranch(b, c, root, f);
  }

  lemma PropertyLocated(b: Schema, c: Schema, d: Direction, root: string, depth: nat, n: string, f: Finding)
    requires Fits(b, depth) && b.Node? && c.Node? && n in b.properties && n in c.properties
    ensures ReportsBelowProperty(b, c, d, root, depth, n, f)
       <==> exists rest :: Located(b, c, root, [IntoProperty(n)] + rest, f)
    decreases b, 0, 0
  {
    hide DiffAt, OwnDifference, Located, Reports;
    FindingsAreLocated(b.properties[n], c.properties[n], d, root + ".properties." + n, depth + 1, f);
    forall rest
      ensures Located(b.properties[n], c.properties[n], root + ".properties." + n, rest, f)
         <==> Located(b, c, root, [IntoProperty(n)] + rest, f)
    {
      ThroughProperty(b, c, root, n, rest, f);
    }
  }

  lemma ItemsLocated(b: Schema, c: Schema, d: Direction, root: string, depth: nat, f: Finding)
    requires Fits(b, depth) && b.Node? && c.Node? && b.items.Some? && c.items.Some?
    ensures ReportsBelowItems(b, c, d, root, depth, f) <==> exists rest :: Located(b, c, root, [IntoItems] + rest, f)
    decreases b, 0, 0
  {
    hide DiffAt, OwnDifference, Located, Reports, Renamed;
    var bi, ci, at := b.items.value, c.items.value, root + "[]";
    forall g ensures Reports(DiffAt(bi, ci, d, at, depth + 1), g) <==> LocatedSomewhere(bi, ci, at, g) {
      FindingsAreLocated(bi, ci, d, at, depth + 1, g);
    }
    if ReportsBelowItems(b, c, d, root, depth, f) {
      var g :| Reports(DiffAt(bi, ci, d, at, depth + 1), g) && f == Renamed(g, at);
      assert LocatedSomewhere(bi, ci, at, g);
      var rest :| Located(bi, ci, at, rest, g);
      ThroughItems(b, c, root, rest, f);
    }
    if rest :| Located(b, c, root, [IntoItems] + rest, f) {
      ThroughItems(b, c, root, rest, f);
      var g :| Located(bi, ci, at, rest, g) && f == Renamed(g, at);
      assert LocatedSomewhere(bi, ci, at, g);
    }
  }

  /** A route is empty, or starts into a shared property, or starts into shared items. */
  lemma RoutesBranch(b: Schema, c: Schema, root: string, f: Finding)
    requires b.Node? && c.Node?
    ensures LocatedSomewhere(b, c, root, f) <==>
      || OwnDifference(b, c, TypeChanged, root, f)
      || (exists n, rest :: n in b.properties && n in c.properties && Located(b, c, root, [IntoProperty(n)] + rest, f))
      || (b.items.Some? && c.items.Some? && exists rest :: Located(b, c, root, [IntoItems] + rest, f))
  {
    hide OwnDifference;
    assert root + RouteText([]) == root;
    assert Located(b, c, root, [], f) <==> OwnDifference(b, c, TypeChanged, root, f);
    forall route | Located(b, c, root, route, f) && route != []
      ensures route == [route[0]] + route[1..]
      ensures match route[0]
        case IntoProperty(n) => n in b.properties && n in c.properties
        case IntoItems => b.items.Some? && c.items.Some?
    {
    }
  }

  // ---------- which schemas normalize ----------

  /** No value of the subschema itself sits deeper than 64, when it is `hops` deep. */
  predicate WithinDepth(s: Schema, hops: nat) {
    && hops <= 64
    && (s.Node? && (s.typ.OneType? || s.nullable != NullValue || s.constraints != map[]) ==> hops + 1 <= 64)
    && (s.Node? && s.otherHeight.Some? ==> hops + 1 + s.otherHeight.value <= 64)
  }

  ghost predicate ReachesWithin(s: Schema, depth: nat, route: seq<Hop>) {
    SubschemaAt(s, route).Some? ==> WithinDepth(SubschemaAt(s, route).value, depth + |route|)
  }

  ghost predicate StaysWithin(s: Schema, depth: nat) {
    forall route :: ReachesWithin(s, depth, route)
  }

  /** Normalization fails exactly when some route leads to a value nested too deep. */
  lemma {:induction false} DepthExactly(s: Schema, depth: nat)
    ensures Normalize(s, depth).Some? <==> StaysWithin(s, depth)
    decreases s
  {
    hide StaysWithin;
    StaysByParts(s, depth);
    if s.Node? {
      forall k | k in s.properties ensures Normalize(s.properties[k], depth + 1).Some? <==> StaysWithin(s.properties[k], depth + 1) {
        DepthExactly(s.properties[k], depth + 1);
      }
      if s.items.Some? { DepthExactly(s.items.value, depth + 1); }
    }
  }

  /** Every route stays within the depth: the empty one, those into a property, those into the items. */
  lemma StaysByParts(s: Schema, depth: nat)
    ensures StaysWithin(s, depth) <==>
      && WithinDepth(s, depth)
      && (s.Node? ==> forall k :: k in s.properties ==> StaysWithin(s.properties[k], depth + 1))
      && (s.Node? && s.items.Some? ==> StaysWithin(s.items.value, depth + 1))
  {
    hide WithinDepth;
    assert ReachesWithin(s, depth, []) <==> WithinDepth(s, depth);
    var below := depth + 1;
    if StaysWithin(s, depth) && s.Node? {
      forall k, rest | k in s.properties ensures ReachesWithin(s.properties[k], below, rest) {
        assert ([IntoProperty(k)] + rest)[1..] == rest && ReachesWithin(s, depth, [IntoProperty(k)] + rest);
      }
      forall rest | s.items.Some? ensures ReachesWithin(s.items.value, below, rest) {
        assert ([IntoItems] + rest)[1..] == rest && ReachesWithin(s, depth, [IntoItems] + rest);
      }
    }
    if !StaysWithin(s, depth) {
      var route :| !ReachesWithin(s, depth, route);
      if route != [] {
        match route[0]
        case IntoProperty(k) => assert !ReachesWithin(s.properties[k], below, route[1..]);
        case IntoItems => assert !ReachesWithin(s.items.value, below, route[1..]);
      }
    }
  }
}
