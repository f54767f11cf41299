/** Verdicts over whole diffs: NEUTRAL never reports a compatible change, and CRITICAL means
    exactly that an input node gained a required declared property. */
module SchemaVerdicts {
  import opened Options
  import opened SchemaModel
  import opened SchemaRules
  import opened SchemaDiff
  import opened SchemaDiffFacts
  import opened SchemaNormalizer
  import opened SchemaExactness

  /** The verdict the tables give a change of this shape. */
  function Verdict(ch: Change, d: Direction): (Classification, Severity) {
    VerdictFor(ch.changeType, d, if ch.evidence.ConstraintEvidence? then ch.evidence.tightened else None)
  }

  /** A schema change carrying the tables' verdict. */
  ghost predicate WellClassified(ch: Change, d: Direction) {
    && !ch.changeType.ValueChanged? && !ch.changeType.DescriptionChanged?
    && (ch.classification, ch.severity) == Verdict(ch, d)
  }

  lemma EnumWellClassified(be: Option<seq<Scalar>>, ce: Option<seq<Scalar>>, d: Direction, path: string, ch: Change)
    requires ch in DiffEnum(be, ce, d, path)
    ensures WellClassified(ch, d) && ch.path == path && !ch.changeType.RequiredFieldAdded?
  {
    hide Classify, DiffEnum, EnumSet;
    InEnum(be, ce, d, path, ch);
  }

  lemma OwnPartsWellClassified(b: Schema, c: Schema, d: Direction, path: string, ch: Change)
    requires b.Node? && c.Node? && InOwnParts(b, c, d, path, ch)
    ensures WellClassified(ch, d) && ch.path == path && !ch.changeType.RequiredFieldAdded?
  {
    hide Classify, DiffEnum, ClassifyConstraintChange, ConstraintTightened, ConstraintOf, NonNullType, IsNullable;
    if ch in DiffEnum(b.enum, c.enum, d, path) { EnumWellClassified(b.enum, c.enum, d, path, ch); }
  }

  lemma {:induction false} DiffWellClassified(b: Schema, c: Schema, d: Direction, path: string, depth: nat, ch: Change)
    requires ch in DiffAt(b, c, d, path, depth)
    ensures WellClassified(ch, d)
    decreases b, 1
  {
    hide Classify;
    if depth <= MAX_DEPTH && b.Node? && c.Node? {
      NodeWellClassified(b, c, d, path, depth, ch);
    }
  }

  lemma NodeWellClassified(b: Schema, c: Schema, d: Direction, path: string, depth: nat, ch: Change)
    requires b.Node? && c.Node? && depth <= MAX_DEPTH && ch in DiffAt(b, c, d, path, depth)
    ensures WellClassified(ch, d)
    decreases b, 0, 1
  {
    hide Classify, Verdict, MakeChange, DiffAt, InOwnParts, PropertyPath, ItemPath;
    InNode(b, c, d, path, depth, ch);
    if InOwnParts(b, c, d, path, ch) {
      OwnPartsWellClassified(b, c, d, path, ch);
    } else if ch in DiffItems(b, c, d, path, depth) {
      ItemsWellClassified(b, c, d, path, depth, ch);
    } else {
      var n :| (n in b.properties || n in c.properties) && ch in DiffProperty(b, c, d, path, depth, n);
      PropertyWellClassified(b, c, d, path, depth, n, ch);
    }
  }

  lemma PropertyWellClassified(b: Schema, c: Schema, d: Direction, path: string, depth: nat, n: string, ch: Change)
    requires b.Node? && c.Node? && (n in b.properties || n in c.properties)
    requires ch in DiffProperty(b, c, d, path, depth, n)
    ensures WellClassified(ch, d)
    decreases b, 0, 0
  {
    hide Classify, DiffAt;
    if n in b.properties && n in c.properties && ch !in DiffRequiredness(b, c, d, PropertyPath(path, n), n) {
      DiffWellClassified(b.properties[n], c.properties[n], d, PropertyPath(path, n), depth + 1, ch);
    }
  }

  lemma ItemsWellClassified(b: Schema, c: Schema, d: Direction, path: string, depth: nat, ch: Change)
    requires b.Node? && c.Node? && ch in DiffItems(b, c, d, path, depth)
    ensures WellClassified(ch, d)
    decreases b, 0, 0
  {
    hide Classify, DiffAt;
    if b.items.Some? && c.items.Some? {
      var nested := DiffAt(b.items.value, c.items.value, d, ItemPath(path), depth + 1);
      InRelabeled(nested, ItemPath(path), d, ch);
      var inner :| inner in nested && ch == RelabelOne(inner, ItemPath(path), d);
      DiffWellClassified(b.items.value, c.items.value, d, ItemPath(path), depth + 1, inner);
    }
  }

  lemma NeutralNeverCompatible(ch: Change)
    requires WellClassified(ch, Neutral)
    ensures !ch.classification.Compatible? && !ch.severity.Critical?
  {
  }

  /** A NEUTRAL diff rolls up to compatible exactly when the schemas agree. */
  lemma NeutralStatus(b: Schema, c: Schema, path: string)
    requires Fits(b, 0)
    ensures DeriveStatus(DiffAt(b, c, Neutral, path, 0)).StatusCompatible? <==> Agree(b, c)
  {
    hide DiffAt, WellClassified, Agree, Fits;
    var changes := DiffAt(b, c, Neutral, path, 0);
    DiffExact(b, c, Neutral, path, 0);
    if changes != [] {
      DiffWellClassified(b, c, Neutral, path, 0, changes[0]);
      NeutralNeverCompatible(changes[0]);
    }
  }

  // ---------- CRITICAL, characterized on the schemas ----------

  datatype Hop = IntoProperty(name: string) | IntoItems

  /** The object node reached through declared properties and items. */
  function NodeAt(s: Schema, route: seq<Hop>): Option<Schema>
    decreases |route|
  {
    if s.Opaque? then None
    else if route == [] then Some(s)
    else match route[0]
      case IntoProperty(name) => if name in s.properties then NodeAt(s.properties[name], route[1..]) else None
      case IntoItems => if s.items.Some? then NodeAt(s.items.value, route[1..]) else None
  }

  /** `name` is declared and required in `c` and was not both in `b`. */
  predicate GainsRequired(b: Schema, c: Schema, name: string)
    requires b.Node? && c.Node?
  {
    name in c.properties && name in c.required && !(name in b.properties && name in b.required)
  }

  ghost predicate GainsAt(b: Schema, c: Schema, route: seq<Hop>, name: string) {
    && NodeAt(b, route).Some? && NodeAt(c, route).Some?
    && NodeAt(b, route).value.Node? && NodeAt(c, route).value.Node?
    && GainsRequired(NodeAt(b, route).value, NodeAt(c, route).value, name)
  }

  lemma CriticalType(ch: Change, d: Direction)
    requires WellClassified(ch, d) && ch.severity.Critical?
    ensures d.Input? && ch.changeType.RequiredFieldAdded?
  {
  }

  lemma {:induction false} CriticalHasRoute(b: Schema, c: Schema, d: Direction, path: string, depth: nat, ch: Change)
    returns (route: seq<Hop>, name: string)
    requires ch in DiffAt(b, c, d, path, depth) && ch.changeType.RequiredFieldAdded?
    ensures GainsAt(b, c, route, name)
    decreases b, 1
  {
    hide Classify, InOwnParts, PropertyPath, ItemPath, GainsAt;
    if depth > MAX_DEPTH || b.Opaque? || c.Opaque? {
      assert false;
    } else {
      route, name := NodeHasRoute(b, c, d, path, depth, ch);
    }
  }

  lemma NodeHasRoute(b: Schema, c: Schema, d: Direction, path: string, depth: nat, ch: Change)
    returns (route: seq<Hop>, name: string)
    requires b.Node? && c.Node? && depth <= MAX_DEPTH
    requires ch in DiffAt(b, c, d, path, depth) && ch.changeType.RequiredFieldAdded?
    ensures GainsAt(b, c, route, name)
    decreases b, 0, 1
  {
    hide Classify, MakeChange, DiffAt, InOwnParts, PropertyPath, ItemPath, GainsAt;
    route, name := [], "";
    InNode(b, c, d, path, depth, ch);
    if InOwnParts(b, c, d, path, ch) {
      OwnPartsWellClassified(b, c, d, path, ch);
    } else if ch in DiffItems(b, c, d, path, depth) {
      route, name := ItemsHaveRoute(b, c, d, path, depth, ch);
    } else {
      var n :| (n in b.properties || n in c.properties) && ch in DiffProperty(b, c, d, path, depth, n);
      route, name := PropertyHasRoute(b, c, d, path, depth, n, ch);
    }
  }

  lemma ItemsHaveRoute(b: Schema, c: Schema, d: Direction, path: string, depth: nat, ch: Change)
    returns (route: seq<Hop>, name: string)
    requires b.Node? && c.Node?
    requires ch in DiffItems(b, c, d, path, depth) && ch.changeType.RequiredFieldAdded?
    ensures GainsAt(b, c, route, name)
    decreases b, 0, 0
  {
    hide Classify, DiffAt;
    var nested := DiffAt(b.items.value, c.items.value, d, ItemPath(path), depth + 1);
    InRelabeled(nested, ItemPath(path), d, ch);
    var rest, inner := CriticalHasRoute(b.items.value, c.items.value, d, ItemPath(path), depth + 1, ch);
    route, name := [IntoItems] + rest, inner;
  }

  lemma PropertyHasRoute(b: Schema, c: Schema, d: Direction, path: string, depth: nat, n: string, ch: Change)
    returns (route: seq<Hop>, name: string)
    requires b.Node? && c.Node? && (n in b.properties || n in c.properties)
    requires ch in DiffProperty(b, c, d, path, depth, n) && ch.changeType.RequiredFieldAdded?
    ensures GainsAt(b, c, route, name)
    decreases b, 0, 0
  {
    hide Classify, DiffAt;
    if n in b.properties && n in c.properties && ch !in DiffRequiredness(b, c, d, PropertyPath(path, n), n) {
      var rest, inner := CriticalHasRoute(b.properties[n], c.properties[n], d, PropertyPath(path, n), depth + 1, ch);
      route, name := [IntoProperty(n)] + rest, inner;
    } else {
      route, name := [], n;
    }
  }

  lemma {:induction false} RouteIsCritical(b: Schema, c: Schema, path: string, depth: nat, route: seq<Hop>, name: string)
    returns (ch: Change)
    requires Fits(b, depth) && GainsAt(b, c, route, name)
    ensures ch in DiffAt(b, c, Input, path, depth) && ch.changeType.RequiredFieldAdded?
    decreases |route|, 1
  {
    hide Classify, MakeChange, DiffAt, InOwnParts, PropertyPath, ItemPath, RelabelOne;
    if route == [] {
      ch := GainIsReported(b, c, path, depth, name);
    } else {
      match route[0]
      case IntoProperty(n) =>
        ch := RouteIsCritical(b.properties[n], c.properties[n], PropertyPath(path, n), depth + 1, route[1..], name);
        assert ch in DiffProperty(b, c, Input, path, depth, n);
      case IntoItems =>
        ch := RouteIsCritical(b.items.value, c.items.value, ItemPath(path), depth + 1, route[1..], name);
        NotRelabeled(b, c, path, depth, ch);
    }
    InNode(b, c, Input, path, depth, ch);
  }

  lemma GainIsReported(b: Schema, c: Schema, path: string, depth: nat, name: string) returns (ch: Change)
    requires b.Node? && c.Node? && GainsRequired(b, c, name)
    ensures ch in DiffProperty(b, c, Input, path, depth, name) && ch.changeType.RequiredFieldAdded?
  {
    hide Classify, DiffAt;
    ch := DiffProperty(b, c, Input, path, depth, name)[0];
  }

  lemma NotRelabeled(b: Schema, c: Schema, path: string, depth: nat, ch: Change)
    requires b.Node? && c.Node? && b.items.Some? && c.items.Some? && ch.changeType.RequiredFieldAdded?
    requires ch in DiffAt(b.items.value, c.items.value, Input, ItemPath(path), depth + 1)
    ensures ch in DiffItems(b, c, Input, path, depth)
  {
    hide Classify, DiffAt;
    var nested := DiffAt(b.items.value, c.items.value, Input, ItemPath(path), depth + 1);
    InRelabeled(nested, ItemPath(path), Input, ch);
    assert RelabelOne(ch, ItemPath(path), Input) == ch;
  }

  lemma CriticalExactly(b: Schema, c: Schema, d: Direction, path: string)
    requires Fits(b, 0)
    ensures SomeCritical(DiffAt(b, c, d, path, 0)) <==> d.Input? && exists route, name :: GainsAt(b, c, route, name)
  {
    hide DiffAt, Fits, GainsAt, WellClassified;
    if SomeCritical(DiffAt(b, c, d, path, 0)) {
      var ch :| ch in DiffAt(b, c, d, path, 0) && ch.severity.Critical?;
      DiffWellClassified(b, c, d, path, 0, ch);
      CriticalType(ch, d);
      var route, name := CriticalHasRoute(b, c, d, path, 0, ch);
    }
    if d.Input? && exists route, name :: GainsAt(b, c, route, name) {
      var route, name :| GainsAt(b, c, route, name);
      var ch := RouteIsCritical(b, c, path, 0, route, name);
      DiffWellClassified(b, c, Input, path, 0, ch);
      GainedIsCritical(ch);
    }
  }

  lemma GainedIsCritical(ch: Change)
    requires WellClassified(ch, Input) && ch.changeType.RequiredFieldAdded?
    ensures ch.severity.Critical?
  {
  }
}
