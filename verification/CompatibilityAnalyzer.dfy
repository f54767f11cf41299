/** The TOOL and SCHEMA analyzers: normalize, diff, sort, roll up. */
module CompatibilityAnalyzer {
  import opened Ordering
  import opened JsonValues
  import opened Options
  import opened SchemaModel
  import opened SchemaRules
  import opened SchemaDiff
  import opened SchemaNormalizer
  import opened SchemaSemantics
  import opened SchemaSoundness
  import opened SchemaFlowGuard
  import opened SchemaFlowExactness
  import opened SchemaExactness
  import opened SchemaVerdicts
  import opened SchemaLocations
  import opened SchemaBreakage

  datatype ToolContent = ToolContent(inputSchema: Schema, outputSchema: Schema, description: Option<string>)

  datatype SchemaContent = SchemaContent(definition: Schema, format: string)

  datatype Scan = Scan(status: CompatibilityStatus, changes: seq<Change>)

  // ---------- display order ----------

  function TypeLabel(t: ChangeType): string {
    match t
    case FieldAdded => "FIELD_ADDED"
    case FieldRemoved => "FIELD_REMOVED"
    case RequiredFieldAdded => "REQUIRED_FIELD_ADDED"
    case RequiredFieldRemoved => "REQUIRED_FIELD_REMOVED"
    case TypeChanged => "TYPE_CHANGED"
    case NullableToNonNullable => "NULLABLE_TO_NON_NULLABLE"
    case NonNullableToNullable => "NON_NULLABLE_TO_NULLABLE"
    case EnumValueAdded => "ENUM_VALUE_ADDED"
    case EnumValueRemoved => "ENUM_VALUE_REMOVED"
    case EnumNarrowed => "ENUM_NARROWED"
    case ArrayItemTypeChanged => "ARRAY_ITEM_TYPE_CHANGED"
    case ConstraintChanged => "CONSTRAINT_CHANGED"
    case ValueChanged => "VALUE_CHANGED"
    case DescriptionChanged => "DESCRIPTION_CHANGED"
  }

  function ClassificationLabel(cl: Classification): string {
    match cl case Compatible => "compatible" case PotentiallyBreaking => "potentially_breaking" case Breaking => "breaking"
  }

  predicate ChangeLe(x: Change, y: Change) {
    if x.path != y.path then NameLe(x.path, y.path)
    else if x.changeType != y.changeType then NameLe(TypeLabel(x.changeType), TypeLabel(y.changeType))
    else NameLe(ClassificationLabel(x.classification), ClassificationLabel(y.classification))
  }

  lemma LabelsDiffer(t: ChangeType, u: ChangeType)
    ensures TypeLabel(t) == TypeLabel(u) ==> t == u
  {
    var a, b := TypeLabel(t), TypeLabel(u);
    if |a| == |b| {
      assert a == b ==> a[0] == b[0] && a[|a| - 1] == b[|b| - 1] && a[|a| - 2] == b[|b| - 2];
    }
  }

  lemma ChangeLeTransitive(x: Change, y: Change, z: Change)
    requires TotalOrder(NameLe) && ChangeLe(x, y) && ChangeLe(y, z)
    ensures ChangeLe(x, z)
  {
    hide NameLe, TypeLabel, ClassificationLabel;
    LabelsDiffer(x.changeType, y.changeType);
    LabelsDiffer(y.changeType, z.changeType);
  }

  lemma ChangeLeTotal(x: Change, y: Change)
    requires TotalOrder(NameLe)
    ensures ChangeLe(x, y) || ChangeLe(y, x)
  {
    hide NameLe, TypeLabel, ClassificationLabel;
  }

  lemma ChangeOrder()
    ensures TotalPreorder(ChangeLe)
  {
    NameOrder();
    hide NameLe, ChangeLe;
    forall x, y ensures ChangeLe(x, y) || ChangeLe(y, x) { ChangeLeTotal(x, y); }
    forall x, y, z | ChangeLe(x, y) && ChangeLe(y, z) ensures ChangeLe(x, z) { ChangeLeTransitive(x, y, z); }
  }

  /** Ordered by path, then change type, then classification; ties keep the order of detection. */
  function SortChanges(changes: seq<Change>): (r: seq<Change>)
    ensures multiset(r) == multiset(changes)
    ensures SortedBy(ChangeLe, r)
  {
    ChangeOrder();
    StableSortSorts(ChangeLe, changes);
    StableSort(ChangeLe, changes)
  }

  /** The change types in alphabetical order of their names. */
  const TYPES_BY_NAME: seq<ChangeType> :=
    [ ArrayItemTypeChanged, ConstraintChanged, DescriptionChanged, EnumNarrowed, EnumValueAdded, EnumValueRemoved,
      FieldAdded, FieldRemoved, NonNullableToNullable, NullableToNonNullable, RequiredFieldAdded, RequiredFieldRemoved,
      TypeChanged, ValueChanged ]

  function TypeRank(t: ChangeType): (n: nat)
    ensures n < |TYPES_BY_NAME| && TYPES_BY_NAME[n] == t
  {
    match t
    case ArrayItemTypeChanged => 0 case ConstraintChanged => 1 case DescriptionChanged => 2 case EnumNarrowed => 3
    case EnumValueAdded => 4 case EnumValueRemoved => 5 case FieldAdded => 6 case FieldRemoved => 7
    case NonNullableToNullable => 8 case NullableToNonNullable => 9 case RequiredFieldAdded => 10
    case RequiredFieldRemoved => 11 case TypeChanged => 12 case ValueChanged => 13
  }

  /** Where a type's name first differs from the next one's. */
  function FirstDifference(t: ChangeType): nat {
    match t
    case EnumNarrowed => 5 case EnumValueAdded => 11 case FieldAdded => 6 case NonNullableToNullable => 1
    case RequiredFieldAdded => 15 case _ => 0
  }

  lemma NextLabel(n: nat)
    requires n + 1 < |TYPES_BY_NAME|
    ensures NameLe(TypeLabel(TYPES_BY_NAME[n]), TypeLabel(TYPES_BY_NAME[n + 1]))
  {
    LabelGap(TYPES_BY_NAME[n], TYPES_BY_NAME[n + 1]);
    hide NameLe, TypeLabel;
    NameLeExactly(TypeLabel(TYPES_BY_NAME[n]), TypeLabel(TYPES_BY_NAME[n + 1]));
  }

  lemma LabelGap(t: ChangeType, u: ChangeType)
    requires TypeRank(u) == TypeRank(t) + 1
    ensures SmallerAt(TypeLabel(t), TypeLabel(u), FirstDifference(t))
  {
  }

  lemma {:induction false} LabelsAscend(n: nat, m: nat)
    requires n <= m < |TYPES_BY_NAME|
    ensures NameLe(TypeLabel(TYPES_BY_NAME[n]), TypeLabel(TYPES_BY_NAME[m]))
    decreases m - n
  {
    NameOrder();
    hide NameLe, TypeLabel;
    if n < m {
      LabelsAscend(n, m - 1);
      NextLabel(m - 1);
    }
  }

  predicate VerdictLe(x: Classification, y: Classification) { x == y || x.Breaking? || y.PotentiallyBreaking? }

  lemma VerdictsAscend(x: Classification, y: Classification)
    ensures NameLe(ClassificationLabel(x), ClassificationLabel(y)) <==> VerdictLe(x, y)
  {
    var a, b := ClassificationLabel(x), ClassificationLabel(y);
    if x == y {
      hide ClassificationLabel, NameLe;
      NameLeTotal(a, b);
    } else {
      assert a[0] != b[0] && (a[0] < b[0] <==> VerdictLe(x, y));
      hide ClassificationLabel;
    }
  }

  /** The order of a scan: by path, then by the alphabet of the type names, then breaking before compatible before
      potentially breaking. */
  lemma ScanOrder(changes: seq<Change>, i: nat, j: nat)
    requires i < j < |changes|
    ensures var x, y := SortChanges(changes)[i], SortChanges(changes)[j];
      && (x.path == y.path || exists k: nat :: SmallerAt(x.path, y.path, k))
      && (x.path == y.path ==> TypeRank(x.changeType) <= TypeRank(y.changeType))
      && (x.path == y.path && x.changeType == y.changeType ==> VerdictLe(x.classification, y.classification))
  {
    var x, y := SortChanges(changes)[i], SortChanges(changes)[j];
    assert ChangeLe(x, y);
    hide SortChanges, NameLe, TypeLabel, ClassificationLabel;
    NameLeExactly(x.path, y.path);
    VerdictsAscend(x.classification, y.classification);
    if TypeRank(x.changeType) > TypeRank(y.changeType) {
      LabelsAscend(TypeRank(y.changeType), TypeRank(x.changeType));
      NameLeTotal(TypeLabel(x.changeType), TypeLabel(y.changeType));
      LabelsDiffer(x.changeType, y.changeType);
    }
  }

  function RollUp(changes: seq<Change>): Scan { Scan(DeriveStatus(SortChanges(changes)), SortChanges(changes)) }

  lemma SortKeepsVerdicts(changes: seq<Change>)
    ensures AllCompatible(SortChanges(changes)) <==> AllCompatible(changes)
    ensures SomeCritical(SortChanges(changes)) <==> SomeCritical(changes)
  {
    hide StableSort;
    MembersOfPermutation(SortChanges(changes), changes);
  }

  lemma SortKeepsClassified(changes: seq<Change>, cl: Classification)
    ensures SomeClassified(SortChanges(changes), cl) <==> SomeClassified(changes, cl)
  {
    hide StableSort;
    MembersOfPermutation(SortChanges(changes), changes);
  }

  // ---------- TOOL ----------

  function DiffDocuments(b: Schema, c: Schema, d: Direction, path: string): Option<seq<Change>> {
    var nb, nc := Normalize(b, 0), Normalize(c, 0);
    if nb.None? || nc.None? then None else Some(DiffAt(nb.value, nc.value, d, path, 0))
  }

  function DescriptionChange(b: ToolContent, c: ToolContent): seq<Change> {
    if b.description == c.description then []
    else [MakeChange(DescriptionChanged, "$.description", Neutral, ShownText(b.description), ShownText(c.description))]
  }

  /** `None` when a schema fails to normalize. */
  function ToolScan(b: ToolContent, c: ToolContent): Option<Scan> {
    var input := DiffDocuments(b.inputSchema, c.inputSchema, Input, "$.input_schema");
    var output := DiffDocuments(b.outputSchema, c.outputSchema, Output, "$.output_schema");
    if input.None? || output.None? then None
    else Some(RollUp(input.value + output.value + DescriptionChange(b, c)))
  }

  method CompareDocuments(b: Schema, c: Schema, d: Direction, path: string) returns (r: Option<seq<Change>>)
    ensures r == DiffDocuments(b, c, d, path)
  {
    hide DiffAt;
    var nb, nc := Normalize(b, 0), Normalize(c, 0);
    if nb.None? || nc.None? {
      return None;
    }
    var changes := DiffSchemas(nb.value, nc.value, d, path, 0);
    r := Some(changes);
  }

  method AnalyzeTool(b: ToolContent, c: ToolContent) returns (scan: Option<Scan>)
    ensures scan == ToolScan(b, c)
  {
    hide DiffDocuments, RollUp;
    var changes: seq<Change> := [];
    var input := CompareDocuments(b.inputSchema, c.inputSchema, Input, "$.input_schema");
    if input.None? {
      return None;
    }
    changes := changes + input.value;
    var output := CompareDocuments(b.outputSchema, c.outputSchema, Output, "$.output_schema");
    if output.None? {
      return None;
    }
    changes := changes + output.value;
    var before := changes;
    if b.description != c.description {
      changes := changes
        + [MakeChange(DescriptionChanged, "$.description", Neutral, ShownText(b.description), ShownText(c.description))];
    }
    assert before == input.value + output.value;
    assert changes == before + DescriptionChange(b, c);
    scan := Some(RollUp(changes));
  }

  /** One document: only compatible changes, so values flow along the direction. */
  lemma DocumentFlows(b: Schema, c: Schema, d: Direction, path: string, v: Json, reading: Reading)
    requires !d.Neutral? && DiffDocuments(b, c, d, path).Some?
    requires AllCompatible(DiffDocuments(b, c, d, path).value)
    requires Guarded(Normalize(Producer(d, b, c), 0).value, Normalize(Consumer(d, b, c), 0).value)
    requires Emits(Producer(d, b, c), v, reading)
    ensures Accepts(Consumer(d, b, c), v, reading)
  {
    hide DiffAt, Guarded, Flows, Conforms, Normalize;
    var nb, nc := Normalize(b, 0).value, Normalize(c, 0).value;
    CompatibleFlows(nb, nc, d, path, 0);
    NormalizeKeepsMeaning(Producer(d, b, c), 0, v, true, reading);
    FlowsSound(Producer(d, nb, nc), Consumer(d, nb, nc), v, reading);
    NormalizeKeepsMeaning(Consumer(d, b, c), 0, v, false, reading);
  }

  /** A COMPATIBLE tool scan is safe for callers and for consumers at once. */
  lemma CompatibleToolIsSafe(b: ToolContent, c: ToolContent, reading: Reading)
    requires ToolScan(b, c).Some? && ToolScan(b, c).value.status.StatusCompatible?
    requires Guarded(Normalize(b.inputSchema, 0).value, Normalize(c.inputSchema, 0).value)
    requires Guarded(Normalize(c.outputSchema, 0).value, Normalize(b.outputSchema, 0).value)
    ensures forall v :: Emits(b.inputSchema, v, reading) ==> Accepts(c.inputSchema, v, reading)
    ensures forall v :: Emits(c.outputSchema, v, reading) ==> Accepts(b.outputSchema, v, reading)
  {
    hide DiffAt, Guarded, Conforms, Normalize, SortChanges, Classify;
    var input := DiffDocuments(b.inputSchema, c.inputSchema, Input, "$.input_schema").value;
    var output := DiffDocuments(b.outputSchema, c.outputSchema, Output, "$.output_schema").value;
    SortKeepsVerdicts(input + output + DescriptionChange(b, c));
    AllCompatibleConcat(input + output, DescriptionChange(b, c));
    AllCompatibleConcat(input, output);
    forall v | Emits(b.inputSchema, v, reading) ensures Accepts(c.inputSchema, v, reading) {
      DocumentFlows(b.inputSchema, c.inputSchema, Input, "$.input_schema", v, reading);
    }
    forall v | Emits(c.outputSchema, v, reading) ensures Accepts(b.outputSchema, v, reading) {
      DocumentFlows(b.outputSchema, c.outputSchema, Output, "$.output_schema", v, reading);
    }
  }

  /** One document: given only compatible changes, values flow if and only if the guard holds. */
  lemma DocumentFlowsExactly(b: Schema, c: Schema, d: Direction, path: string, reading: Reading)
    requires !d.Neutral? && DiffDocuments(b, c, d, path).Some?
    requires AllCompatible(DiffDocuments(b, c, d, path).value)
    requires RangeBoundsOnly(Normalize(Producer(d, b, c), 0).value)
    ensures (forall v :: Emits(Producer(d, b, c), v, reading) ==> Accepts(Consumer(d, b, c), v, reading))
       <==> FlowGuard(Normalize(Producer(d, b, c), 0).value, Normalize(Consumer(d, b, c), 0).value)
  {
    hide DiffAt, FlowGuard, RangeBoundsOnly, Conforms, Normalize;
    var nb, nc := Normalize(b, 0).value, Normalize(c, 0).value;
    CompatibleFlowsExactly(nb, nc, d, path, 0, reading);
    forall v ensures Emits(Producer(d, b, c), v, reading) <==> Emits(Producer(d, nb, nc), v, reading) {
      NormalizeKeepsMeaning(Producer(d, b, c), 0, v, true, reading);
    }
    forall v ensures Accepts(Consumer(d, b, c), v, reading) <==> Accepts(Consumer(d, nb, nc), v, reading) {
      NormalizeKeepsMeaning(Consumer(d, b, c), 0, v, false, reading);
    }
  }

  /** A COMPATIBLE tool scan whose producing schemas are bounded by ranges only is safe for callers if and only if the
      input guard holds, and safe for consumers if and only if the output guard holds. */
  lemma CompatibleToolExactly(b: ToolContent, c: ToolContent, reading: Reading)
    requires ToolScan(b, c).Some? && ToolScan(b, c).value.status.StatusCompatible?
    requires RangeBoundsOnly(Normalize(b.inputSchema, 0).value) && RangeBoundsOnly(Normalize(c.outputSchema, 0).value)
    ensures (forall v :: Emits(b.inputSchema, v, reading) ==> Accepts(c.inputSchema, v, reading))
       <==> FlowGuard(Normalize(b.inputSchema, 0).value, Normalize(c.inputSchema, 0).value)
    ensures (forall v :: Emits(c.outputSchema, v, reading) ==> Accepts(b.outputSchema, v, reading))
       <==> FlowGuard(Normalize(c.outputSchema, 0).value, Normalize(b.outputSchema, 0).value)
  {
    hide DiffAt, FlowGuard, RangeBoundsOnly, Conforms, Normalize, SortChanges, Classify;
    var input := DiffDocuments(b.inputSchema, c.inputSchema, Input, "$.input_schema").value;
    var output := DiffDocuments(b.outputSchema, c.outputSchema, Output, "$.output_schema").value;
    SortKeepsVerdicts(input + output + DescriptionChange(b, c));
    AllCompatibleConcat(input + output, DescriptionChange(b, c));
    AllCompatibleConcat(input, output);
    DocumentFlowsExactly(b.inputSchema, c.inputSchema, Input, "$.input_schema", reading);
    DocumentFlowsExactly(b.outputSchema, c.outputSchema, Output, "$.output_schema", reading);
  }

  /** Normalization keeps which nodes a route reaches, what they declare and what they require. */
  lemma {:induction false} NodeAtNormalized(s: Schema, depth: nat, route: seq<Hop>)
    requires Normalize(s, depth).Some?
    ensures NodeAt(s, route).Some? <==> NodeAt(Normalize(s, depth).value, route).Some?
    ensures NodeAt(s, route).Some? ==>
      var x, n := NodeAt(s, route).value, NodeAt(Normalize(s, depth).value, route).value;
      x.Node? && n.Node? && x.properties.Keys == n.properties.Keys && SetOf(x.required) == SetOf(n.required)
    decreases |route|
  {
    if s.Node? {
      var n := Normalize(s, depth).value;
      if route == [] {
        assert forall name :: name in n.required <==> name in SetOf(s.required);
      } else {
        match route[0]
        case IntoProperty(name) => if name in s.properties { NodeAtNormalized(s.properties[name], depth + 1, route[1..]); }
        case IntoItems => if s.items.Some? { NodeAtNormalized(s.items.value, depth + 1, route[1..]); }
      }
    }
  }

  lemma GainsNormalized(b: Schema, c: Schema, route: seq<Hop>, name: string)
    requires Normalize(b, 0).Some? && Normalize(c, 0).Some?
    ensures GainsAt(b, c, route, name) <==> GainsAt(Normalize(b, 0).value, Normalize(c, 0).value, route, name)
  {
    hide Normalize, NodeAt;
    NodeAtNormalized(b, 0, route);
    NodeAtNormalized(c, 0, route);
    var nb, nc := Normalize(b, 0).value, Normalize(c, 0).value;
    if NodeAt(b, route).Some? && NodeAt(c, route).Some? {
      var x, y, nx, ny := NodeAt(b, route).value, NodeAt(c, route).value, NodeAt(nb, route).value, NodeAt(nc, route).value;
      assert name in x.required <==> name in SetOf(x.required);
      assert name in nx.required <==> name in SetOf(nx.required);
      assert name in y.required <==> name in SetOf(y.required);
      assert name in ny.required <==> name in SetOf(ny.required);
      assert name in x.properties <==> name in nx.properties.Keys;
      assert name in y.properties <==> name in ny.properties.Keys;
    }
  }

  /** A tool scan holds a CRITICAL change exactly when some node that both input schemas share
      gains a required declared property. */
  lemma CriticalToolExactly(b: ToolContent, c: ToolContent)
    requires ToolScan(b, c).Some?
    ensures SomeCritical(ToolScan(b, c).value.changes)
       <==> exists route, name :: GainsAt(b.inputSchema, c.inputSchema, route, name)
  {
    hide DiffAt, Fits, GainsAt, Normalize, SortChanges;
    var input := DiffDocuments(b.inputSchema, c.inputSchema, Input, "$.input_schema").value;
    var output := DiffDocuments(b.outputSchema, c.outputSchema, Output, "$.output_schema").value;
    var all := input + output + DescriptionChange(b, c);
    SortKeepsVerdicts(all);
    NormalizedFits(b.inputSchema, 0);
    NormalizedFits(b.outputSchema, 0);
    CriticalExactly(Normalize(b.inputSchema, 0).value, Normalize(c.inputSchema, 0).value, Input, "$.input_schema");
    CriticalExactly(Normalize(b.outputSchema, 0).value, Normalize(c.outputSchema, 0).value, Output, "$.output_schema");
    forall route, name
      ensures GainsAt(b.inputSchema, c.inputSchema, route, name)
         <==> GainsAt(Normalize(b.inputSchema, 0).value, Normalize(c.inputSchema, 0).value, route, name)
    {
      GainsNormalized(b.inputSchema, c.inputSchema, route, name);
    }
    assert !SomeCritical(DescriptionChange(b, c));
    SomeCriticalConcat(input + output, DescriptionChange(b, c));
    SomeCriticalConcat(input, output);
  }

  lemma SomeClassifiedConcat(x: seq<Change>, y: seq<Change>, cl: Classification)
    ensures SomeClassified(x + y, cl) <==> SomeClassified(x, cl) || SomeClassified(y, cl)
  {
    assert forall ch :: ch in x + y <==> ch in x || ch in y;
  }

  /** The status of a tool scan, read off the two published tools: BREAKING exactly when some subschema both input
      schemas share breaks for callers or one both output schemas share breaks for consumers, and COMPATIBLE exactly
      when nothing breaks and nothing warns. */
  lemma ToolStatusExactly(b: ToolContent, c: ToolContent)
    requires ToolScan(b, c).Some?
    ensures ToolScan(b, c).value.status.StatusBreaking? <==> ToolBreaks(b, c)
    ensures ToolScan(b, c).value.status.StatusCompatible? <==> !ToolBreaks(b, c) && !ToolWarns(b, c)
  {
    hide DiffAt, Normalize, SortChanges, SomeClassified, BreaksSomewhere, WarnsSomewhere, Classify;
    var input := DiffDocuments(b.inputSchema, c.inputSchema, Input, "$.input_schema").value;
    var output := DiffDocuments(b.outputSchema, c.outputSchema, Output, "$.output_schema").value;
    var description := DescriptionChange(b, c);
    SortKeepsClassified(input + output + description, Breaking);
    SortKeepsClassified(input + output + description, PotentiallyBreaking);
    DiffBreaksExactly(b.inputSchema, c.inputSchema, Input, "$.input_schema");
    DiffBreaksExactly(b.outputSchema, c.outputSchema, Output, "$.output_schema");
    forall cl: Classification | !cl.Compatible?
      ensures SomeClassified(input + output + description, cl) <==> SomeClassified(input, cl) || SomeClassified(output, cl)
    {
      SomeClassifiedConcat(input + output, description, cl);
      SomeClassifiedConcat(input, output, cl);
      DescriptionIsCompatible(b, c, cl);
    }
    StatusClassified(SortChanges(input + output + description));
  }

  ghost predicate ToolBreaks(b: ToolContent, c: ToolContent) {
    BreaksSomewhere(b.inputSchema, c.inputSchema, Input) || BreaksSomewhere(b.outputSchema, c.outputSchema, Output)
  }

  ghost predicate ToolWarns(b: ToolContent, c: ToolContent) {
    WarnsSomewhere(b.inputSchema, c.inputSchema, Input) || WarnsSomewhere(b.outputSchema, c.outputSchema, Output)
  }

  /** A tool scan lists exactly the located differences of the two normalized schema pairs, and the description's. */
  lemma ToolFindingsExactly(b: ToolContent, c: ToolContent, f: Finding)
    requires ToolScan(b, c).Some?
    ensures Reports(ToolScan(b, c).value.changes, f) <==>
      || LocatedSomewhere(Normalize(b.inputSchema, 0).value, Normalize(c.inputSchema, 0).value, "$.input_schema", f)
      || LocatedSomewhere(Normalize(b.outputSchema, 0).value, Normalize(c.outputSchema, 0).value, "$.output_schema", f)
      || (b.description != c.description
          && f == Finding(DescriptionChanged, "$.description", ShownText(b.description), ShownText(c.description), NoEvidence))
  {
    hide DiffAt, Normalize, SortChanges, LocatedSomewhere, Fits, Classify;
    var input := DiffDocuments(b.inputSchema, c.inputSchema, Input, "$.input_schema").value;
    var output := DiffDocuments(b.outputSchema, c.outputSchema, Output, "$.output_schema").value;
    var all := input + output + DescriptionChange(b, c);
    MembersOfPermutation(SortChanges(all), all);
    assert forall ch :: ch in all <==> ch in input || ch in output || ch in DescriptionChange(b, c);
    NormalizedFits(b.inputSchema, 0);
    NormalizedFits(b.outputSchema, 0);
    FindingsAreLocated(Normalize(b.inputSchema, 0).value, Normalize(c.inputSchema, 0).value, Input, "$.input_schema", 0, f);
    FindingsAreLocated(Normalize(b.outputSchema, 0).value, Normalize(c.outputSchema, 0).value, Output, "$.output_schema", 0, f);
    DescriptionFinding(b, c, f);
  }

  lemma DescriptionFinding(b: ToolContent, c: ToolContent, f: Finding)
    ensures Reports(DescriptionChange(b, c), f) <==>
      && b.description != c.description
      && f == Finding(DescriptionChanged, "$.description", ShownText(b.description), ShownText(c.description), NoEvidence)
  {
    if b.description != c.description { assert DescriptionChange(b, c)[0] in DescriptionChange(b, c); }
  }

  lemma DescriptionIsCompatible(b: ToolContent, c: ToolContent, cl: Classification)
    requires !cl.Compatible?
    ensures !SomeClassified(DescriptionChange(b, c), cl)
  {
  }

  lemma StatusClassified(changes: seq<Change>)
    ensures DeriveStatus(changes).StatusBreaking? <==> SomeClassified(changes, Breaking)
    ensures DeriveStatus(changes).StatusCompatible?
       <==> !SomeClassified(changes, Breaking) && !SomeClassified(changes, PotentiallyBreaking)
  {
  }

  lemma SomeCriticalConcat(x: seq<Change>, y: seq<Change>)
    ensures SomeCritical(x + y) <==> SomeCritical(x) || SomeCritical(y)
  {
    assert forall ch :: ch in x + y <==> ch in x || ch in y;
  }

  // ---------- SCHEMA ----------

  function FormatChange(b: SchemaContent, c: SchemaContent): seq<Change> {
    if b.format == c.format then []
    else [MakeChange(ValueChanged, "$.schema_format", Neutral, ShownText(Some(b.format)), ShownText(Some(c.format)))]
  }

  function SchemaScan(b: SchemaContent, c: SchemaContent): Option<Scan> {
    var changes := DiffDocuments(b.definition, c.definition, Neutral, "$");
    if changes.None? then None else Some(RollUp(changes.value + FormatChange(b, c)))
  }

  method AnalyzeSchema(b: SchemaContent, c: SchemaContent) returns (scan: Option<Scan>)
    ensures scan == SchemaScan(b, c)
  {
    hide DiffDocuments, RollUp;
    var diff := CompareDocuments(b.definition, c.definition, Neutral, "$");
    if diff.None? {
      return None;
    }
    var changes := diff.value;
    if b.format != c.format {
      changes := changes
        + [MakeChange(ValueChanged, "$.schema_format", Neutral, ShownText(Some(b.format)), ShownText(Some(c.format)))];
    }
    assert changes == diff.value + FormatChange(b, c);
    scan := Some(RollUp(changes));
  }

  /** A standalone schema scan is COMPATIBLE exactly when nothing modelled changed. */
  lemma CompatibleSchemaExactly(b: SchemaContent, c: SchemaContent)
    requires SchemaScan(b, c).Some?
    ensures SchemaScan(b, c).value.status.StatusCompatible?
       <==> Agree(Normalize(b.definition, 0).value, Normalize(c.definition, 0).value) && b.format == c.format
  {
    hide DiffAt, Fits, Agree, Normalize, SortChanges;
    var changes := DiffDocuments(b.definition, c.definition, Neutral, "$").value;
    NormalizedFits(b.definition, 0);
    NeutralStatus(Normalize(b.definition, 0).value, Normalize(c.definition, 0).value, "$");
    SortKeepsVerdicts(changes + FormatChange(b, c));
    AllCompatibleConcat(changes, FormatChange(b, c));
    assert AllCompatible(FormatChange(b, c)) <==> b.format == c.format by {
      if b.format != c.format { assert !FormatChange(b, c)[0].classification.Compatible?; }
    }
  }

  /** The status of a schema scan, read off the two published definitions. */
  lemma SchemaStatusExactly(b: SchemaContent, c: SchemaContent)
    requires SchemaScan(b, c).Some?
    ensures SchemaScan(b, c).value.status.StatusBreaking? <==> BreaksSomewhere(b.definition, c.definition, Neutral)
    ensures SchemaScan(b, c).value.status.StatusCompatible? <==>
      !BreaksSomewhere(b.definition, c.definition, Neutral) && !WarnsSomewhere(b.definition, c.definition, Neutral) && b.format == c.format
  {
    hide DiffAt, Normalize, SortChanges, SomeClassified, BreaksSomewhere, WarnsSomewhere, Classify;
    var changes := DiffDocuments(b.definition, c.definition, Neutral, "$").value;
    SortKeepsClassified(changes + FormatChange(b, c), Breaking);
    SortKeepsClassified(changes + FormatChange(b, c), PotentiallyBreaking);
    DiffBreaksExactly(b.definition, c.definition, Neutral, "$");
    SomeClassifiedConcat(changes, FormatChange(b, c), Breaking);
    SomeClassifiedConcat(changes, FormatChange(b, c), PotentiallyBreaking);
    FormatIsWarning(b, c);
    StatusClassified(SortChanges(changes + FormatChange(b, c)));
  }

  lemma FormatIsWarning(b: SchemaContent, c: SchemaContent)
    ensures !SomeClassified(FormatChange(b, c), Breaking)
    ensures SomeClassified(FormatChange(b, c), PotentiallyBreaking) <==> b.format != c.format
  {
    if b.format != c.format { assert FormatChange(b, c)[0].classification.PotentiallyBreaking?; }
  }
}
