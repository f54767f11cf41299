/** Conservation, ordering, duality and identity of the differential summary. */
module DifferentialFacts {
  import opened JsonValues
  import opened Options
  import opened Ordering
  import opened ReplayModel
  import opened Alignment
  import opened AlignmentFacts
  import opened AlignmentTheorems
  import opened AlignmentSymmetry
  import opened ValueDiff
  import opened ValueDiffFacts
  import opened ValueDiffDuality
  import opened ValueDiffLocations
  import opened Differential

  // ---------- what a record says about its pair ----------

  predicate HasBaseline(p: StepPair) { p.baseline.Some? }

  predicate HasCandidate(p: StepPair) { p.candidate.Some? }

  predicate IsJoined(p: StepPair) { !p.how.Unmatched? }

  predicate OnlyBaseline(p: StepPair) { p.how.Unmatched? && p.baseline.Some? }

  predicate OnlyCandidate(p: StepPair) { p.how.Unmatched? && p.baseline.None? }

  /** The pair goes from no error to an error. */
  predicate Fails(p: StepPair) {
    IsJoined(p) && p.baseline.Some? && p.candidate.Some? && p.baseline.value.error.JNull? && !p.candidate.value.error.JNull?
  }

  lemma {:induction false} SideCount(of: StepPair -> Option<ReplayStep>, has: StepPair -> bool, pairs: seq<StepPair>)
    requires forall p :: p in pairs ==> (has(p) <==> of(p).Some?)
    ensures |Side(of, pairs)| == Count(has, pairs)
  {
    if pairs != [] {
      assert forall p :: p in pairs[1..] ==> p in pairs;
      SideCount(of, has, pairs[1..]);
    }
  }

  /** Counting records is counting the aligned pairs. */
  lemma CountPairs(p: StepDifference -> bool, q: StepPair -> bool, pairs: seq<StepPair>, readers: Readers)
    requires forall x :: x in pairs ==> p(DiffPair(x, readers)) == q(x)
    ensures Count(p, StepDiffs(pairs, readers)) == Count(q, pairs)
  {
    CountAcross(p, (x: StepPair) => DiffPair(x, readers), q, pairs);
  }

  /** Every step is accounted for: matched + removed = baseline, matched + added = candidate. */
  lemma Conservation(b: seq<ReplayStep>, c: seq<ReplayStep>, readers: Readers)
    requires UniqueIds(b) && UniqueIds(c)
    ensures var s := Analysis(b, c, readers).summary;
      s.matched + s.removed == s.totalBaseline == |b| && s.matched + s.added == s.totalCandidate == |c|
  {
    hide Align, UniqueIds, TypesOf, ErrorsOf, LatencyOf, Side;
    var pairs := Align(b, c);
    forall p | p in pairs ensures Justified(p) { AlignmentJustified(b, c, p); }
    CountPairs(IsMatched, IsJoined, pairs, readers);
    CountPairs(IsRemoved, OnlyBaseline, pairs, readers);
    CountPairs(IsAdded, OnlyCandidate, pairs, readers);
    CountSplit(HasBaseline, IsJoined, OnlyBaseline, pairs);
    CountSplit(HasCandidate, IsJoined, OnlyCandidate, pairs);
    SideCount(BaselineOf, HasBaseline, pairs);
    SideCount(CandidateOf, HasCandidate, pairs);
    AlignmentPartitions(b, c);
    MembersOfPermutation(Side(BaselineOf, pairs), b);
    MembersOfPermutation(Side(CandidateOf, pairs), c);
  }

  lemma OutputOrder(p: StepPair, readers: Readers)
    requires p.baseline.Some? && p.candidate.Some?
    ensures HasSchemaChange(DiffPair(p, readers)) ==> HasChangedOutput(DiffPair(p, readers))
    ensures IsNewFailure(DiffPair(p, readers)) ==> IsChanged(DiffPair(p, readers))
    ensures IsResolvedFailure(DiffPair(p, readers)) ==> IsChanged(DiffPair(p, readers))
  {
    hide InputDiffs, OutputDiffs;
    var b, c := p.baseline.value, p.candidate.value;
    TypesMembers(b, c, readers, SchemaChanged);
    TypesMembers(b, c, readers, OutputChanged);
    TypesMembers(b, c, readers, ErrorIntroduced);
    TypesMembers(b, c, readers, ErrorResolved);
  }

  /** Which types a matched pair carries. */
  lemma TypesMembers(b: ReplayStep, c: ReplayStep, readers: Readers, t: DifferenceType)
    ensures t in TypesOf(b, c, readers) <==>
      || (t.StepStatusChanged? && b.status != c.status)
      || (t.ProviderInvocationChanged? && b.kind != c.kind)
      || (t.ToolChanged? && (b.componentId != c.componentId || b.componentVersionId != c.componentVersionId))
      || (t.InputChanged? && InputDiffs(b, c, readers) != [])
      || (t.OutputChanged? && OutputDiffs(b, c, readers) != [])
      || (t.SchemaChanged? && ChangesShape(OutputDiffs(b, c, readers)))
      || (ErrorsOf(b, c, readers).Some? && t == ErrorsOf(b, c, readers).value.kind)
      || (t.LatencyChanged? && LatencyOf(b, c).Some?)
  {
    hide InputDiffs, OutputDiffs, ErrorsOf, LatencyOf, ChangesShape;
    var error := if ErrorsOf(b, c, readers).Some? then [ErrorsOf(b, c, readers).value.kind] else [];
    var shape := ChangesShape(OutputDiffs(b, c, readers));
    var outputs, inputs := OutputDiffs(b, c, readers) != [], InputDiffs(b, c, readers) != [];
    var last := If(LatencyOf(b, c).Some?, LatencyChanged);
    var first := MetadataTypes(b, c);
    assert TypesOf(b, c, readers)
      == first + If(inputs, InputChanged) + If(outputs, OutputChanged) + If(shape, SchemaChanged) + error + last;
    hide TypesOf;
    InSix(first, If(inputs, InputChanged), If(outputs, OutputChanged), If(shape, SchemaChanged), error, last, t);
    InMetadata(b, c, t);
    hide MetadataTypes;
  }

  lemma InMetadata(b: ReplayStep, c: ReplayStep, t: DifferenceType)
    ensures t in MetadataTypes(b, c) <==>
      || (t.StepStatusChanged? && b.status != c.status)
      || (t.ProviderInvocationChanged? && b.kind != c.kind)
      || (t.ToolChanged? && (b.componentId != c.componentId || b.componentVersionId != c.componentVersionId))
  {
  }

  /** schema changes <= changed outputs <= changed <= matched, and failures are changes. */
  lemma CountersAreOrdered(b: seq<ReplayStep>, c: seq<ReplayStep>, readers: Readers)
    requires UniqueIds(b) && UniqueIds(c)
    ensures var s := Analysis(b, c, readers).summary;
      s.schemaChanges <= s.changedOutputs <= s.changed <= s.matched && s.newFailures + s.resolvedFailures <= s.changed
  {
    hide Align, UniqueIds, DiffPair;
    var pairs, steps := Align(b, c), StepDiffs(Align(b, c), readers);
    forall sd | sd in steps
      ensures HasSchemaChange(sd) ==> HasChangedOutput(sd)
      ensures IsNewFailure(sd) || IsResolvedFailure(sd) ==> IsChanged(sd)
    {
      var i :| 0 <= i < |steps| && steps[i] == sd;
      AlignmentJustified(b, c, pairs[i]);
      UnmatchedRecord(pairs[i], readers);
      if pairs[i].baseline.Some? && pairs[i].candidate.Some? { OutputOrder(pairs[i], readers); }
    }
    CountImplies(HasSchemaChange, HasChangedOutput, steps);
    CountImplies(HasChangedOutput, IsChanged, steps);
    CountImplies(IsChanged, IsMatched, steps);
    var failure := (sd: StepDifference) => IsNewFailure(sd) || IsResolvedFailure(sd);
    CountSplit(failure, IsNewFailure, IsResolvedFailure, steps);
    CountImplies(failure, IsChanged, steps);
  }

  lemma UnmatchedRecord(p: StepPair, readers: Readers)
    requires Justified(p)
    ensures p.how == DiffPair(p, readers).how
    ensures !p.how.Unmatched? ==> p.baseline.Some? && p.candidate.Some?
  {
    hide TypesOf, ErrorsOf, LatencyOf, InputDiffs, OutputDiffs;
  }

  /** New failures are exactly the aligned pairs that go from no error to an error. */
  lemma NewFailuresExactly(b: seq<ReplayStep>, c: seq<ReplayStep>, readers: Readers)
    requires UniqueIds(b) && UniqueIds(c)
    ensures Analysis(b, c, readers).summary.newFailures == Count(Fails, Align(b, c))
    ensures Analysis(b, c, readers).summary.newFailures > 0 <==> exists p :: p in Align(b, c) && Fails(p)
  {
    hide Align, UniqueIds, TypesOf, LatencyOf, InputDiffs, OutputDiffs;
    var pairs := Align(b, c);
    forall p | p in pairs ensures IsNewFailure(DiffPair(p, readers)) == Fails(p) { AlignmentJustified(b, c, p); }
    CountPairs(IsNewFailure, Fails, pairs, readers);
    CountSome(Fails, pairs);
  }

  /** The output of a matched pair changes shape: at some route a value has another type, is gone, or is new. */
  ghost predicate ChangesOutputShape(p: StepPair, readers: Readers) {
    && IsJoined(p) && p.baseline.Some? && p.candidate.Some?
    && exists route, reason, redacted ::
         Due(p.baseline.value.output, p.candidate.value.output, route, 0, readers.sensitive, SchemaDifference, reason, redacted)
  }

  /** The schema-change counter counts the matched pairs whose output changes shape. */
  lemma SchemaChangesExactly(b: seq<ReplayStep>, c: seq<ReplayStep>, readers: Readers)
    requires UniqueIds(b) && UniqueIds(c)
    ensures Analysis(b, c, readers).summary.schemaChanges == Count((p: StepPair) => ChangesOutputShape(p, readers), Align(b, c))
    ensures Analysis(b, c, readers).summary.schemaChanges > 0 <==> exists p :: p in Align(b, c) && ChangesOutputShape(p, readers)
  {
    hide Align, UniqueIds, DiffPair, ChangesOutputShape;
    var pairs := Align(b, c);
    var changes := (p: StepPair) => ChangesOutputShape(p, readers);
    forall p | p in pairs ensures HasSchemaChange(DiffPair(p, readers)) == changes(p) {
      AlignmentJustified(b, c, p);
      SchemaChangeOfPair(p, readers);
    }
    CountPairs(HasSchemaChange, changes, pairs, readers);
    CountSome(changes, pairs);
  }

  lemma SchemaChangeOfPair(p: StepPair, readers: Readers)
    requires Justified(p)
    ensures HasSchemaChange(DiffPair(p, readers)) <==> ChangesOutputShape(p, readers)
  {
    hide Differences, Due, LatencyOf;
    if p.baseline.Some? && p.candidate.Some? {
      TypesMembers(p.baseline.value, p.candidate.value, readers, SchemaChanged);
      hide TypesOf;
      SomeDifferenceExactly(p.baseline.value.output, p.candidate.value.output, [Key("output")], readers.sensitive, SchemaDifference);
    }
  }

  /** The field differences of a matched pair are the ones due between the two inputs, and between the two outputs. */
  lemma FieldsExactly(p: StepPair, readers: Readers, route: seq<PathStep>, kind: DifferenceKind, reason: Reason, redacted: bool)
    requires p.baseline.Some? && p.candidate.Some?
    ensures var b, c, fields := p.baseline.value, p.candidate.value, DiffPair(p, readers).fields;
      && (FieldDifference(kind, [Key("input")] + route, reason, redacted) in fields
          <==> Due(b.input, c.input, route, 0, readers.sensitive, kind, reason, redacted))
      && (FieldDifference(kind, [Key("output")] + route, reason, redacted) in fields
          <==> Due(b.output, c.output, route, 0, readers.sensitive, kind, reason, redacted))
  {
    hide Differences, Due, TypesOf, ErrorsOf, LatencyOf;
    var b, c, i, o := p.baseline.value, p.candidate.value, [Key("input")], [Key("output")];
    var inputs, outputs := InputDiffs(b, c, readers), OutputDiffs(b, c, readers);
    assert forall d :: d in DiffPair(p, readers).fields <==> d in inputs || d in outputs;
    assert (i + route)[0] == Key("input") && (o + route)[0] == Key("output");
    assert "input" != "output" by { assert |"input"| != |"output"|; }
    forall d | d in inputs ensures d.path != o + route { DifferencesSitBelow(b.input, c.input, i, 0, readers.sensitive, d); }
    forall d | d in outputs ensures d.path != i + route { DifferencesSitBelow(b.output, c.output, o, 0, readers.sensitive, d); }
    DifferenceExactly(b.input, c.input, i, route, 0, readers.sensitive, kind, reason, redacted);
    DifferenceExactly(b.output, c.output, o, route, 0, readers.sensitive, kind, reason, redacted);
  }

  // ---------- what a record shows ----------

  /** A measured difference keeps both durations; its delta is positive exactly when the candidate was slower, and
      its percentage is of the baseline's duration. */
  lemma LatencyExactly(b: ReplayStep, c: ReplayStep)
    ensures LatencyOf(b, c).Some? <==> b.durationMs.Some? && c.durationMs.Some? && b.durationMs != c.durationMs
    ensures LatencyOf(b, c).Some? ==> var l := LatencyOf(b, c).value;
      && Some(l.baselineMs) == b.durationMs && Some(l.candidateMs) == c.durationMs
      && l.baselineMs + l.deltaMs == l.candidateMs
      && (l.deltaMs > 0 <==> c.durationMs.value > b.durationMs.value)
      && (l.percent.Some? <==> b.durationMs.value > 0)
      && (l.percent.Some? ==> l.percent.value * b.durationMs.value as real == 100.0 * (c.durationMs.value - b.durationMs.value) as real)
  {
    if LatencyOf(b, c).Some? && b.durationMs.value > 0 {
      PercentOf((c.durationMs.value - b.durationMs.value) as real, b.durationMs.value as real);
    }
  }

  lemma PercentOf(delta: real, base: real)
    requires base > 0.0
    ensures delta / base * 100.0 * base == 100.0 * delta
  {
    var q := delta / base;
    assert q * base == delta;
  }

  /** Which error types a matched pair is reported with, and on which sides its record says an error stands. */
  lemma ErrorTypesExactly(b: ReplayStep, c: ReplayStep, readers: Readers)
    ensures ErrorIntroduced in TypesOf(b, c, readers) <==> b.error == JNull && c.error != JNull
    ensures ErrorResolved in TypesOf(b, c, readers) <==> b.error != JNull && c.error == JNull
    ensures ErrorChanged in TypesOf(b, c, readers)
       <==> b.error != JNull && c.error != JNull && (readers.category)(b.error) != (readers.category)(c.error)
    ensures ErrorsOf(b, c, readers).Some? ==> var error := ErrorsOf(b, c, readers).value;
      error.baselinePresent == (b.error != JNull) && error.candidatePresent == (c.error != JNull)
  {
    hide TypesOf, InputDiffs, OutputDiffs, LatencyOf;
    TypesMembers(b, c, readers, ErrorIntroduced);
    TypesMembers(b, c, readers, ErrorResolved);
    TypesMembers(b, c, readers, ErrorChanged);
  }

  // ---------- comparing a run with itself ----------

  lemma SameStepNoTypes(s: ReplayStep, readers: Readers)
    ensures TypesOf(s, s, readers) == []
  {
    SelfDiffEmpty(s.input, [Key("input")], 0, readers.sensitive);
    SelfDiffEmpty(s.output, [Key("output")], 0, readers.sensitive);
    hide Differences;
    assert !ChangesShape([]);
  }

  lemma SelfRecord(p: StepPair, readers: Readers)
    requires Joins(p, BySourceEvent) && p.baseline == p.candidate
    ensures var sd := DiffPair(p, readers); sd.how.BySourceEvent? && sd.types == [] && sd.latency.None?
  {
    hide TypesOf, ErrorsOf, InputDiffs, OutputDiffs;
    SameStepNoTypes(p.baseline.value, readers);
  }

  /** Where every record is a match that reports nothing, the counters of change are zero. */
  lemma QuietSummary(totalBaseline: nat, totalCandidate: nat, steps: seq<StepDifference>)
    requires forall sd :: sd in steps ==> !IsAdded(sd) && !IsRemoved(sd) && !IsChanged(sd)
    ensures var s := SummaryOf(totalBaseline, totalCandidate, steps); s.added == 0 && s.removed == 0 && s.changed == 0
  {
    hide Count, IsAdded, IsRemoved, IsChanged;
    CountSome(IsAdded, steps);
    CountSome(IsRemoved, steps);
    CountSome(IsChanged, steps);
  }

  /** A run compared with itself: everything matched, nothing reported. */
  lemma SelfAnalysis(s: seq<ReplayStep>, readers: Readers)
    requires UniqueIds(s) && UniqueKey(EventKey, s)
    ensures var r := Analysis(s, s, readers);
      && (forall i :: 0 <= i < |r.steps| ==> r.steps[i].types == [] && r.steps[i].latency.None?)
      && r.summary == Summary(|s|, |s|, |s|, 0, 0, 0, 0, 0, 0, 0)
  {
    hide Align, UniqueIds, UniqueKey, DiffPair, Joins;
    var r, pairs := Analysis(s, s, readers), Align(s, s);
    Conservation(s, s, readers);
    CountersAreOrdered(s, s, readers);
    SelfAlignment(s);
    hide SummaryOf;
    forall i | 0 <= i < |r.steps| ensures r.steps[i].types == [] && r.steps[i].latency.None? && r.steps[i].how.BySourceEvent? {
      assert pairs[i] in pairs;
      SelfRecord(pairs[i], readers);
    }
    QuietSummary(|s|, |s|, r.steps);
  }

  // ---------- swapping the runs ----------

  lemma DiffsSwapOneWay(a: Json, b: Json, path: seq<PathStep>, sensitive: string -> bool)
    ensures Differences(a, b, path, 0, sensitive) != [] ==> Differences(b, a, path, 0, sensitive) != []
    ensures ChangesShape(Differences(a, b, path, 0, sensitive)) ==> ChangesShape(Differences(b, a, path, 0, sensitive))
  {
    hide Differences;
    var x := Differences(a, b, path, 0, sensitive);
    if x != [] { DiffSymmetric(a, b, path, 0, sensitive, x[0]); }
    if ChangesShape(x) {
      var d :| d in x && d.kind.SchemaDifference?;
      DiffSymmetric(a, b, path, 0, sensitive, d);
      assert Swapped(d).kind.SchemaDifference?;
    }
  }

  lemma DiffsSwap(a: Json, b: Json, path: seq<PathStep>, sensitive: string -> bool)
    ensures Differences(a, b, path, 0, sensitive) == [] <==> Differences(b, a, path, 0, sensitive) == []
    ensures ChangesShape(Differences(a, b, path, 0, sensitive)) <==> ChangesShape(Differences(b, a, path, 0, sensitive))
  {
    hide Differences, ChangesShape;
    DiffsSwapOneWay(a, b, path, sensitive);
    DiffsSwapOneWay(b, a, path, sensitive);
  }

  /** What the record of a flipped pair says. */
  lemma FlippedRecord(p: StepPair, readers: Readers)
    requires Justified(p)
    ensures var x, y := DiffPair(p, readers), DiffPair(Flip(p), readers);
      && IsMatched(y) == IsMatched(x) && IsAdded(y) == IsRemoved(x) && IsRemoved(y) == IsAdded(x)
      && IsChanged(y) == IsChanged(x) && HasChangedOutput(y) == HasChangedOutput(x) && HasSchemaChange(y) == HasSchemaChange(x)
      && IsNewFailure(y) == IsResolvedFailure(x) && IsResolvedFailure(y) == IsNewFailure(x)
  {
    hide InputDiffs, OutputDiffs, TypesOf;
    if p.baseline.Some? && p.candidate.Some? {
      var b, c := p.baseline.value, p.candidate.value;
      FlippedTypes(b, c, readers);
    }
  }

  lemma FlippedTypes(b: ReplayStep, c: ReplayStep, readers: Readers)
    ensures TypesOf(b, c, readers) == [] <==> TypesOf(c, b, readers) == []
    ensures OutputChanged in TypesOf(b, c, readers) <==> OutputChanged in TypesOf(c, b, readers)
    ensures SchemaChanged in TypesOf(b, c, readers) <==> SchemaChanged in TypesOf(c, b, readers)
    ensures ErrorsOf(b, c, readers).Some? && ErrorsOf(b, c, readers).value.kind.ErrorIntroduced?
       <==> ErrorsOf(c, b, readers).Some? && ErrorsOf(c, b, readers).value.kind.ErrorResolved?
    ensures ErrorsOf(c, b, readers).Some? && ErrorsOf(c, b, readers).value.kind.ErrorIntroduced?
       <==> ErrorsOf(b, c, readers).Some? && ErrorsOf(b, c, readers).value.kind.ErrorResolved?
  {
    hide Differences, ChangesShape;
    DiffsSwap(b.input, c.input, [Key("input")], readers.sensitive);
    DiffsSwap(b.output, c.output, [Key("output")], readers.sensitive);
    NoTypes(b, c, readers);
    NoTypes(c, b, readers);
    hide TypesOf;
    TypesMembers(b, c, readers, OutputChanged);
    TypesMembers(c, b, readers, OutputChanged);
    TypesMembers(b, c, readers, SchemaChanged);
    TypesMembers(c, b, readers, SchemaChanged);
  }

  lemma NoTypes(b: ReplayStep, c: ReplayStep, readers: Readers)
    ensures TypesOf(b, c, readers) == [] <==>
      && b.status == c.status && b.kind == c.kind
      && b.componentId == c.componentId && b.componentVersionId == c.componentVersionId
      && InputDiffs(b, c, readers) == [] && OutputDiffs(b, c, readers) == []
      && ErrorsOf(b, c, readers).None? && LatencyOf(b, c).None?
  {
    hide InputDiffs, OutputDiffs, ErrorsOf, LatencyOf;
    var outputs := OutputDiffs(b, c, readers);
    assert ChangesShape(outputs) ==> outputs != [];
    assert |TypesOf(b, c, readers)| == |MetadataTypes(b, c)| + |If(InputDiffs(b, c, readers) != [], InputChanged)|
      + |If(outputs != [], OutputChanged)| + |If(ChangesShape(outputs), SchemaChanged)|
      + (if ErrorsOf(b, c, readers).Some? then 1 else 0) + |If(LatencyOf(b, c).Some?, LatencyChanged)|;
  }

  lemma CountFlipped(p: StepDifference -> bool, q: StepDifference -> bool, b: seq<ReplayStep>, c: seq<ReplayStep>, readers: Readers)
    requires forall x :: x in Align(b, c) ==> q(DiffPair(Flip(x), readers)) == p(DiffPair(x, readers))
    ensures Count(q, StepDiffs(Align(c, b), readers)) == Count(p, StepDiffs(Align(b, c), readers))
  {
    hide Align, DiffPair;
    var pairs := Align(b, c);
    var diff := (x: StepPair) => DiffPair(x, readers);
    var pOfPair, qOfPair := (x: StepPair) => p(DiffPair(x, readers)), (x: StepPair) => q(DiffPair(x, readers));
    AlignmentSwaps(b, c);
    CountAcross(q, diff, qOfPair, Align(c, b));
    CountPermutation(qOfPair, Align(c, b), Mapped(Flip, pairs));
    CountAcross(qOfPair, Flip, pOfPair, pairs);
    CountAcross(p, diff, pOfPair, pairs);
  }

  /** Swapping the runs exchanges added with removed and new with resolved failures, and keeps the rest. */
  lemma SummarySwaps(b: seq<ReplayStep>, c: seq<ReplayStep>, readers: Readers)
    requires UniqueIds(b) && UniqueIds(c)
    ensures var s, t := Analysis(b, c, readers).summary, Analysis(c, b, readers).summary;
      t == Summary(s.totalCandidate, s.totalBaseline, s.matched, s.removed, s.added, s.changed,
                   s.resolvedFailures, s.newFailures, s.changedOutputs, s.schemaChanges)
  {
    hide Align, DiffPair, UniqueIds, Count, Flip;
    forall x | x in Align(b, c)
      ensures var r, f := DiffPair(x, readers), DiffPair(Flip(x), readers);
        && IsMatched(f) == IsMatched(r) && IsAdded(f) == IsRemoved(r) && IsRemoved(f) == IsAdded(r)
        && IsChanged(f) == IsChanged(r) && HasChangedOutput(f) == HasChangedOutput(r) && HasSchemaChange(f) == HasSchemaChange(r)
        && IsNewFailure(f) == IsResolvedFailure(r) && IsResolvedFailure(f) == IsNewFailure(r)
    {
      AlignmentJustified(b, c, x);
      FlippedRecord(x, readers);
    }
    hide IsMatched, IsAdded, IsRemoved, IsChanged, HasChangedOutput, HasSchemaChange, IsNewFailure, IsResolvedFailure, StepDiffs;
    CountFlipped(IsMatched, IsMatched, b, c, readers);
    CountFlipped(IsRemoved, IsAdded, b, c, readers);
    CountFlipped(IsAdded, IsRemoved, b, c, readers);
    CountFlipped(IsChanged, IsChanged, b, c, readers);
    CountFlipped(HasChangedOutput, HasChangedOutput, b, c, readers);
    CountFlipped(HasSchemaChange, HasSchemaChange, b, c, readers);
    CountFlipped(IsResolvedFailure, IsNewFailure, b, c, readers);
    CountFlipped(IsNewFailure, IsResolvedFailure, b, c, readers);
  }
}
