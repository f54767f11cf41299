/** The differential analyzer: one difference record per aligned pair, and the summary counters. */
module Differential {
  import opened JsonValues
  import opened Options
  import opened Ordering
  import opened ReplayModel
  import opened Alignment
  import opened AlignmentRun
  import AlignmentTheorems
  import opened ValueDiff

  datatype DifferenceType =
    | StepAdded | StepRemoved | StepStatusChanged | ToolChanged | InputChanged | OutputChanged
    | ErrorIntroduced | ErrorResolved | ErrorChanged
    | ProviderInvocationChanged | SchemaChanged | LatencyChanged

  datatype ErrorDifference = ErrorDifference(kind: DifferenceType, baselinePresent: bool, candidatePresent: bool)

  datatype LatencyDifference = LatencyDifference(baselineMs: int, candidateMs: int, deltaMs: int, percent: Option<real>)

  datatype StepDifference = StepDifference(
    how: Method,
    types: seq<DifferenceType>,
    sequenceNumber: int,
    baseline: Option<ReplayStep>,
    candidate: Option<ReplayStep>,
    fields: seq<FieldDifference>,
    error: Option<ErrorDifference>,
    latency: Option<LatencyDifference>)

  datatype Summary = Summary(
    totalBaseline: nat, totalCandidate: nat, matched: nat, added: nat, removed: nat, changed: nat,
    newFailures: nat, resolvedFailures: nat, changedOutputs: nat, schemaChanges: nat)

  datatype Report = Report(steps: seq<StepDifference>, summary: Summary)

  /** The sensitive-key test and the sanitized error label, both fixed elsewhere. */
  datatype Readers = Readers(sensitive: string -> bool, category: Json -> string)

  // ---------- one pair ----------

  function ErrorsOf(b: ReplayStep, c: ReplayStep, readers: Readers): Option<ErrorDifference> {
    if b.error.JNull? && c.error.JNull? then None
    else if c.error.JNull? then Some(ErrorDifference(ErrorResolved, true, false))
    else if b.error.JNull? then Some(ErrorDifference(ErrorIntroduced, false, true))
    else if (readers.category)(b.error) != (readers.category)(c.error) then Some(ErrorDifference(ErrorChanged, true, true))
    else None
  }

  function LatencyOf(b: ReplayStep, c: ReplayStep): Option<LatencyDifference> {
    if b.durationMs.None? || c.durationMs.None? then None
    else
      var delta := c.durationMs.value - b.durationMs.value;
      if delta == 0 then None
      else Some(LatencyDifference(b.durationMs.value, c.durationMs.value, delta,
        if b.durationMs.value > 0 then Some(delta as real / b.durationMs.value as real * 100.0) else None))
  }

  function InputDiffs(b: ReplayStep, c: ReplayStep, readers: Readers): seq<FieldDifference> {
    Differences(b.input, c.input, [Key("input")], 0, readers.sensitive)
  }

  function OutputDiffs(b: ReplayStep, c: ReplayStep, readers: Readers): seq<FieldDifference> {
    Differences(b.output, c.output, [Key("output")], 0, readers.sensitive)
  }

  predicate ChangesShape(diffs: seq<FieldDifference>) { exists d :: d in diffs && d.kind.SchemaDifference? }

  function If(condition: bool, t: DifferenceType): seq<DifferenceType> { if condition then [t] else [] }

  function MetadataTypes(b: ReplayStep, c: ReplayStep): seq<DifferenceType> {
    If(b.status != c.status, StepStatusChanged)
    + If(b.kind != c.kind, ProviderInvocationChanged)
    + If(b.componentId != c.componentId || b.componentVersionId != c.componentVersionId, ToolChanged)
  }

  /** The difference types of two matched steps, in the order they are detected. */
  function TypesOf(b: ReplayStep, c: ReplayStep, readers: Readers): seq<DifferenceType> {
    var outputs, error := OutputDiffs(b, c, readers), ErrorsOf(b, c, readers);
    MetadataTypes(b, c)
    + If(InputDiffs(b, c, readers) != [], InputChanged)
    + If(outputs != [], OutputChanged)
    + If(ChangesShape(outputs), SchemaChanged)
    + (if error.Some? then [error.value.kind] else [])
    + If(LatencyOf(b, c).Some?, LatencyChanged)
  }

  function DiffPair(p: StepPair, readers: Readers): StepDifference {
    if p.baseline.None? then
      StepDifference(p.how, [StepAdded], if p.candidate.Some? then p.candidate.value.sequenceNumber else 0,
                     None, p.candidate, [], None, None)
    else if p.candidate.None? then
      StepDifference(p.how, [StepRemoved], p.baseline.value.sequenceNumber, p.baseline, None, [], None, None)
    else
      var b, c := p.baseline.value, p.candidate.value;
      StepDifference(p.how, TypesOf(b, c, readers), b.sequenceNumber, p.baseline, p.candidate,
                     InputDiffs(b, c, readers) + OutputDiffs(b, c, readers), ErrorsOf(b, c, readers), LatencyOf(b, c))
  }

  // ---------- counters ----------

  predicate IsMatched(sd: StepDifference) { !sd.how.Unmatched? }

  predicate IsAdded(sd: StepDifference) { sd.how.Unmatched? && sd.baseline.None? }

  predicate IsRemoved(sd: StepDifference) { sd.how.Unmatched? && sd.baseline.Some? }

  predicate IsChanged(sd: StepDifference) { IsMatched(sd) && sd.types != [] }

  predicate HasChangedOutput(sd: StepDifference) { IsMatched(sd) && OutputChanged in sd.types }

  predicate HasSchemaChange(sd: StepDifference) { IsMatched(sd) && SchemaChanged in sd.types }

  predicate IsNewFailure(sd: StepDifference) { IsMatched(sd) && sd.error.Some? && sd.error.value.kind.ErrorIntroduced? }

  predicate IsResolvedFailure(sd: StepDifference) { IsMatched(sd) && sd.error.Some? && sd.error.value.kind.ErrorResolved? }

  function SummaryOf(totalBaseline: nat, totalCandidate: nat, steps: seq<StepDifference>): Summary {
    Summary(totalBaseline, totalCandidate,
            Count(IsMatched, steps), Count(IsAdded, steps), Count(IsRemoved, steps), Count(IsChanged, steps),
            Count(IsNewFailure, steps), Count(IsResolvedFailure, steps),
            Count(HasChangedOutput, steps), Count(HasSchemaChange, steps))
  }

  function StepDiffs(pairs: seq<StepPair>, readers: Readers): seq<StepDifference> {
    Mapped((p: StepPair) => DiffPair(p, readers), pairs)
  }

  function Analysis(b: seq<ReplayStep>, c: seq<ReplayStep>, readers: Readers): Report {
    var steps := StepDiffs(Align(b, c), readers);
    Report(steps, SummaryOf(|b|, |c|, steps))
  }

  // ---------- the analyzer as it runs ----------

  method ComparePair(p: StepPair, readers: Readers) returns (sd: StepDifference)
    requires p.baseline.Some? || p.candidate.Some?
    ensures sd == DiffPair(p, readers)
  {
    hide Differences;
    if p.baseline.None? {
      return StepDifference(p.how, [StepAdded], p.candidate.value.sequenceNumber, None, p.candidate, [], None, None);
    }
    if p.candidate.None? {
      return StepDifference(p.how, [StepRemoved], p.baseline.value.sequenceNumber, p.baseline, None, [], None, None);
    }
    var b, c := p.baseline.value, p.candidate.value;
    var inputs := DiffValues(b.input, c.input, [Key("input")], 0, readers.sensitive);
    var outputs := DiffValues(b.output, c.output, [Key("output")], 0, readers.sensitive);
    var types := DetectTypes(b, c, inputs, outputs, readers);
    sd := StepDifference(p.how, types, b.sequenceNumber, p.baseline, p.candidate,
                         inputs + outputs, ErrorsOf(b, c, readers), LatencyOf(b, c));
  }

  method DetectTypes(b: ReplayStep, c: ReplayStep, inputs: seq<FieldDifference>, outputs: seq<FieldDifference>, readers: Readers)
    returns (types: seq<DifferenceType>)
    requires inputs == InputDiffs(b, c, readers) && outputs == OutputDiffs(b, c, readers)
    ensures types == TypesOf(b, c, readers)
  {
    hide InputDiffs, OutputDiffs, ErrorsOf, LatencyOf;
    types := DetectMetadata(b, c);
    if inputs != [] { types := types + [InputChanged]; }
    assert types == MetadataTypes(b, c) + If(inputs != [], InputChanged);
    ghost var before := types;
    if outputs != [] {
      types := types + [OutputChanged];
      if ChangesShape(outputs) { types := types + [SchemaChanged]; }
    }
    assert types == before + If(outputs != [], OutputChanged) + If(ChangesShape(outputs), SchemaChanged);
    var error := ErrorsOf(b, c, readers);
    if error.Some? { types := types + [error.value.kind]; }
    if LatencyOf(b, c).Some? { types := types + [LatencyChanged]; }
  }

  method DetectMetadata(b: ReplayStep, c: ReplayStep) returns (types: seq<DifferenceType>)
    ensures types == MetadataTypes(b, c)
  {
    types := [];
    if b.status != c.status { types := types + [StepStatusChanged]; }
    if b.kind != c.kind { types := types + [ProviderInvocationChanged]; }
    if b.componentId != c.componentId || b.componentVersionId != c.componentVersionId { types := types + [ToolChanged]; }
  }

  method Summarize(totalBaseline: nat, totalCandidate: nat, steps: seq<StepDifference>) returns (summary: Summary)
    ensures summary == SummaryOf(totalBaseline, totalCandidate, steps)
  {
    var matched, added, removed, changed: nat := 0, 0, 0, 0;
    var newFailures, resolvedFailures, changedOutputs, schemaChanges: nat := 0, 0, 0, 0;
    for i := 0 to |steps|
      invariant Summary(totalBaseline, totalCandidate, matched, added, removed, changed,
                        newFailures, resolvedFailures, changedOutputs, schemaChanges)
             == SummaryOf(totalBaseline, totalCandidate, steps[..i])
    {
      var sd := steps[i];
      assert steps[..i + 1] == steps[..i] + [sd];
      SummaryAppend(totalBaseline, totalCandidate, steps[..i], sd);
      if sd.how.Unmatched? {
        if sd.baseline.None? { added := added + 1; } else { removed := removed + 1; }
        continue;
      }
      matched := matched + 1;
      if sd.types != [] { changed := changed + 1; }
      if OutputChanged in sd.types { changedOutputs := changedOutputs + 1; }
      if SchemaChanged in sd.types { schemaChanges := schemaChanges + 1; }
      if sd.error.Some? {
        if sd.error.value.kind.ErrorIntroduced? { newFailures := newFailures + 1; }
        else if sd.error.value.kind.ErrorResolved? { resolvedFailures := resolvedFailures + 1; }
      }
    }
    assert steps[..|steps|] == steps;
    summary := Summary(totalBaseline, totalCandidate, matched, added, removed, changed,
                       newFailures, resolvedFailures, changedOutputs, schemaChanges);
  }

  function One(condition: bool): nat { if condition then 1 else 0 }

  lemma SummaryAppend(totalBaseline: nat, totalCandidate: nat, steps: seq<StepDifference>, sd: StepDifference)
    ensures var s := SummaryOf(totalBaseline, totalCandidate, steps);
      SummaryOf(totalBaseline, totalCandidate, steps + [sd]) ==
        Summary(s.totalBaseline, s.totalCandidate,
                s.matched + One(IsMatched(sd)), s.added + One(IsAdded(sd)), s.removed + One(IsRemoved(sd)),
                s.changed + One(IsChanged(sd)), s.newFailures + One(IsNewFailure(sd)),
                s.resolvedFailures + One(IsResolvedFailure(sd)),
                s.changedOutputs + One(HasChangedOutput(sd)), s.schemaChanges + One(HasSchemaChange(sd)))
  {
    hide Count;
    CountAppend(IsMatched, steps, sd);
    CountAppend(IsAdded, steps, sd);
    CountAppend(IsRemoved, steps, sd);
    CountAppend(IsChanged, steps, sd);
    CountAppend(IsNewFailure, steps, sd);
    CountAppend(IsResolvedFailure, steps, sd);
    CountAppend(HasChangedOutput, steps, sd);
    CountAppend(HasSchemaChange, steps, sd);
  }

  method Analyze(b: seq<ReplayStep>, c: seq<ReplayStep>, readers: Readers) returns (report: Report)
    requires UniqueIds(b) && UniqueIds(c)
    ensures report == Analysis(b, c, readers)
  {
    hide Align, UniqueIds, DiffPair, SummaryOf;
    var pairs := AlignSteps(b, c);
    var steps: seq<StepDifference> := [];
    for i := 0 to |pairs|
      invariant steps == StepDiffs(pairs, readers)[..i]
    {
      AlignmentTheorems.AlignmentJustified(b, c, pairs[i]);
      var sd := ComparePair(pairs[i], readers);
      steps := steps + [sd];
    }
    assert steps == StepDiffs(pairs, readers);
    var summary := Summarize(|b|, |c|, steps);
    report := Report(steps, summary);
  }
}
