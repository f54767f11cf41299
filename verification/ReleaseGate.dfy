/** From compatibility scans and replay comparisons to the release decision. */
module ReleaseGate {
  import opened Options
  import opened Ordering
  import opened ReplayModel
  import opened Alignment
  import opened AlignmentTheorems
  import opened Differential
  import opened DifferentialFacts
  import opened SchemaModel
  import opened SchemaRules
  import opened SchemaVerdicts
  import opened CompatibilityAnalyzer
  import opened Risk
  import opened ReplayPlanner
  import Pipeline = ReplayPipeline
  import Trajectories = TrajectoryRuns
  import Callers = ReplayRuns
  import Analyses = PullRequestAnalysis

  // ---------- assembling the evidence ----------

  predicate IsBreakingChange(ch: Change) { ch.classification.Breaking? }

  predicate IsCriticalChange(ch: Change) { ch.severity.Critical? }

  /** A baseline step that succeeded and has no counterpart. */
  predicate RemovesRequired(sd: StepDifference) {
    StepRemoved in sd.types && sd.baseline.Some? && !sd.baseline.value.status.Failed? && !sd.baseline.value.status.Skipped?
  }

  predicate ChangesTool(sd: StepDifference) { ToolChanged in sd.types || ProviderInvocationChanged in sd.types }

  predicate IntroducesError(sd: StepDifference) { ErrorIntroduced in sd.types }

  function MaxLatency(steps: seq<StepDifference>): Option<real> {
    if steps == [] then None
    else
      var rest, l := MaxLatency(steps[1..]), steps[0].latency;
      if l.None? || l.value.percent.None? then rest
      else if rest.None? || rest.value < l.value.percent.value then l.value.percent
      else rest
  }

  /** The largest delta of a step that got slower, as the evidence is described. */
  function LargestPositive(steps: seq<StepDifference>): Option<real> {
    if steps == [] then None
    else
      var rest, l := LargestPositive(steps[1..]), steps[0].latency;
      if l.None? || l.value.percent.None? || l.value.percent.value <= 0.0 then rest
      else if rest.None? || rest.value < l.value.percent.value then l.value.percent
      else rest
  }

  /** The collected delta differs from the described one exactly when deltas were measured and none is
      positive. */
  lemma {:induction false} MaxLatencyExactly(steps: seq<StepDifference>)
    ensures MaxLatency(steps) != LargestPositive(steps) <==> MaxLatency(steps).Some? && MaxLatency(steps).value <= 0.0
    ensures MaxLatency(steps).Some? && MaxLatency(steps).value <= 0.0 ==> LargestPositive(steps).None?
  {
    if steps != [] { MaxLatencyExactly(steps[1..]); }
  }

  /** A run that only got faster: the collected delta is negative, the described one absent. */
  lemma FasterRunIsRead(sd: StepDifference, delta: real)
    requires sd.latency.Some? && sd.latency.value.percent == Some(delta) && delta <= 0.0
    ensures MaxLatency([sd]) == Some(delta) && LargestPositive([sd]) == None
  {
    assert [sd][1..] == [];
  }

  /** The latency rule fires alike on either reading. */
  lemma LatencyRuleUnaffected(ctx: Context, steps: seq<StepDifference>)
    ensures LatencyRegression(ctx.(maxLatencyPercentDelta := MaxLatency(steps)))
         == LatencyRegression(ctx.(maxLatencyPercentDelta := LargestPositive(steps)))
  {
    MaxLatencyExactly(steps);
  }

  function BuildContext(scan: Option<Scan>, report: Option<Report>, blastRadiusTotal: Option<int>): Context {
    var status := if scan.Some? then Some(scan.value.status) else None;
    var breaking := if scan.Some? then Count(IsBreakingChange, scan.value.changes) else 0;
    var critical := if scan.Some? then Count(IsCriticalChange, scan.value.changes) else 0;
    if report.None? then Context(status, breaking, critical, 0, 0, false, false, false, None, blastRadiusTotal)
    else
      var steps, summary := report.value.steps, report.value.summary;
      Context(status, breaking, critical, summary.newFailures, summary.schemaChanges,
              exists sd :: sd in steps && RemovesRequired(sd), exists sd :: sd in steps && ChangesTool(sd),
              exists sd :: sd in steps && IntroducesError(sd), MaxLatency(steps), blastRadiusTotal)
  }

  /** A tool's contents before and after, and the steps of two completed replays. */
  datatype Tools = Tools(before: ToolContent, after: ToolContent)

  datatype Runs = Runs(baseline: seq<ReplayStep>, candidate: seq<ReplayStep>)

  function ScanOf(tools: Option<Tools>): Option<Scan> {
    if tools.None? then None else ToolScan(tools.value.before, tools.value.after)
  }

  function ReportOf(runs: Option<Runs>, readers: Readers): Option<Report> {
    if runs.None? then None else Some(Analysis(runs.value.baseline, runs.value.candidate, readers))
  }

  ghost predicate Comparable(tools: Option<Tools>, runs: Option<Runs>) {
    && (tools.Some? ==> ToolScan(tools.value.before, tools.value.after).Some?)
    && (runs.Some? ==> UniqueIds(runs.value.baseline) && UniqueIds(runs.value.candidate))
  }

  ghost predicate InputGainsRequired(tools: Tools) {
    exists route, name :: GainsAt(tools.before.inputSchema, tools.after.inputSchema, route, name)
  }

  ghost predicate StartsFailing(runs: Runs) {
    exists p :: p in Align(runs.baseline, runs.candidate) && Fails(p)
  }

  // ---------- end to end ----------

  /** A release is hard-blocked, and so BLOCK whatever it scores, exactly when some node that both
      input schemas share gains a required declared property, or some aligned pair of replay steps
      goes from no error to an error. */
  lemma HardBlockExactly(tools: Option<Tools>, runs: Option<Runs>, readers: Readers, blast: Option<int>)
    requires Comparable(tools, runs)
    ensures var ctx := BuildContext(ScanOf(tools), ReportOf(runs, readers), blast);
      && (HardBlocked(ctx) <==> (tools.Some? && InputGainsRequired(tools.value)) || (runs.Some? && StartsFailing(runs.value)))
      && (HardBlocked(ctx) ==> Decide(Score(ctx), HardBlocked(ctx)).Block?)
  {
    hide Align, UniqueIds, ToolScan, GainsAt, Score, MaxLatency, RemovesRequired, ChangesTool, IntroducesError, DiffPair, Fails, Analysis;
    if tools.Some? {
      CriticalToolExactly(tools.value.before, tools.value.after);
      CountSome(IsCriticalChange, ToolScan(tools.value.before, tools.value.after).value.changes);
    }
    if runs.Some? { NewFailuresExactly(runs.value.baseline, runs.value.candidate, readers); }
  }

  /** A successful baseline step left without a counterpart. */
  predicate Vanishes(p: StepPair) {
    p.how.Unmatched? && p.baseline.Some? && !p.baseline.value.status.Failed? && !p.baseline.value.status.Skipped?
  }

  /** One record's view of the evidence. */
  lemma RecordEvidence(p: StepPair, readers: Readers)
    requires Justified(p)
    ensures IntroducesError(DiffPair(p, readers)) <==> Fails(p)
    ensures RemovesRequired(DiffPair(p, readers)) <==> Vanishes(p)
    ensures ChangesTool(DiffPair(p, readers)) <==> ChangesInvocation(p)
  {
    hide InputDiffs, OutputDiffs, LatencyOf;
    if p.baseline.Some? && p.candidate.Some? {
      var b, c := p.baseline.value, p.candidate.value;
      TypesMembers(b, c, readers, ErrorIntroduced);
      TypesMembers(b, c, readers, StepRemoved);
      TypesMembers(b, c, readers, ToolChanged);
      TypesMembers(b, c, readers, ProviderInvocationChanged);
      hide TypesOf;
    }
  }

  predicate ChangesInvocation(p: StepPair) {
    && p.baseline.Some? && p.candidate.Some?
    && (p.baseline.value.kind != p.candidate.value.kind || p.baseline.value.componentId != p.candidate.value.componentId
        || p.baseline.value.componentVersionId != p.candidate.value.componentVersionId)
  }

  /** What the flags of a report mean, step by step; and the error flag never disagrees with the
      failure counter. */
  lemma FlagsMeanSteps(b: seq<ReplayStep>, c: seq<ReplayStep>, readers: Readers, scan: Option<Scan>, blast: Option<int>)
    requires UniqueIds(b) && UniqueIds(c)
    ensures var ctx := BuildContext(scan, Some(Analysis(b, c, readers)), blast);
      && (ctx.hasRemovedRequiredStep <==> exists p :: p in Align(b, c) && Vanishes(p))
      && (ctx.toolInvocationChanged <==> exists p :: p in Align(b, c) && ChangesInvocation(p))
      && (ctx.errorIntroduced <==> ctx.newFailures > 0)
  {
    hide Align, UniqueIds, DiffPair, Count, MaxLatency, RemovesRequired, ChangesTool, IntroducesError, Fails, ChangesInvocation, Vanishes;
    var pairs, steps := Align(b, c), Analysis(b, c, readers).steps;
    NewFailuresExactly(b, c, readers);
    hide SummaryOf;
    forall p | p in pairs
      ensures IntroducesError(DiffPair(p, readers)) <==> Fails(p)
      ensures RemovesRequired(DiffPair(p, readers)) <==> Vanishes(p)
      ensures ChangesTool(DiffPair(p, readers)) <==> ChangesInvocation(p)
    {
      AlignmentJustified(b, c, p);
      RecordEvidence(p, readers);
    }
    RecordsOfPairs(b, c, readers);
  }

  // ---------- latency ----------

  /** Timed on both sides, and the candidate took half as long again as the baseline, or longer. */
  predicate Slows(p: StepPair) {
    && p.baseline.Some? && p.candidate.Some?
    && p.baseline.value.durationMs.Some? && p.candidate.value.durationMs.Some?
    && p.baseline.value.durationMs.value > 0
    && 2 * p.candidate.value.durationMs.value >= 3 * p.baseline.value.durationMs.value
  }

  predicate ShowsRegression(sd: StepDifference) {
    sd.latency.Some? && sd.latency.value.percent.Some? && sd.latency.value.percent.value >= 50.0
  }

  lemma RegressionExactly(p: StepPair, readers: Readers)
    ensures ShowsRegression(DiffPair(p, readers)) <==> Slows(p)
  {
    hide TypesOf, ErrorsOf, InputDiffs, OutputDiffs;
    if p.baseline.Some? && p.candidate.Some? {
      var b, c := p.baseline.value, p.candidate.value;
      LatencyExactly(b, c);
      hide LatencyOf;
      if LatencyOf(b, c).Some? && LatencyOf(b, c).value.percent.Some? {
        HalfAgain(LatencyOf(b, c).value.percent.value, b.durationMs.value, c.durationMs.value);
      }
    }
  }

  lemma HalfAgain(percent: real, base: int, now: int)
    requires base > 0 && percent * base as real == 100.0 * (now - base) as real
    ensures percent >= 50.0 <==> 2 * now >= 3 * base
  {
    if percent < 50.0 {
      assert (50.0 - percent) * base as real > 0.0;
    } else {
      assert (percent - 50.0) * base as real >= 0.0;
    }
    assert 100.0 * (now - base) as real >= 50.0 * base as real <==> 100 * (now - base) >= 50 * base;
  }

  lemma {:induction false} MaxLatencyReaches(steps: seq<StepDifference>)
    ensures MaxLatency(steps).Some? && MaxLatency(steps).value >= 50.0 <==> exists sd :: sd in steps && ShowsRegression(sd)
  {
    if steps != [] {
      MaxLatencyReaches(steps[1..]);
      assert steps == [steps[0]] + steps[1..];
      assert (exists sd :: sd in steps && ShowsRegression(sd))
        <==> ShowsRegression(steps[0]) || exists sd :: sd in steps[1..] && ShowsRegression(sd);
    }
  }

  /** The latency rule fires exactly when some aligned pair slows down by half or more. */
  lemma LatencyRuleExactly(b: seq<ReplayStep>, c: seq<ReplayStep>, readers: Readers, scan: Option<Scan>, blast: Option<int>)
    ensures LatencyRegression(BuildContext(scan, Some(Analysis(b, c, readers)), blast)).Some?
       <==> exists p :: p in Align(b, c) && Slows(p)
  {
    hide Align, DiffPair, ShowsRegression, Slows, Count, RemovesRequired, ChangesTool, IntroducesError;
    var pairs, steps := Align(b, c), Analysis(b, c, readers).steps;
    MaxLatencyReaches(steps);
    hide MaxLatency;
    forall p | p in pairs ensures ShowsRegression(DiffPair(p, readers)) <==> Slows(p) { RegressionExactly(p, readers); }
    RecordsOfPairs(b, c, readers);
  }

  // ---------- the score of a release ----------

  ghost predicate SomePair(runs: Option<Runs>, shows: StepPair -> bool) {
    runs.Some? && exists p :: p in Align(runs.value.baseline, runs.value.candidate) && shows(p)
  }

  ghost predicate SomeShapeChange(runs: Option<Runs>, readers: Readers) {
    runs.Some? && exists p :: p in Align(runs.value.baseline, runs.value.candidate) && ChangesOutputShape(p, readers)
  }

  ghost function Worth(evidence: bool, points: int): int { if evidence then points else 0 }

  /** What a release is worth, from its tools, its replays and its blast radius alone: each newly failing pair, and each
      kind of difference once. */
  ghost function ReleasePoints(tools: Option<Tools>, runs: Option<Runs>, readers: Readers, blast: Option<int>): int {
    Min(Worth(tools.Some? && Breaks(tools.value), 30)
        + Min(if runs.Some? then 15 * Count(Fails, Align(runs.value.baseline, runs.value.candidate)) else 0, 45)
        + Min(Worth(SomePair(runs, Vanishes), 20) + Worth(SomeShapeChange(runs, readers), 20)
              + Worth(SomePair(runs, ChangesInvocation), 10) + Worth(SomePair(runs, Fails), 15), 50)
        + Worth(SomePair(runs, Slows), 10)
        + Worth(blast.Some? && blast.value >= 3, 10) + Worth(blast.Some? && blast.value >= 10, 10), 100)
  }

  /** The score of a release is what its evidence is worth. */
  lemma ReleaseScoreExactly(tools: Option<Tools>, runs: Option<Runs>, readers: Readers, blast: Option<int>)
    requires Comparable(tools, runs)
    ensures Score(BuildContext(ScanOf(tools), ReportOf(runs, readers), blast)) == ReleasePoints(tools, runs, readers, blast)
  {
    ReleaseContext(tools, runs, readers, blast);
    ScoreFollowsContext(tools, runs, readers, blast, BuildContext(ScanOf(tools), ReportOf(runs, readers), blast));
  }

  lemma ScoreFollowsContext(tools: Option<Tools>, runs: Option<Runs>, readers: Readers, blast: Option<int>, ctx: Context)
    requires ContextMeans(ctx, tools, runs, readers, blast)
    ensures Score(ctx) == ReleasePoints(tools, runs, readers, blast)
  {
    hide SomePair, SomeShapeChange, Count, Align, Breaks, LatencyRegression, Score, Worth;
    var failures := if runs.Some? then Count(Fails, Align(runs.value.baseline, runs.value.candidate)) else 0;
    ContextScore(ctx, tools.Some? && Breaks(tools.value), failures, SomePair(runs, Vanishes), SomeShapeChange(runs, readers),
                 SomePair(runs, ChangesInvocation), SomePair(runs, Fails), SomePair(runs, Slows));
  }

  /** What each field of the evidence says of the tools and of the aligned pairs. */
  ghost predicate ContextMeans(ctx: Context, tools: Option<Tools>, runs: Option<Runs>, readers: Readers, blast: Option<int>) {
    && ((ctx.compatibilityStatus == Some(StatusBreaking) || ctx.breakingCount > 0) <==> tools.Some? && Breaks(tools.value))
    && ctx.newFailures == (if runs.Some? then Count(Fails, Align(runs.value.baseline, runs.value.candidate)) else 0)
    && (ctx.schemaChanges > 0 <==> SomeShapeChange(runs, readers))
    && (ctx.hasRemovedRequiredStep <==> SomePair(runs, Vanishes))
    && (ctx.toolInvocationChanged <==> SomePair(runs, ChangesInvocation))
    && (ctx.errorIntroduced <==> SomePair(runs, Fails))
    && (LatencyRegression(ctx).Some? <==> SomePair(runs, Slows))
    && ctx.blastRadiusTotal == blast
  }

  lemma ContextScore(ctx: Context, breaks: bool, failures: nat, removed: bool, shape: bool, invocation: bool, error: bool, slow: bool)
    requires (ctx.compatibilityStatus == Some(StatusBreaking) || ctx.breakingCount > 0) <==> breaks
    requires ctx.newFailures == failures && (ctx.schemaChanges > 0 <==> shape)
    requires ctx.hasRemovedRequiredStep == removed && ctx.toolInvocationChanged == invocation && ctx.errorIntroduced == error
    requires LatencyRegression(ctx).Some? <==> slow
    ensures Score(ctx) ==
      Min(Worth(breaks, 30) + Min(15 * failures, 45)
          + Min(Worth(removed, 20) + Worth(shape, 20) + Worth(invocation, 10) + Worth(error, 15), 50) + Worth(slow, 10)
          + Worth(ctx.blastRadiusTotal.Some? && ctx.blastRadiusTotal.value >= 3, 10)
          + Worth(ctx.blastRadiusTotal.Some? && ctx.blastRadiusTotal.value >= 10, 10), 100)
  {
  }

  /** The evidence context of a release in terms of its tools and the aligned pairs of its replays. */
  lemma ReleaseContext(tools: Option<Tools>, runs: Option<Runs>, readers: Readers, blast: Option<int>)
    requires Comparable(tools, runs)
    ensures ContextMeans(BuildContext(ScanOf(tools), ReportOf(runs, readers), blast), tools, runs, readers, blast)
  {
    var ctx := BuildContext(ScanOf(tools), ReportOf(runs, readers), blast);
    ToolsContext(tools, ReportOf(runs, readers), blast);
    if runs.Some? {
      RunsContext(runs.value, ScanOf(tools), readers, blast);
    } else {
      assert ctx.newFailures == 0 && ctx.schemaChanges == 0 && ctx.maxLatencyPercentDelta.None?;
    }
  }

  lemma ToolsContext(tools: Option<Tools>, report: Option<Report>, blast: Option<int>)
    requires tools.Some? ==> ToolScan(tools.value.before, tools.value.after).Some?
    ensures var ctx := BuildContext(ScanOf(tools), report, blast);
      && ((ctx.compatibilityStatus == Some(StatusBreaking) || ctx.breakingCount > 0) <==> tools.Some? && Breaks(tools.value))
      && ctx.blastRadiusTotal == blast
  {
    if tools.Some? { BreakingEvidence(tools.value); }
    hide ToolScan, Breaks, Count, MaxLatency, RemovesRequired, ChangesTool, IntroducesError;
  }

  lemma RunsContext(runs: Runs, scan: Option<Scan>, readers: Readers, blast: Option<int>)
    requires UniqueIds(runs.baseline) && UniqueIds(runs.candidate)
    ensures var ctx := BuildContext(scan, Some(Analysis(runs.baseline, runs.candidate, readers)), blast);
      && ctx.newFailures == Count(Fails, Align(runs.baseline, runs.candidate))
      && (ctx.schemaChanges > 0 <==> SomeShapeChange(Some(runs), readers))
      && (ctx.hasRemovedRequiredStep <==> SomePair(Some(runs), Vanishes))
      && (ctx.toolInvocationChanged <==> SomePair(Some(runs), ChangesInvocation))
      && (ctx.errorIntroduced <==> SomePair(Some(runs), Fails))
      && (LatencyRegression(ctx).Some? <==> SomePair(Some(runs), Slows))
  {
    var b, c := runs.baseline, runs.candidate;
    hide Align, UniqueIds, Count, Fails, Vanishes, ChangesInvocation, ChangesOutputShape, Slows;
    hide MaxLatency, RemovesRequired, ChangesTool, IntroducesError, Analysis, LatencyRegression;
    NewFailuresExactly(b, c, readers);
    SchemaChangesExactly(b, c, readers);
    FlagsMeanSteps(b, c, readers, scan, blast);
    LatencyRuleExactly(b, c, readers, scan, blast);
  }

  lemma RecordsOfPairs(b: seq<ReplayStep>, c: seq<ReplayStep>, readers: Readers)
    ensures forall p :: p in Align(b, c) ==> DiffPair(p, readers) in Analysis(b, c, readers).steps
    ensures forall sd :: sd in Analysis(b, c, readers).steps ==> exists p :: p in Align(b, c) && sd == DiffPair(p, readers)
  {
    hide Align, DiffPair, SummaryOf;
    var pairs, steps := Align(b, c), Analysis(b, c, readers).steps;
    forall p | p in pairs ensures DiffPair(p, readers) in steps {
      var i :| 0 <= i < |pairs| && pairs[i] == p;
      assert steps[i] == DiffPair(p, readers);
    }
    forall sd | sd in steps ensures exists p :: p in pairs && sd == DiffPair(p, readers) {
      var i :| 0 <= i < |steps| && steps[i] == sd;
      assert sd == DiffPair(pairs[i], readers);
    }
  }

  /** Comparing a run with itself adds no risk: the assessment is that of the scan alone. */
  lemma SelfComparisonAddsNothing(s: seq<ReplayStep>, readers: Readers, scan: Option<Scan>, blast: Option<int>)
    requires UniqueIds(s) && UniqueKey(EventKey, s)
    ensures BuildContext(scan, Some(Analysis(s, s, readers)), blast) == BuildContext(scan, None, blast)
  {
    hide UniqueIds, UniqueKey, Analysis, Count;
    SelfAnalysis(s, readers);
    NoLatency(Analysis(s, s, readers).steps);
  }

  lemma {:induction false} NoLatency(steps: seq<StepDifference>)
    requires forall i :: 0 <= i < |steps| ==> steps[i].latency.None?
    ensures MaxLatency(steps).None?
  {
    if steps != [] { NoLatency(steps[1..]); }
  }

  /** Over every recording and every pair of completed replays of it, the removed-step rule stays silent. */
  lemma SameTrajectoryRemovesNothing(
      recording: seq<Trajectories.Move>, later: seq<Trajectories.Move>,
      firstSub: Substitution, secondSub: Substitution,
      firstMoves: seq<Callers.Move>, secondMoves: seq<Callers.Move>,
      readers: Readers, scan: Option<Scan>, blast: Option<int>)
    requires Pipeline.CreatedPlan(Pipeline.Recorded(recording, []), firstSub).Some?
    requires Pipeline.CreatedPlan(Pipeline.Recorded(recording, later), secondSub).Some?
    requires Pipeline.Outcome(Pipeline.Recorded(recording, []), firstSub, firstMoves).status.ReplayCompleted?
    requires Pipeline.Outcome(Pipeline.Recorded(recording, later), secondSub, secondMoves).status.ReplayCompleted?
    ensures var b, c := Pipeline.Outcome(Pipeline.Recorded(recording, []), firstSub, firstMoves).steps,
                        Pipeline.Outcome(Pipeline.Recorded(recording, later), secondSub, secondMoves).steps;
      !BuildContext(scan, Some(Analysis(b, c, readers)), blast).hasRemovedRequiredStep
  {
    hide Pipeline.Recorded, Pipeline.CreatedPlan, Pipeline.Outcome;
    Pipeline.CompletedReplaysAlign(recording, later, firstSub, secondSub, firstMoves, secondMoves, readers);
    var b, c := Pipeline.Outcome(Pipeline.Recorded(recording, []), firstSub, firstMoves).steps,
                Pipeline.Outcome(Pipeline.Recorded(recording, later), secondSub, secondMoves).steps;
    NoUnmatchedNoRemoved(b, c, readers);
  }

  lemma NoUnmatchedNoRemoved(b: seq<ReplayStep>, c: seq<ReplayStep>, readers: Readers)
    requires forall p :: p in Align(b, c) ==> !p.how.Unmatched? && p.baseline.Some? && p.candidate.Some?
    ensures forall sd :: sd in Analysis(b, c, readers).steps ==> !RemovesRequired(sd)
  {
    var pairs, steps := Align(b, c), Analysis(b, c, readers).steps;
    assert steps == StepDiffs(pairs, readers);
    hide Align, DiffPair, RemovesRequired, Analysis;
    forall i | 0 <= i < |steps| ensures !RemovesRequired(steps[i]) {
      assert pairs[i] in pairs;
      JoinedRemovesNothing(pairs[i], readers);
    }
  }

  lemma JoinedRemovesNothing(p: StepPair, readers: Readers)
    requires p.baseline.Some? && p.candidate.Some?
    ensures !RemovesRequired(DiffPair(p, readers))
  {
    hide InputDiffs, OutputDiffs, LatencyOf;
    TypesMembers(p.baseline.value, p.candidate.value, readers, StepRemoved);
    hide TypesOf;
  }

  // ---------- pull requests ----------

  /** The context a pull request is assessed on: its scan and the blast radius, no replay evidence. */
  function PullRequestContext(tools: Tools, blast: Option<int>): Context { BuildContext(ScanOf(Some(tools)), None, blast) }

  /** Some node both input schemas share breaks for callers, or one both output schemas share breaks for consumers. */
  ghost predicate Breaks(tools: Tools) { ToolBreaks(tools.before, tools.after) }

  lemma BreakingEvidence(tools: Tools)
    requires ToolScan(tools.before, tools.after).Some?
    ensures var scan := ToolScan(tools.before, tools.after).value;
      && (scan.status.StatusBreaking? <==> Breaks(tools))
      && (Count(IsBreakingChange, scan.changes) > 0 <==> Breaks(tools))
  {
    ToolStatusExactly(tools.before, tools.after);
    var scan := ToolScan(tools.before, tools.after).value;
    assert scan.status == DeriveStatus(scan.changes);
    hide ToolScan, Breaks, ToolBreaks;
    CountSome(IsBreakingChange, scan.changes);
  }

  /** Without replay evidence a score never reaches BLOCK by itself. */
  lemma PullRequestScore(tools: Tools, blast: Option<int>)
    requires ToolScan(tools.before, tools.after).Some?
    ensures var ctx := PullRequestContext(tools, blast);
      && (Breaks(tools) ==> 30 <= Score(ctx) <= 50) && (!Breaks(tools) ==> Score(ctx) <= 20)
  {
    BreakingEvidence(tools);
    hide ToolScan, Count, Score, Breaks;
    ScanOnlyScore(PullRequestContext(tools, blast));
  }

  lemma ScanOnlyScore(ctx: Context)
    requires ctx.newFailures == 0 && ctx.schemaChanges == 0 && ctx.maxLatencyPercentDelta.None?
    requires !ctx.hasRemovedRequiredStep && !ctx.toolInvocationChanged && !ctx.errorIntroduced
    ensures if ctx.compatibilityStatus == Some(StatusBreaking) || ctx.breakingCount > 0 then 30 <= Score(ctx) <= 50 else Score(ctx) <= 20
  {
  }

  /** The conclusion of a pull request's check, end to end: over every history of deliveries and
      crashes, each completed check carries the pull request's commit and reads FAILURE exactly when
      the tool's shared input schema gains a required declared property, otherwise NEUTRAL when some
      shared subschema of the published tools breaks, otherwise SUCCESS. */
  lemma CheckConclusionExactly(tools: Tools, blast: Option<int>, headSha: string, actions: seq<Analyses.Action>, check: Analyses.Check)
    requires ToolScan(tools.before, tools.after).Some?
    requires var d, ctx := Analyses.Run(Analyses.Start(headSha), actions), PullRequestContext(tools, blast);
      && (d.row.evidence.Some? ==> d.row.evidence.value.decision == Decide(Score(ctx), HardBlocked(ctx)))
      && check in d.checks && check.conclusion.Some?
    ensures check.headSha == headSha
    ensures check.conclusion.value == if InputGainsRequired(tools) then Analyses.FailureConclusion
                                      else if Breaks(tools) then Analyses.NeutralConclusion
                                      else Analyses.SuccessConclusion
  {
    Analyses.EveryRunIsHonest(headSha, actions);
    PullRequestScore(tools, blast);
    HardBlockExactly(Some(tools), None, Readers((k: string) => false, e => "unknown"), blast);
    hide Analyses.Run, Score, ToolScan, InputGainsRequired, Breaks, Count;
  }
}
