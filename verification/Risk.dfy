/** The risk engine: named rules over an evidence context, category caps, hard blocks, a decision. */
module Risk {
  import opened Options
  import opened SchemaModel

  /** The evidence the rules read; `None` means no signal. */
  datatype Context = Context(
    compatibilityStatus: Option<CompatibilityStatus>,
    breakingCount: int,
    criticalCount: int,
    newFailures: int,
    schemaChanges: int,
    hasRemovedRequiredStep: bool,
    toolInvocationChanged: bool,
    errorIntroduced: bool,
    maxLatencyPercentDelta: Option<real>,
    blastRadiusTotal: Option<int>)

  datatype Category = Compatibility | Replay | DifferentialEvidence | BlastRadiusEvidence | Latency

  datatype RuleId =
    | CompatBreakingChange | NewReplayFailure | RemovedRequiredStep | HighBlastRadius
    | OutputSchemaBreak | ToolInvocationChange | ErrorIntroducedRule | SignificantLatencyIncrease
    | HardBlockCriticalCompatBreak | HardBlockNewReplayFailure

  datatype TriggeredRule = TriggeredRule(rule: RuleId, category: Category, scoreDelta: int, hardBlock: bool)

  datatype Decision = Pass | Warn | Block

  datatype Contribution = Contribution(category: Category, rawTotal: int, cappedTotal: int, cap: int)

  datatype Assessment = Assessment(
    decision: Decision, score: int, hardBlock: bool, rules: seq<TriggeredRule>, contributions: seq<Contribution>)

  const LATENCY_SIGNIFICANT_PERCENT := 50.0
  const BLAST_RADIUS_HIGH := 10
  const BLAST_RADIUS_MODERATE := 3
  const MAX_SCORE := 100
  const PASS_MAX := 29
  const WARN_MAX := 69

  const CATEGORIES: seq<Category> := [Compatibility, Replay, DifferentialEvidence, BlastRadiusEvidence, Latency]

  function CapOf(category: Category): int {
    match category
    case Compatibility => 40
    case Replay => 45
    case DifferentialEvidence => 50
    case BlastRadiusEvidence => 20
    case Latency => 15
  }

  function Min(a: int, b: int): int { if a <= b then a else b }

  // ---------- rules ----------

  function CompatBreaking(ctx: Context): Option<TriggeredRule> {
    if ctx.compatibilityStatus != Some(StatusBreaking) && ctx.breakingCount <= 0 then None
    else Some(TriggeredRule(CompatBreakingChange, Compatibility, 30, false))
  }

  function ReplayFailure(ctx: Context): Option<TriggeredRule> {
    if ctx.newFailures <= 0 then None
    else Some(TriggeredRule(NewReplayFailure, Replay, Min(15 * ctx.newFailures, 45), false))
  }

  function RemovedRequired(ctx: Context): Option<TriggeredRule> {
    if !ctx.hasRemovedRequiredStep then None
    else Some(TriggeredRule(RemovedRequiredStep, DifferentialEvidence, 20, false))
  }

  function BlastRadiusHigh(ctx: Context): Option<TriggeredRule> {
    if ctx.blastRadiusTotal.None? || ctx.blastRadiusTotal.value < BLAST_RADIUS_MODERATE then None
    else Some(TriggeredRule(HighBlastRadius, BlastRadiusEvidence, if ctx.blastRadiusTotal.value >= BLAST_RADIUS_HIGH then 20 else 10, false))
  }

  function OutputBreak(ctx: Context): Option<TriggeredRule> {
    if ctx.schemaChanges <= 0 then None else Some(TriggeredRule(OutputSchemaBreak, DifferentialEvidence, 20, false))
  }

  function ToolChange(ctx: Context): Option<TriggeredRule> {
    if !ctx.toolInvocationChanged then None
    else Some(TriggeredRule(ToolInvocationChange, DifferentialEvidence, 10, false))
  }

  function ErrorAppears(ctx: Context): Option<TriggeredRule> {
    if !ctx.errorIntroduced then None else Some(TriggeredRule(ErrorIntroducedRule, DifferentialEvidence, 15, false))
  }

  function LatencyRegression(ctx: Context): Option<TriggeredRule> {
    if ctx.maxLatencyPercentDelta.None? || ctx.maxLatencyPercentDelta.value < LATENCY_SIGNIFICANT_PERCENT then None
    else Some(TriggeredRule(SignificantLatencyIncrease, Latency, 10, false))
  }

  function CriticalBreak(ctx: Context): Option<TriggeredRule> {
    if ctx.criticalCount <= 0 then None
    else Some(TriggeredRule(HardBlockCriticalCompatBreak, Compatibility, 0, true))
  }

  function FailureOnPassingBaseline(ctx: Context): Option<TriggeredRule> {
    if ctx.newFailures <= 0 then None
    else Some(TriggeredRule(HardBlockNewReplayFailure, Replay, 0, true))
  }

  function ScoreResults(ctx: Context): seq<Option<TriggeredRule>> {
    [CompatBreaking(ctx), ReplayFailure(ctx), RemovedRequired(ctx), BlastRadiusHigh(ctx),
     OutputBreak(ctx), ToolChange(ctx), ErrorAppears(ctx), LatencyRegression(ctx)]
  }

  function HardBlockResults(ctx: Context): seq<Option<TriggeredRule>> {
    [CriticalBreak(ctx), FailureOnPassingBaseline(ctx)]
  }

  function Fired(results: seq<Option<TriggeredRule>>): (rules: seq<TriggeredRule>)
    ensures forall t :: t in rules <==> Some(t) in results
  {
    if results == [] then []
    else
      var last := |results| - 1;
      assert results == results[..last] + [results[last]];
      Fired(results[..last]) + if results[last].Some? then [results[last].value] else []
  }

  // ---------- totals ----------

  function RawTotal(rules: seq<TriggeredRule>, category: Category): int {
    if rules == [] then 0
    else
      var last := |rules| - 1;
      RawTotal(rules[..last], category) + if rules[last].category == category then rules[last].scoreDelta else 0
  }

  function ContributionOf(rules: seq<TriggeredRule>, category: Category): Contribution {
    var raw := RawTotal(rules, category);
    Contribution(category, raw, Min(raw, CapOf(category)), CapOf(category))
  }

  function CappedSum(contributions: seq<Contribution>): int {
    if contributions == [] then 0
    else CappedSum(contributions[..|contributions| - 1]) + contributions[|contributions| - 1].cappedTotal
  }

  function Decide(score: int, hardBlock: bool): Decision {
    if hardBlock then Block
    else if score <= PASS_MAX then Pass
    else if score <= WARN_MAX then Warn
    else Block
  }

  function If(condition: bool, points: int): int { if condition then points else 0 }

  /** What each piece of evidence is worth, category by category. */
  function Points(ctx: Context, category: Category): int {
    match category
    case Compatibility => If(ctx.compatibilityStatus == Some(StatusBreaking) || ctx.breakingCount > 0, 30)
    case Replay => If(ctx.newFailures > 0, Min(15 * ctx.newFailures, 45))
    case DifferentialEvidence =>
      If(ctx.hasRemovedRequiredStep, 20) + If(ctx.schemaChanges > 0, 20)
      + If(ctx.toolInvocationChanged, 10) + If(ctx.errorIntroduced, 15)
    case BlastRadiusEvidence =>
      If(ctx.blastRadiusTotal.Some? && ctx.blastRadiusTotal.value >= BLAST_RADIUS_MODERATE, 10)
      + If(ctx.blastRadiusTotal.Some? && ctx.blastRadiusTotal.value >= BLAST_RADIUS_HIGH, 10)
    case Latency => If(ctx.maxLatencyPercentDelta.Some? && ctx.maxLatencyPercentDelta.value >= LATENCY_SIGNIFICANT_PERCENT, 10)
  }

  function Capped(ctx: Context, category: Category): int { Min(Points(ctx, category), CapOf(category)) }

  /** The score in closed form. */
  function Score(ctx: Context): int {
    Min(Capped(ctx, Compatibility) + Capped(ctx, Replay) + Capped(ctx, DifferentialEvidence)
        + Capped(ctx, BlastRadiusEvidence) + Capped(ctx, Latency), MAX_SCORE)
  }

  predicate HardBlocked(ctx: Context) { ctx.criticalCount > 0 || ctx.newFailures > 0 }

  // ---------- the engine ----------

  method CollectFired(results: seq<Option<TriggeredRule>>) returns (rules: seq<TriggeredRule>)
    ensures rules == Fired(results)
  {
    rules := [];
    for i := 0 to |results|
      invariant rules == Fired(results[..i])
    {
      assert results[..i + 1][..i] == results[..i];
      if results[i].Some? { rules := rules + [results[i].value]; }
    }
    assert results[..|results|] == results;
  }

  method Total(rules: seq<TriggeredRule>, category: Category) returns (total: int)
    ensures total == RawTotal(rules, category)
  {
    total := 0;
    for i := 0 to |rules|
      invariant total == RawTotal(rules[..i], category)
    {
      assert rules[..i + 1][..i] == rules[..i];
      if rules[i].category == category { total := total + rules[i].scoreDelta; }
    }
    assert rules[..|rules|] == rules;
  }

  function Contributions(rules: seq<TriggeredRule>): (r: seq<Contribution>)
    ensures |r| == |CATEGORIES|
  {
    seq(|CATEGORIES|, i requires 0 <= i < |CATEGORIES| => ContributionOf(rules, CATEGORIES[i]))
  }

  method Evaluate(ctx: Context) returns (a: Assessment)
    ensures a.rules == Fired(ScoreResults(ctx)) + Fired(HardBlockResults(ctx))
    ensures a.contributions == Contributions(Fired(ScoreResults(ctx)))
    ensures a.score == Min(CappedSum(a.contributions), MAX_SCORE)
    ensures a.score == Score(ctx) && a.hardBlock == HardBlocked(ctx) && a.decision == Decide(Score(ctx), HardBlocked(ctx))
  {
    ClosedForm(ctx);
    HardBlocksFire(ctx);
    hide Fired, ScoreResults, HardBlockResults, RawTotal, Score, HardBlocked, Decide, CapOf;
    var triggered := CollectFired(ScoreResults(ctx));
    var blocking := CollectFired(HardBlockResults(ctx));
    var contributions: seq<Contribution> := [];
    var capped := 0;
    for i := 0 to |CATEGORIES|
      invariant contributions == Contributions(triggered)[..i] && capped == CappedSum(contributions)
    {
      var category := CATEGORIES[i];
      var raw := Total(triggered, category);
      var part := Contribution(category, raw, Min(raw, CapOf(category)), CapOf(category));
      contributions := contributions + [part];
      assert contributions[..i] == Contributions(triggered)[..i];
      capped := capped + part.cappedTotal;
    }
    var score := Min(capped, MAX_SCORE);
    a := Assessment(Decide(score, |blocking| > 0), score, |blocking| > 0, triggered + blocking, contributions);
  }

  lemma HardBlocksFire(ctx: Context)
    ensures |Fired(HardBlockResults(ctx))| > 0 <==> HardBlocked(ctx)
  {
    var results := HardBlockResults(ctx);
    assert Fired(results[..1]) == if ctx.criticalCount > 0 then [results[0].value] else [] by {
      assert results[..1][..0] == [];
    }
  }

  lemma {:induction false} RawTotalOfResults(results: seq<Option<TriggeredRule>>, category: Category)
    ensures RawTotal(Fired(results), category) == ResultPoints(results, category)
  {
    if results != [] {
      var last := |results| - 1;
      RawTotalOfResults(results[..last], category);
      var front := Fired(results[..last]);
      if results[last].Some? {
        assert (front + [results[last].value])[..|front|] == front;
      } else {
        assert Fired(results) == front;
      }
    }
  }

  function ResultPoints(results: seq<Option<TriggeredRule>>, category: Category): int {
    if results == [] then 0
    else ResultPoints(results[..|results| - 1], category) + Worth(results[|results| - 1], category)
  }

  function Worth(r: Option<TriggeredRule>, category: Category): int {
    if r.Some? && r.value.category == category then r.value.scoreDelta else 0
  }

  lemma EightResults(r: seq<Option<TriggeredRule>>, category: Category)
    requires |r| == 8
    ensures ResultPoints(r, category) ==
      Worth(r[0], category) + Worth(r[1], category) + Worth(r[2], category) + Worth(r[3], category)
      + Worth(r[4], category) + Worth(r[5], category) + Worth(r[6], category) + Worth(r[7], category)
  {
    assert r[..1][..0] == [] && r[..2][..1] == r[..1] && r[..3][..2] == r[..2] && r[..4][..3] == r[..3];
    assert r[..5][..4] == r[..4] && r[..6][..5] == r[..5] && r[..7][..6] == r[..6] && r[..8] == r;
    assert ResultPoints(r[..1], category) == Worth(r[0], category);
    assert ResultPoints(r[..2], category) == ResultPoints(r[..1], category) + Worth(r[1], category);
    assert ResultPoints(r[..3], category) == ResultPoints(r[..2], category) + Worth(r[2], category);
    assert ResultPoints(r[..4], category) == ResultPoints(r[..3], category) + Worth(r[3], category);
    assert ResultPoints(r[..5], category) == ResultPoints(r[..4], category) + Worth(r[4], category);
    assert ResultPoints(r[..6], category) == ResultPoints(r[..5], category) + Worth(r[5], category);
    assert ResultPoints(r[..7], category) == ResultPoints(r[..6], category) + Worth(r[6], category);
  }

  lemma RuleWorths(ctx: Context, category: Category)
    ensures Worth(CompatBreaking(ctx), category) == if category.Compatibility? then Points(ctx, category) else 0
    ensures Worth(ReplayFailure(ctx), category) == if category.Replay? then Points(ctx, category) else 0
    ensures Worth(BlastRadiusHigh(ctx), category) == if category.BlastRadiusEvidence? then Points(ctx, category) else 0
    ensures Worth(LatencyRegression(ctx), category) == if category.Latency? then Points(ctx, category) else 0
  {
    hide Min;
  }

  lemma DifferentialWorths(ctx: Context, category: Category)
    ensures Worth(RemovedRequired(ctx), category) + Worth(OutputBreak(ctx), category)
          + Worth(ToolChange(ctx), category) + Worth(ErrorAppears(ctx), category)
         == if category.DifferentialEvidence? then Points(ctx, category) else 0
  {
    hide Min;
  }

  /** The rules that fire in a category are worth exactly the evidence in it. */
  lemma RulesWorthEvidence(ctx: Context, category: Category)
    ensures RawTotal(Fired(ScoreResults(ctx)), category) == Points(ctx, category)
  {
    hide ResultPoints, RawTotal, Fired, Worth, Points, CompatBreaking, ReplayFailure, RemovedRequired, BlastRadiusHigh,
         OutputBreak, ToolChange, ErrorAppears, LatencyRegression;
    var r := ScoreResults(ctx);
    RawTotalOfResults(r, category);
    EightResults(r, category);
    RuleWorths(ctx, category);
    DifferentialWorths(ctx, category);
  }

  lemma ClosedForm(ctx: Context)
    ensures Min(CappedSum(Contributions(Fired(ScoreResults(ctx)))), MAX_SCORE) == Score(ctx)
  {
    var c := Contributions(Fired(ScoreResults(ctx)));
    RulesWorthEvidence(ctx, Compatibility);
    RulesWorthEvidence(ctx, Replay);
    RulesWorthEvidence(ctx, DifferentialEvidence);
    RulesWorthEvidence(ctx, BlastRadiusEvidence);
    RulesWorthEvidence(ctx, Latency);
    hide RawTotal, Fired, ScoreResults, Points;
    FiveContributions(c);
  }

  lemma FiveContributions(c: seq<Contribution>)
    requires |c| == 5
    ensures CappedSum(c) == c[0].cappedTotal + c[1].cappedTotal + c[2].cappedTotal + c[3].cappedTotal + c[4].cappedTotal
  {
    assert c[..5] == c && c[..4] == c[..5][..4] && c[..3] == c[..4][..3] && c[..2] == c[..3][..2] && c[..1] == c[..2][..1];
    assert CappedSum(c[..1]) == c[0].cappedTotal;
    assert CappedSum(c[..2]) == CappedSum(c[..1]) + c[1].cappedTotal;
    assert CappedSum(c[..3]) == CappedSum(c[..2]) + c[2].cappedTotal;
    assert CappedSum(c[..4]) == CappedSum(c[..3]) + c[3].cappedTotal;
  }

  // ---------- bounded and monotone ----------

  predicate NoMore<T>(le: (T, T) -> bool, a: Option<T>, b: Option<T>) { a.None? || (b.Some? && le(a.value, b.value)) }

  function StatusRank(s: Option<CompatibilityStatus>): int {
    match s
    case None => 0
    case Some(StatusCompatible) => 1
    case Some(StatusWarning) => 2
    case Some(StatusBreaking) => 3
  }

  /** Every field of `b` says at least as much as the same field of `a`. */
  predicate NoWorse(a: Context, b: Context) {
    && StatusRank(a.compatibilityStatus) <= StatusRank(b.compatibilityStatus)
    && a.breakingCount <= b.breakingCount && a.criticalCount <= b.criticalCount
    && a.newFailures <= b.newFailures && a.schemaChanges <= b.schemaChanges
    && (a.hasRemovedRequiredStep ==> b.hasRemovedRequiredStep)
    && (a.toolInvocationChanged ==> b.toolInvocationChanged)
    && (a.errorIntroduced ==> b.errorIntroduced)
    && NoMore((x: real, y: real) => x <= y, a.maxLatencyPercentDelta, b.maxLatencyPercentDelta)
    && NoMore((x: int, y: int) => x <= y, a.blastRadiusTotal, b.blastRadiusTotal)
  }

  function DecisionRank(d: Decision): int { match d case Pass => 0 case Warn => 1 case Block => 2 }

  lemma PointsMonotone(a: Context, b: Context, category: Category)
    requires NoWorse(a, b)
    ensures 0 <= Points(a, category) <= Points(b, category)
  {
  }

  /** More evidence never lowers the score, never lifts a hard block, never softens the decision. */
  lemma RiskIsMonotone(a: Context, b: Context)
    requires NoWorse(a, b)
    ensures 0 <= Score(a) <= Score(b) <= 100
    ensures HardBlocked(a) ==> HardBlocked(b)
    ensures DecisionRank(Decide(Score(a), HardBlocked(a))) <= DecisionRank(Decide(Score(b), HardBlocked(b)))
  {
    ScoreIsMonotone(a, b);
    hide Score, NoMore;
    DecisionsFollowScores(Score(a), Score(b), HardBlocked(a), HardBlocked(b));
  }

  lemma ScoreIsMonotone(a: Context, b: Context)
    requires NoWorse(a, b)
    ensures 0 <= Score(a) <= Score(b) <= 100
  {
    hide NoWorse, Capped;
    CappedMonotone(a, b, Compatibility);
    CappedMonotone(a, b, Replay);
    CappedMonotone(a, b, DifferentialEvidence);
    CappedMonotone(a, b, BlastRadiusEvidence);
    CappedMonotone(a, b, Latency);
  }

  lemma CappedMonotone(a: Context, b: Context, category: Category)
    requires NoWorse(a, b)
    ensures 0 <= Capped(a, category) <= Capped(b, category)
  {
    hide NoWorse, Points;
    PointsMonotone(a, b, category);
  }

  lemma DecisionsFollowScores(s: int, t: int, blockedFirst: bool, blockedThen: bool)
    requires s <= t && (blockedFirst ==> blockedThen)
    ensures DecisionRank(Decide(s, blockedFirst)) <= DecisionRank(Decide(t, blockedThen))
  {
  }

  /** Of the category caps only the differential one can bind. */
  lemma CapsThatBind(ctx: Context)
    ensures forall category :: category != DifferentialEvidence ==> Capped(ctx, category) == Points(ctx, category)
    ensures Points(ctx, DifferentialEvidence) > Capped(ctx, DifferentialEvidence) <==>
      ctx.hasRemovedRequiredStep && ctx.schemaChanges > 0 && ctx.errorIntroduced
  {
  }

  /** With no evidence at all: score 0, PASS, no hard block; and only then is the score 0. */
  lemma NoEvidencePasses(ctx: Context)
    ensures Score(ctx) == 0 <==>
      && ctx.compatibilityStatus != Some(StatusBreaking) && ctx.breakingCount <= 0 && ctx.newFailures <= 0
      && !ctx.hasRemovedRequiredStep && ctx.schemaChanges <= 0 && !ctx.toolInvocationChanged && !ctx.errorIntroduced
      && (ctx.blastRadiusTotal.Some? ==> ctx.blastRadiusTotal.value < BLAST_RADIUS_MODERATE)
      && (ctx.maxLatencyPercentDelta.Some? ==> ctx.maxLatencyPercentDelta.value < LATENCY_SIGNIFICANT_PERCENT)
  {
  }

  /** The decision bands: a hard block decides alone; otherwise up to 29 passes, 30 to 69 warns, 70 and more blocks. */
  lemma DecisionBands(score: int, hardBlock: bool)
    ensures Decide(score, hardBlock).Block? <==> hardBlock || score >= 70
    ensures Decide(score, hardBlock).Warn? <==> !hardBlock && 30 <= score <= 69
    ensures Decide(score, hardBlock).Pass? <==> !hardBlock && score <= 29
  {
  }

  /** The five contributions of an assessment, in order, each its evidence's worth under its own cap. */
  lemma ContributionsExactly(ctx: Context)
    ensures var c := Contributions(Fired(ScoreResults(ctx)));
      && |c| == 5
      && c[0] == Contribution(Compatibility, Points(ctx, Compatibility), Min(Points(ctx, Compatibility), 40), 40)
      && c[1] == Contribution(Replay, Points(ctx, Replay), Min(Points(ctx, Replay), 45), 45)
      && c[2] == Contribution(DifferentialEvidence, Points(ctx, DifferentialEvidence), Min(Points(ctx, DifferentialEvidence), 50), 50)
      && c[3] == Contribution(BlastRadiusEvidence, Points(ctx, BlastRadiusEvidence), Min(Points(ctx, BlastRadiusEvidence), 20), 20)
      && c[4] == Contribution(Latency, Points(ctx, Latency), Min(Points(ctx, Latency), 15), 15)
  {
    RulesWorthEvidence(ctx, Compatibility);
    RulesWorthEvidence(ctx, Replay);
    RulesWorthEvidence(ctx, DifferentialEvidence);
    RulesWorthEvidence(ctx, BlastRadiusEvidence);
    RulesWorthEvidence(ctx, Latency);
    hide RawTotal, Fired, ScoreResults, Points, Min;
  }

  // ---------- which rules an assessment lists ----------

  /** What makes a rule fire. */
  predicate Triggers(rule: RuleId, ctx: Context) {
    match rule
    case CompatBreakingChange => ctx.compatibilityStatus == Some(StatusBreaking) || ctx.breakingCount > 0
    case NewReplayFailure => ctx.newFailures > 0
    case RemovedRequiredStep => ctx.hasRemovedRequiredStep
    case HighBlastRadius => ctx.blastRadiusTotal.Some? && ctx.blastRadiusTotal.value >= 3
    case OutputSchemaBreak => ctx.schemaChanges > 0
    case ToolInvocationChange => ctx.toolInvocationChanged
    case ErrorIntroducedRule => ctx.errorIntroduced
    case SignificantLatencyIncrease => ctx.maxLatencyPercentDelta.Some? && ctx.maxLatencyPercentDelta.value >= 50.0
    case HardBlockCriticalCompatBreak => ctx.criticalCount > 0
    case HardBlockNewReplayFailure => ctx.newFailures > 0
  }

  /** The place of a rule in the rule set, the hard blocks last. */
  function RuleRank(rule: RuleId): (n: nat)
    ensures n < 10
  {
    match rule
    case CompatBreakingChange => 0 case NewReplayFailure => 1 case RemovedRequiredStep => 2 case HighBlastRadius => 3
    case OutputSchemaBreak => 4 case ToolInvocationChange => 5 case ErrorIntroducedRule => 6
    case SignificantLatencyIncrease => 7 case HardBlockCriticalCompatBreak => 8 case HardBlockNewReplayFailure => 9
  }

  ghost predicate RanksAscend(rules: seq<TriggeredRule>) {
    forall i, j :: 0 <= i < j < |rules| ==> RuleRank(rules[i].rule) < RuleRank(rules[j].rule)
  }

  ghost predicate RankedFrom(results: seq<Option<TriggeredRule>>, base: nat) {
    forall i :: 0 <= i < |results| && results[i].Some? ==> RuleRank(results[i].value.rule) == base + i
  }

  lemma {:induction false} FiredAscend(results: seq<Option<TriggeredRule>>, base: nat)
    requires RankedFrom(results, base)
    ensures RanksAscend(Fired(results))
    ensures forall t :: t in Fired(results) ==> base <= RuleRank(t.rule) < base + |results|
  {
    hide RuleRank;
    if results != [] {
      var last := |results| - 1;
      FiredAscend(results[..last], base);
      var front := Fired(results[..last]);
      assert forall i :: 0 <= i < |front| ==> front[i] in front;
    }
  }

  function AllResults(ctx: Context): (r: seq<Option<TriggeredRule>>)
    ensures |r| == 10
  {
    ScoreResults(ctx) + HardBlockResults(ctx)
  }

  /** A rule's own result stands at its place. */
  lemma ResultAt(ctx: Context, rule: RuleId)
    ensures var r := AllResults(ctx)[RuleRank(rule)];
      (r.Some? <==> Triggers(rule, ctx)) && (r.Some? ==> r.value.rule == rule)
  {
    hide Min;
    var r := AllResults(ctx);
    match rule
    case CompatBreakingChange => assert r[0] == CompatBreaking(ctx);
    case NewReplayFailure => assert r[1] == ReplayFailure(ctx);
    case RemovedRequiredStep => assert r[2] == RemovedRequired(ctx);
    case HighBlastRadius => assert r[3] == BlastRadiusHigh(ctx);
    case OutputSchemaBreak => assert r[4] == OutputBreak(ctx);
    case ToolInvocationChange => assert r[5] == ToolChange(ctx);
    case ErrorIntroducedRule => assert r[6] == ErrorAppears(ctx);
    case SignificantLatencyIncrease => assert r[7] == LatencyRegression(ctx);
    case HardBlockCriticalCompatBreak => assert r[8] == CriticalBreak(ctx);
    case HardBlockNewReplayFailure => assert r[9] == FailureOnPassingBaseline(ctx);
  }

  function RuleOfRank(i: nat): (rule: RuleId)
    requires i < 10
    ensures RuleRank(rule) == i
  {
    if i == 0 then CompatBreakingChange else if i == 1 then NewReplayFailure else if i == 2 then RemovedRequiredStep
    else if i == 3 then HighBlastRadius else if i == 4 then OutputSchemaBreak else if i == 5 then ToolInvocationChange
    else if i == 6 then ErrorIntroducedRule else if i == 7 then SignificantLatencyIncrease
    else if i == 8 then HardBlockCriticalCompatBreak else HardBlockNewReplayFailure
  }

  lemma {:induction false} FiredConcat(a: seq<Option<TriggeredRule>>, b: seq<Option<TriggeredRule>>)
    ensures Fired(a + b) == Fired(a) + Fired(b)
  {
    if b == [] {
      assert a + b == a;
    } else {
      var last := |b| - 1;
      assert (a + b)[..|a + b| - 1] == a + b[..last];
      FiredConcat(a, b[..last]);
    }
  }

  /** The rules an assessment lists: each exactly when its evidence is there, and in the order of the rule set. */
  lemma RulesExactly(ctx: Context, rule: RuleId)
    ensures var rules := Fired(ScoreResults(ctx)) + Fired(HardBlockResults(ctx));
      && RanksAscend(rules)
      && ((exists t :: t in rules && t.rule == rule) <==> Triggers(rule, ctx))
  {
    FiredConcat(ScoreResults(ctx), HardBlockResults(ctx));
    hide Triggers, RuleRank, Fired, ScoreResults, HardBlockResults;
    var all := AllResults(ctx);
    forall i | 0 <= i < |all| && all[i].Some? ensures RuleRank(all[i].value.rule) == i { ResultAt(ctx, RuleOfRank(i)); }
    FiredAscend(all, 0);
    ResultAt(ctx, rule);
    var own := all[RuleRank(rule)];
    assert own in all;
    if t :| t in Fired(all) && t.rule == rule {
      var i :| 0 <= i < |all| && all[i] == Some(t);
      assert RuleRank(t.rule) == i;
    }
  }
}
