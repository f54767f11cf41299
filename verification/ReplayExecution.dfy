/** One replay run: its row, the executor loop over the plan, and what a finished run records. */
module ReplayExecution {
  import opened JsonValues
  import opened Options
  import opened Ordering
  import opened ReplayModel
  import opened ReplayPlanner

  datatype ReplayStatus = ReplayPending | ReplayRunning | ReplayCompleted | ReplayFailed

  predicate IsValidTransition(current: ReplayStatus, target: ReplayStatus) {
    || (current.ReplayPending? && (target.ReplayRunning? || target.ReplayFailed?))
    || (current.ReplayRunning? && (target.ReplayCompleted? || target.ReplayFailed?))
  }

  predicate IsTerminal(status: ReplayStatus) { status.ReplayCompleted? || status.ReplayFailed? }

  /** What trying one substituted step gives: no executor for its event type, an exception, or an outcome. */
  datatype Attempt =
    | NoExecutor
    | Raised
    | Ran(executed: bool, output: Json, error: Json, durationMs: Option<int>)

  datatype CallResult = InvalidTransition | ExecutorUnavailable | ExecutionFailed | Finished

  datatype RunRow = RunRow(status: ReplayStatus, steps: seq<ReplayStep>)

  function StatusOf(kind: StepKind): StepStatus
    requires !kind.SubstitutedExecution?
  {
    match kind
    case ReusedEvidence => Reused
    case ProviderExecutionRequired => ProviderRequired
    case SkippedStep => Skipped
  }

  /** A step that runs nothing: only reused evidence keeps its historical output. */
  function FinalizedStep(p: PlanStep, id: Id): ReplayStep
    requires !p.kind.SubstitutedExecution?
  {
    ReplayStep(id, p.sequenceNumber, p.sourceEventId, p.kind, StatusOf(p.kind), p.componentId, p.executionVersionId,
               p.input, if p.kind.ReusedEvidence? then p.output else JNull, JNull, None)
  }

  function ExecutedStep(p: PlanStep, a: Attempt, id: Id): ReplayStep
    requires a.Ran?
  {
    ReplayStep(id, p.sequenceNumber, p.sourceEventId, p.kind, if a.executed then Executed else Failed,
               p.componentId, p.executionVersionId, p.input, a.output, a.error, a.durationMs)
  }

  /** The loop does not get past this step. */
  predicate Stops(p: PlanStep, a: Attempt) { p.kind.SubstitutedExecution? && !(a.Ran? && a.executed) }

  /** The step leaves a row. */
  predicate Leaves(p: PlanStep, a: Attempt) { p.kind.SubstitutedExecution? ==> a.Ran? }

  function StepFor(p: PlanStep, a: Attempt, id: Id): ReplayStep
    requires Leaves(p, a)
  {
    if p.kind.SubstitutedExecution? then ExecutedStep(p, a, id) else FinalizedStep(p, id)
  }

  type Executors = PlanStep -> Attempt

  /** The index of the first step the loop does not get past, or the length of the plan. */
  function FirstStop(plan: seq<PlanStep>, run: Executors): (k: nat)
    ensures k <= |plan|
    ensures forall i :: 0 <= i < k ==> !Stops(plan[i], run(plan[i]))
    ensures k < |plan| ==> Stops(plan[k], run(plan[k]))
  {
    if plan == [] || Stops(plan[0], run(plan[0])) then 0 else 1 + FirstStop(plan[1..], run)
  }

  function Evidence(plan: seq<PlanStep>, run: Executors, k: nat, firstId: Id): (steps: seq<ReplayStep>)
    requires k <= |plan| && forall i :: 0 <= i < k ==> Leaves(plan[i], run(plan[i]))
    ensures |steps| == k
  {
    seq(k, i requires 0 <= i < k => StepFor(plan[i], run(plan[i]), firstId + i))
  }

  /** The row an undisturbed execution leaves: everything up to the first stop, whose own step is
      kept only when the candidate was really invoked. */
  function Conclusion(plan: seq<PlanStep>, run: Executors, firstId: Id): RunRow {
    var k := FirstStop(plan, run);
    if k == |plan| then RunRow(ReplayCompleted, Evidence(plan, run, k, firstId))
    else RunRow(ReplayFailed, Evidence(plan, run, if run(plan[k]).Ran? then k + 1 else k, firstId))
  }

  function ResultOf(plan: seq<PlanStep>, run: Executors): CallResult {
    var k := FirstStop(plan, run);
    if k == |plan| then Finished
    else if run(plan[k]).NoExecutor? then ExecutorUnavailable
    else if run(plan[k]).Raised? then ExecutionFailed
    else Finished
  }

  predicate StepBySequence(a: PlanStep, b: PlanStep) { a.sequenceNumber <= b.sequenceNumber }

  function SortedPlan(plan: seq<PlanStep>): seq<PlanStep> { StableSort(StepBySequence, plan) }

  /** Sorting a stored plan again changes nothing. */
  lemma {:induction false} StoredPlanIsSorted(plan: seq<PlanStep>)
    requires InOrder(plan)
    ensures SortedPlan(plan) == plan
  {
    if plan != [] {
      StoredPlanIsSorted(plan[1..]);
      assert plan == [plan[0]] + plan[1..];
    }
  }

  // ---------- what a finished run records ----------

  predicate Records(p: PlanStep, s: ReplayStep) {
    && s.sequenceNumber == p.sequenceNumber && s.sourceEventId == p.sourceEventId && s.kind == p.kind
    && s.componentId == p.componentId && s.componentVersionId == p.executionVersionId && s.input == p.input
    && (p.kind.SubstitutedExecution? ==> s.status.Executed? || s.status.Failed?)
    && (p.kind.ReusedEvidence? ==> s.status.Reused? && s.output == p.output)
    && (p.kind.ProviderExecutionRequired? ==> s.status.ProviderRequired? && s.output == JNull)
    && (p.kind.SkippedStep? ==> s.status.Skipped? && s.output == JNull)
    && (!p.kind.SubstitutedExecution? ==> s.error == JNull && s.durationMs == None)
  }

  /** Steps record the beginning of the plan, in order; only the last can have failed. */
  ghost predicate RecordsPrefix(plan: seq<PlanStep>, steps: seq<ReplayStep>) {
    && |steps| <= |plan|
    && (forall i :: 0 <= i < |steps| ==> Records(plan[i], steps[i]))
    && (forall i :: 0 <= i < |steps| - 1 ==> !steps[i].status.Failed?)
  }

  ghost predicate EndsFailed(steps: seq<ReplayStep>) { steps != [] && steps[|steps| - 1].status.Failed? }

  ghost predicate DistinctIds(steps: seq<ReplayStep>) {
    forall i, j :: 0 <= i < j < |steps| ==> steps[i].id != steps[j].id
  }

  /** Completed exactly when the whole plan is recorded and no step failed. */
  ghost predicate Concluded(plan: seq<PlanStep>, row: RunRow) {
    && RecordsPrefix(plan, row.steps) && DistinctIds(row.steps) && IsTerminal(row.status)
    && (row.status.ReplayCompleted? <==> |row.steps| == |plan| && !EndsFailed(row.steps))
  }

  lemma ConclusionConcludes(plan: seq<PlanStep>, run: Executors, firstId: Id)
    ensures Concluded(plan, Conclusion(plan, run, firstId))
  {
    var k := FirstStop(plan, run);
    var row := Conclusion(plan, run, firstId);
    assert forall i :: 0 <= i < |row.steps| ==> row.steps[i] == StepFor(plan[i], run(plan[i]), firstId + i);
    hide FirstStop, Conclusion, Evidence;
    if k < |plan| && run(plan[k]).Ran? { assert row.steps[k].status.Failed?; }
  }

  /** The recorded step shows what the executor answered, field by field. */
  predicate ShowsAttempt(s: ReplayStep, a: Attempt) {
    && a.Ran? && s.output == a.output && s.error == a.error && s.durationMs == a.durationMs
    && (if a.executed then s.status.Executed? else s.status.Failed?)
  }

  /** Every step that was really run shows its own executor's answer: all substituted steps recorded, and when the run
      stopped at a step whose executor answered, that step too. */
  lemma ConclusionShowsAttempts(plan: seq<PlanStep>, run: Executors, firstId: Id)
    ensures var k, steps := FirstStop(plan, run), Conclusion(plan, run, firstId).steps;
      && |steps| == (if k < |plan| && run(plan[k]).Ran? then k + 1 else k)
      && (forall i :: 0 <= i < |steps| && plan[i].kind.SubstitutedExecution? ==> ShowsAttempt(steps[i], run(plan[i])))
  {
    var row := Conclusion(plan, run, firstId);
    assert forall i :: 0 <= i < |row.steps| ==> row.steps[i] == StepFor(plan[i], run(plan[i]), firstId + i);
    hide FirstStop, Conclusion, Evidence;
  }

  // ---------- the executor loop ----------

  /** The loop over the plan: what it adds, and how the call ends. */
  method RunPlan(ordered: seq<PlanStep>, run: Executors, firstId: Id)
    returns (status: ReplayStatus, steps: seq<ReplayStep>, result: CallResult)
    ensures RunRow(status, steps) == Conclusion(ordered, run, firstId) && result == ResultOf(ordered, run)
    ensures |steps| <= |ordered|
    ensures forall i :: 0 <= i < |steps| && ordered[i].kind.SubstitutedExecution? ==> ShowsAttempt(steps[i], run(ordered[i]))
  {
    ConclusionShowsAttempts(ordered, run, firstId);
    hide FirstStop;
    ghost var stop := FirstStop(ordered, run);
    var failed := false;
    steps := [];
    for i := 0 to |ordered|
      invariant i <= stop && !failed && steps == Evidence(ordered, run, i, firstId)
    {
      var p := ordered[i];
      if !p.kind.SubstitutedExecution? {
        steps := steps + [FinalizedStep(p, firstId + i)];
        continue;
      }
      var attempt := run(p);
      if attempt.NoExecutor? { return ReplayFailed, steps, ExecutorUnavailable; }
      if attempt.Raised? { return ReplayFailed, steps, ExecutionFailed; }
      steps := steps + [ExecutedStep(p, attempt, firstId + i)];
      if !attempt.executed {
        failed := true;
        break;
      }
    }
    status := if failed then ReplayFailed else ReplayCompleted;
    result := Finished;
  }

  /** A replay run whose row one caller updates in place. */
  class ReplayRun {
    const plan: seq<PlanStep>
    var status: ReplayStatus
    var steps: seq<ReplayStep>
    var nextId: Id

    constructor (plan: seq<PlanStep>)
      ensures this.plan == plan && status.ReplayPending? && steps == [] && nextId == 0 && Valid()
    {
      this.plan := plan;
      status, steps, nextId := ReplayPending, [], 0;
    }

    ghost predicate Valid()
      reads this
    {
      if IsTerminal(status) then Concluded(SortedPlan(plan), RunRow(status, steps))
      else status.ReplayPending? && steps == []
    }

    method TransitionStatus(from: ReplayStatus, to: ReplayStatus) returns (applied: bool)
      modifies this`status
      ensures applied == (old(status) == from) && status == if applied then to else old(status)
    {
      applied := status == from;
      if applied { status := to; }
    }

    method Execute(run: Executors) returns (result: CallResult)
      requires Valid()
      modifies this
      ensures Valid()
      ensures old(status).ReplayPending? ==>
        RunRow(status, steps) == Conclusion(SortedPlan(plan), run, old(nextId)) && result == ResultOf(SortedPlan(plan), run)
      ensures !old(status).ReplayPending? ==> result.InvalidTransition? && status == old(status) && steps == old(steps)
    {
      hide SortedPlan, Conclusion, RecordsPrefix, DistinctIds, EndsFailed, ResultOf;
      if !IsValidTransition(status, ReplayRunning) { return InvalidTransition; }
      var applied := TransitionStatus(ReplayPending, ReplayRunning);
      if !applied { return InvalidTransition; }
      ConclusionConcludes(SortedPlan(plan), run, nextId);
      var ending, evidence, outcome := RunPlan(SortedPlan(plan), run, nextId);
      steps, nextId := evidence, nextId + |evidence|;
      var ended := TransitionStatus(ReplayRunning, ending);
      result := outcome;
    }
  }
}
