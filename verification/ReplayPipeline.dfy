/** From recording to comparison: completed replays of one completed trajectory always line up. */
module ReplayPipeline {
  import opened JsonValues
  import opened Options
  import opened Ordering
  import opened ReplayModel
  import opened ReplayPlanner
  import opened ReplayExecution
  import opened Alignment
  import opened AlignmentFacts
  import opened AlignmentTheorems
  import opened AlignmentSymmetry
  import opened Differential
  import opened DifferentialFacts
  import Trajectories = TrajectoryRuns
  import Store = TrajectoryStore
  import Callers = ReplayRuns

  lemma {:induction false} RecordedOrder(events: seq<Event>, from: int)
    requires forall i :: 0 <= i < |events| ==> events[i].sequenceNumber == from + i
    ensures Ordered(events) == events
  {
    if events != [] {
      RecordedOrder(events[1..], from + 1);
      assert Ordered(events) == InsertSorted(BySequence, events[0], events[1..]);
      assert events == [events[0]] + events[1..];
    }
  }

  /** What create_replay stores: it insists on a completed trajectory and a plan with a substitution. */
  function CreatedPlan(row: Store.Trajectory, sub: Substitution): Option<seq<PlanStep>> {
    if row.status.TrajectoryCompleted? then Plan(row.events, sub) else None
  }

  /** The steps of a completed run follow the recorded events one for one. */
  ghost predicate Follows(steps: seq<ReplayStep>, events: seq<Event>) {
    && |steps| == |events|
    && (forall i :: 0 <= i < |steps| ==> steps[i].sourceEventId == events[i].id && steps[i].sequenceNumber == events[i].sequenceNumber)
  }

  lemma CompletedFollows(row: Store.Trajectory, sub: Substitution, run: RunRow)
    requires Store.Numbered(row) && CreatedPlan(row, sub).Some?
    requires Concluded(SortedPlan(CreatedPlan(row, sub).value), run) && run.status.ReplayCompleted?
    ensures Follows(run.steps, row.events) && UniqueIds(run.steps)
  {
    var plan := PlanSteps(row.events, sub);
    PlanCovers(row.events, sub);
    StoredPlanIsSorted(plan);
    RecordedOrder(row.events, 1);
    hide SortedPlan, Ordered, KindAt, Store.Numbered, EndsFailed;
    forall i | 0 <= i < |run.steps|
      ensures run.steps[i].sourceEventId == row.events[i].id && run.steps[i].sequenceNumber == row.events[i].sequenceNumber
    {
      assert Records(plan[i], run.steps[i]);
      assert plan[i] == PlanStepAt(row.events, i, sub);
    }
  }

  lemma FollowersMatch(b: seq<ReplayStep>, c: seq<ReplayStep>, events: seq<Event>)
    requires Follows(b, events) && Follows(c, events) && Store.Distinct(events)
    ensures UniqueKey(EventKey, b) && SameEvents(b, c)
  {
    forall x, y | x in b && y in b && EventKey(x) == EventKey(y) ensures x == y {
      var i :| 0 <= i < |b| && b[i] == x;
      var j :| 0 <= j < |b| && b[j] == y;
    }
    forall x | x in b ensures Replays(x.sourceEventId, c) {
      var i :| 0 <= i < |b| && b[i] == x;
      assert c[i] in c;
    }
    forall y | y in c ensures Replays(y.sourceEventId, b) {
      var i :| 0 <= i < |c| && c[i] == y;
      assert b[i] in b;
    }
  }

  /** Two runs that follow the same events: nothing added, nothing removed. */
  lemma FollowersCompare(b: seq<ReplayStep>, c: seq<ReplayStep>, events: seq<Event>, readers: Readers)
    requires Follows(b, events) && Follows(c, events) && Store.Distinct(events) && UniqueIds(b) && UniqueIds(c)
    ensures forall p :: p in Align(b, c) ==>
      Joins(p, BySourceEvent) && p.baseline.value.sourceEventId == p.candidate.value.sourceEventId
    ensures var s := Analysis(b, c, readers).summary; s.added == 0 && s.removed == 0 && s.matched == |events|
  {
    FollowersMatch(b, c, events);
    FollowersMatch(c, b, events);
    hide Follows, Store.Distinct, UniqueIds, UniqueKey, SameEvents, Align;
    SameEventsAlignOneToOne(b, c);
    Conservation(b, c, readers);
    hide SummaryOf, DiffPair;
    var pairs := Align(b, c);
    AllMatched(pairs, readers);
    CountPairs(IsMatched, IsJoined, pairs, readers);
    CountAll(IsJoined, pairs);
  }

  lemma AllMatched(pairs: seq<StepPair>, readers: Readers)
    ensures forall x :: x in pairs ==> IsMatched(DiffPair(x, readers)) == IsJoined(x)
  {
    hide TypesOf, InputDiffs, OutputDiffs, ErrorsOf, LatencyOf;
  }

  /** End to end, over every interleaving: record a trajectory, let two replays be created from it at
      any two moments after it completed, let any callers and executors run them. If both come out
      COMPLETED, the comparison pairs them one to one by source event, with no step added or removed. */
  lemma CompletedReplaysAlign(
      recording: seq<Trajectories.Move>, later: seq<Trajectories.Move>,
      firstSub: Substitution, secondSub: Substitution,
      firstMoves: seq<Callers.Move>, secondMoves: seq<Callers.Move>, readers: Readers)
    requires CreatedPlan(Recorded(recording, []), firstSub).Some? && CreatedPlan(Recorded(recording, later), secondSub).Some?
    requires Outcome(Recorded(recording, []), firstSub, firstMoves).status.ReplayCompleted?
    requires Outcome(Recorded(recording, later), secondSub, secondMoves).status.ReplayCompleted?
    ensures var b, c := Outcome(Recorded(recording, []), firstSub, firstMoves).steps,
                        Outcome(Recorded(recording, later), secondSub, secondMoves).steps;
      var s := Analysis(b, c, readers).summary;
      && (forall p :: p in Align(b, c) ==>
            Joins(p, BySourceEvent) && p.baseline.value.sourceEventId == p.candidate.value.sourceEventId)
      && s.added == 0 && s.removed == 0 && s.matched == s.totalBaseline == s.totalCandidate
  {
    var first, second := Recorded(recording, []), Recorded(recording, later);
    FrozenRecording(recording, later);
    OutcomeFollows(first, firstSub, firstMoves);
    OutcomeFollows(second, secondSub, secondMoves);
    var b, c := Outcome(first, firstSub, firstMoves).steps, Outcome(second, secondSub, secondMoves).steps;
    assert Analysis(b, c, readers).summary.totalBaseline == |b| && Analysis(b, c, readers).summary.totalCandidate == |c|;
    hide Recorded, Outcome, Analysis, Align, CreatedPlan;
    FollowersCompare(b, c, first.events, readers);
  }

  /** The committed trajectory after some moves, and after some more. */
  function Recorded(moves: seq<Trajectories.Move>, later: seq<Trajectories.Move>): Store.Trajectory {
    Trajectories.Run(Trajectories.Run(Trajectories.Start(), moves), later).db.committed
  }

  /** The committed replay row after some moves of its callers. */
  function Outcome(row: Store.Trajectory, sub: Substitution, moves: seq<Callers.Move>): RunRow
    requires CreatedPlan(row, sub).Some?
  {
    Callers.Run(SortedPlan(CreatedPlan(row, sub).value), Callers.Start(), moves).store.committed
  }

  lemma FrozenRecording(recording: seq<Trajectories.Move>, later: seq<Trajectories.Move>)
    ensures var first := Recorded(recording, []);
      && Store.Numbered(first) && Store.Distinct(first.events)
      && (first.status.TrajectoryCompleted? ==> Recorded(recording, later) == first)
  {
    Trajectories.StartInv();
    Trajectories.RunKeepsInv(Trajectories.Start(), recording);
    Trajectories.RunKeepsInv(Trajectories.Run(Trajectories.Start(), recording), later);
  }

  lemma OutcomeFollows(row: Store.Trajectory, sub: Substitution, moves: seq<Callers.Move>)
    requires Store.Numbered(row) && CreatedPlan(row, sub).Some? && Outcome(row, sub, moves).status.ReplayCompleted?
    ensures Follows(Outcome(row, sub, moves).steps, row.events) && UniqueIds(Outcome(row, sub, moves).steps)
  {
    Callers.EveryRunConcludes(SortedPlan(CreatedPlan(row, sub).value), moves);
    hide Callers.Run, SortedPlan, CreatedPlan, Concluded;
    CompletedFollows(row, sub, Outcome(row, sub, moves));
  }

  // ---------- the pipeline does complete ----------

  /** One session records a single invocation and completes the trajectory. */
  function OneCall(sub: Substitution, content: EventContent): seq<Trajectories.Move> {
    Trajectories.WholeAppend(0, Store.Request(None, None, Some(sub.component), content))
    + Trajectories.WholeClose(0, Store.TrajectoryCompleted)
  }

  lemma OneCallRecorded(sub: Substitution, content: EventContent)
    ensures var row := Recorded(OneCall(sub, content), []);
      && row.status.TrajectoryCompleted? && |row.events| == 1
      && row.events[0].componentId == Some(sub.component) && row.events[0].content == content
  {
    var start, r := Trajectories.Start(), Store.Request(None, None, Some(sub.component), content);
    Trajectories.StartInv();
    Trajectories.AloneIsARun(start, 0, r);
    var s := Trajectories.Run(start, Trajectories.WholeAppend(0, r));
    assert s.db == Store.AppendAlone(start.db, r).0;
    hide Trajectories.Run, Trajectories.WholeAppend, Trajectories.WholeClose, Trajectories.Inv;
    Trajectories.CloseIsARun(s, 0, Store.TrajectoryCompleted);
    Trajectories.RunConcat(start, Trajectories.WholeAppend(0, r), Trajectories.WholeClose(0, Store.TrajectoryCompleted));
    NoMoreMoves(Trajectories.Run(start, OneCall(sub, content)));
  }

  lemma NoMoreMoves(s: Trajectories.System)
    ensures Trajectories.Run(s, []) == s
  {
  }

  /** A recorded invocation of the replaced version, and executors that succeed: the replay completes. */
  lemma SomePipelineCompletes(sub: Substitution, content: EventContent)
    returns (recording: seq<Trajectories.Move>, moves: seq<Callers.Move>)
    requires IsInvocation(content.eventType) && content.componentVersionId == Some(sub.baseline)
    ensures var events := Recorded(recording, []).events; |events| == 1 && events[0].content == content
    ensures CreatedPlan(Recorded(recording, []), sub).Some?
    ensures Outcome(Recorded(recording, []), sub, moves).status.ReplayCompleted?
  {
    recording := OneCall(sub, content);
    OneCallRecorded(sub, content);
    var row := Recorded(recording, []);
    hide Recorded, OneCall, PlanSteps;
    assert Substituted(row.events[0], sub) && row.events[0] in row.events;
    var plan := SortedPlan(CreatedPlan(row, sub).value);
    var succeed: Executors := p => Ran(true, JNull, JNull, None);
    assert FirstStop(plan, succeed) == |plan|;
    moves := Callers.ExecutionIsARun(plan, succeed, 0);
  }
}
