/** Any number of callers executing one replay run at once, interleaved statement by statement. */
module ReplayRuns {
  import opened Options
  import opened ReplayModel
  import opened ReplayPlanner
  import opened ReplayExecution

  type Caller = nat

  /** The claiming caller's uncommitted row; it holds the row lock until commit or rollback. */
  datatype Pending = Pending(owner: Caller, row: RunRow)

  datatype Store = Store(committed: RunRow, pending: Option<Pending>, nextId: Id)

  /** How far a caller is; a claimed call has left PENDING. */
  datatype Phase =
    | Idle
    | Called
    | Claiming
    | Executing
    | Concluding(result: CallResult)
    | Ended(result: CallResult)

  datatype System = System(store: Store, callers: map<Caller, Phase>)

  /** `Proceed` carries what the executor answers if that statement calls it. */
  datatype Action = Call | Proceed(attempt: Attempt) | Crash

  datatype Move = Move(caller: Caller, action: Action)

  function PhaseOf(s: System, c: Caller): Phase { if c in s.callers then s.callers[c] else Idle }

  predicate Owns(st: Store, c: Caller) { st.pending.Some? && st.pending.value.owner == c }

  predicate Holds(p: Phase) { p.Executing? || p.Concluding? }

  /** The call that left PENDING and committed. */
  predicate Claimed(p: Phase) { p.Ended? && !p.result.InvalidTransition? }

  // ---------- statements ----------

  function ReadStatus(st: Store): Phase {
    if IsValidTransition(st.committed.status, ReplayRunning) then Claiming else Ended(InvalidTransition)
  }

  /** The conditional update from PENDING; waits while another caller holds the row. */
  function Claim(st: Store, c: Caller): (Store, Phase) {
    if st.pending.Some? then (st, Claiming)
    else if st.committed.status.ReplayPending? then
      (st.(pending := Some(Pending(c, st.committed.(status := ReplayRunning)))), Executing)
    else (st, Ended(InvalidTransition))
  }

  function Keep(st: Store, c: Caller, row: RunRow, s: ReplayStep): Store {
    Store(st.committed, Some(Pending(c, row.(steps := row.steps + [s]))), st.nextId + 1)
  }

  function Close(st: Store, c: Caller, row: RunRow, status: ReplayStatus): Store {
    st.(pending := Some(Pending(c, row.(status := status))))
  }

  /** One iteration of the loop over the plan. */
  function Iterate(plan: seq<PlanStep>, st: Store, c: Caller, a: Attempt): (Store, Phase) {
    if !Owns(st, c) then (st, Ended(InvalidTransition)) else
      var row := st.pending.value.row;
      if |row.steps| >= |plan| then (Close(st, c, row, ReplayCompleted), Concluding(Finished)) else
        var p := plan[|row.steps|];
        if !p.kind.SubstitutedExecution? then (Keep(st, c, row, FinalizedStep(p, st.nextId)), Executing)
        else if a.NoExecutor? then (Close(st, c, row, ReplayFailed), Concluding(ExecutorUnavailable))
        else if a.Raised? then (Close(st, c, row, ReplayFailed), Concluding(ExecutionFailed))
        else
          var kept := Keep(st, c, row, ExecutedStep(p, a, st.nextId));
          if a.executed then (kept, Executing)
          else (Close(kept, c, kept.pending.value.row, ReplayFailed), Concluding(Finished))
  }

  function Commit(st: Store, c: Caller): Store {
    if Owns(st, c) then st.(committed := st.pending.value.row, pending := None) else st
  }

  function Rollback(st: Store, c: Caller): Store { if Owns(st, c) then st.(pending := None) else st }

  function Act(plan: seq<PlanStep>, st: Store, c: Caller, p: Phase, a: Action): (Store, Phase) {
    match a
    case Call => if p.Idle? || p.Ended? then (st, Called) else (st, p)
    case Crash => (Rollback(st, c), Idle)
    case Proceed(attempt) =>
      match p
      case Called => (st, ReadStatus(st))
      case Claiming => Claim(st, c)
      case Executing => Iterate(plan, st, c, attempt)
      case Concluding(result) => (Commit(st, c), Ended(result))
      case _ => (st, p)
  }

  function Step(plan: seq<PlanStep>, s: System, m: Move): System {
    var (st, p) := Act(plan, s.store, m.caller, PhaseOf(s, m.caller), m.action);
    System(st, s.callers[m.caller := p])
  }

  function Run(plan: seq<PlanStep>, s: System, moves: seq<Move>): System
    decreases |moves|
  {
    if moves == [] then s else Run(plan, Step(plan, s, moves[0]), moves[1..])
  }

  function Start(): System { System(Store(RunRow(ReplayPending, []), None, 0), map[]) }

  // ---------- the invariant ----------

  ghost predicate Untouched(row: RunRow) { row.status.ReplayPending? && row.steps == [] }

  ghost predicate IdsBelow(steps: seq<ReplayStep>, nextId: Id) {
    DistinctIds(steps) && forall s :: s in steps ==> s.id < nextId
  }

  ghost predicate InProgress(plan: seq<PlanStep>, row: RunRow, nextId: Id) {
    row.status.ReplayRunning? && RecordsPrefix(plan, row.steps) && !EndsFailed(row.steps) && IdsBelow(row.steps, nextId)
  }

  ghost predicate Fits(plan: seq<PlanStep>, st: Store, c: Caller, p: Phase) {
    match p
    case Executing => Owns(st, c) && Untouched(st.committed) && InProgress(plan, st.pending.value.row, st.nextId)
    case Concluding(result) =>
      Owns(st, c) && Untouched(st.committed) && Concluded(plan, st.pending.value.row) && !result.InvalidTransition?
    case Ended(result) => !result.InvalidTransition? ==> IsTerminal(st.committed.status)
    case _ => true
  }

  ghost predicate Settled(plan: seq<PlanStep>, row: RunRow) { Untouched(row) || Concluded(plan, row) }

  ghost predicate Inv(plan: seq<PlanStep>, s: System) {
    && Settled(plan, s.store.committed)
    && (s.store.pending.Some? ==> Holds(PhaseOf(s, s.store.pending.value.owner)))
    && (forall c :: Fits(plan, s.store, c, PhaseOf(s, c)))
    && (forall c, d :: Claimed(PhaseOf(s, c)) && Claimed(PhaseOf(s, d)) ==> c == d)
  }

  /** The row leaves PENDING at most once, straight to its final form. */
  ghost predicate Evolves(before: RunRow, after: RunRow) { IsTerminal(before.status) ==> after == before }

  ghost predicate Polite(plan: seq<PlanStep>, before: Store, c: Caller, after: Store, q: Phase) {
    && Settled(plan, after.committed)
    && Evolves(before.committed, after.committed)
    && Fits(plan, after, c, q)
    && (before.pending.Some? && before.pending.value.owner != c ==> after == before)
    && (after.pending.Some? ==> after.pending == before.pending || after.pending.value.owner == c)
    && (Owns(after, c) ==> Holds(q))
    && (Claimed(q) ==> IsTerminal(before.committed.status) || Untouched(before.committed))
  }

  lemma KeepRecords(plan: seq<PlanStep>, row: RunRow, s: ReplayStep, nextId: Id)
    requires InProgress(plan, row, nextId) && |row.steps| < |plan| && Records(plan[|row.steps|], s) && s.id == nextId
    ensures var kept := row.(steps := row.steps + [s]);
      && RecordsPrefix(plan, kept.steps) && IdsBelow(kept.steps, nextId + 1) && EndsFailed(kept.steps) == s.status.Failed?
  {
    hide Records;
    assert forall i :: 0 <= i < |row.steps| ==> row.steps[i] in row.steps;
  }

  lemma IteratePolite(plan: seq<PlanStep>, st: Store, c: Caller, a: Attempt)
    requires Fits(plan, st, c, Executing) && Settled(plan, st.committed)
    ensures var (after, q) := Iterate(plan, st, c, a); Polite(plan, st, c, after, q)
  {
    hide Records, FinalizedStep, ExecutedStep, DistinctIds;
    var row := st.pending.value.row;
    if |row.steps| < |plan| {
      var p := plan[|row.steps|];
      StepsRecord(p, a, st.nextId);
      if !p.kind.SubstitutedExecution? {
        KeepRecords(plan, row, FinalizedStep(p, st.nextId), st.nextId);
      } else if a.Ran? {
        KeepRecords(plan, row, ExecutedStep(p, a, st.nextId), st.nextId);
      }
    }
    hide RecordsPrefix, EndsFailed;
  }

  lemma StepsRecord(p: PlanStep, a: Attempt, id: Id)
    ensures !p.kind.SubstitutedExecution? ==> Records(p, FinalizedStep(p, id)) && FinalizedStep(p, id).id == id
    ensures !p.kind.SubstitutedExecution? ==> !FinalizedStep(p, id).status.Failed?
    ensures p.kind.SubstitutedExecution? && a.Ran? ==> Records(p, ExecutedStep(p, a, id)) && ExecutedStep(p, a, id).id == id
    ensures p.kind.SubstitutedExecution? && a.Ran? ==> (ExecutedStep(p, a, id).status.Failed? <==> !a.executed)
  {
  }

  lemma ActPolite(plan: seq<PlanStep>, st: Store, c: Caller, p: Phase, a: Action)
    requires Settled(plan, st.committed) && Fits(plan, st, c, p) && (Owns(st, c) ==> Holds(p))
    ensures var (after, q) := Act(plan, st, c, p, a); Polite(plan, st, c, after, q)
  {
    if a.Proceed? && p.Executing? {
      hide Iterate, Polite, Fits;
      IteratePolite(plan, st, c, a.attempt);
    } else {
      hide Iterate, RecordsPrefix, Records;
    }
  }

  lemma OthersFit(plan: seq<PlanStep>, before: Store, after: Store, c: Caller, x: Phase, d: Caller, q: Phase)
    requires Polite(plan, before, c, after, x) && Fits(plan, before, d, q) && c != d
    ensures Fits(plan, after, d, q)
  {
    hide RecordsPrefix, EndsFailed, DistinctIds;
  }

  /** A caller becomes the claimed one only by committing its own pending row, while the run was untouched. */
  lemma ClaimedByCommit(plan: seq<PlanStep>, s: System, m: Move)
    requires Inv(plan, s)
    ensures var t, c := Step(plan, s, m), m.caller;
      Claimed(PhaseOf(t, c)) ==> Claimed(PhaseOf(s, c)) || Untouched(s.store.committed)
  {
    assert Fits(plan, s.store, m.caller, PhaseOf(s, m.caller));
    hide RecordsPrefix, EndsFailed, DistinctIds;
  }

  lemma StepKeepsInv(plan: seq<PlanStep>, s: System, m: Move)
    requires Inv(plan, s)
    ensures Inv(plan, Step(plan, s, m)) && Evolves(s.store.committed, Step(plan, s, m).store.committed)
  {
    ClaimedByCommit(plan, s, m);
    var t, c := Step(plan, s, m), m.caller;
    forall d | Untouched(s.store.committed) ensures !Claimed(PhaseOf(s, d)) { assert Fits(plan, s.store, d, PhaseOf(s, d)); }
    hide Fits, Act, Evolves, Settled, Claimed, Untouched;
    ActPolite(plan, s.store, c, PhaseOf(s, c), m.action);
    forall d ensures Fits(plan, t.store, d, PhaseOf(t, d)) {
      if d != c { OthersFit(plan, s.store, t.store, c, PhaseOf(t, c), d, PhaseOf(s, d)); }
    }
    forall x, y | Claimed(PhaseOf(t, x)) && Claimed(PhaseOf(t, y)) ensures x == y {
      assert x != c ==> PhaseOf(t, x) == PhaseOf(s, x);
      assert y != c ==> PhaseOf(t, y) == PhaseOf(s, y);
    }
  }

  lemma {:induction false} RunKeepsInv(plan: seq<PlanStep>, s: System, moves: seq<Move>)
    requires Inv(plan, s)
    ensures Inv(plan, Run(plan, s, moves)) && Evolves(s.store.committed, Run(plan, s, moves).store.committed)
    decreases |moves|
  {
    hide Inv;
    if moves != [] {
      StepKeepsInv(plan, s, moves[0]);
      RunKeepsInv(plan, Step(plan, s, moves[0]), moves[1..]);
    }
  }

  lemma StartInv(plan: seq<PlanStep>)
    ensures Inv(plan, Start())
  {
  }

  /** The callers whose move took the committed row out of PENDING, in order. */
  function Winners(plan: seq<PlanStep>, s: System, moves: seq<Move>): seq<Caller>
    decreases |moves|
  {
    if moves == [] then []
    else
      var t := Step(plan, s, moves[0]);
      (if s.store.committed.status.ReplayPending? && !t.store.committed.status.ReplayPending? then [moves[0].caller] else [])
      + Winners(plan, t, moves[1..])
  }

  lemma ClaimIsAWin(plan: seq<PlanStep>, s: System, m: Move, c: Caller)
    requires Inv(plan, s) && Claimed(PhaseOf(Step(plan, s, m), c)) && !Claimed(PhaseOf(s, c))
    ensures m.caller == c && s.store.committed.status.ReplayPending?
    ensures IsTerminal(Step(plan, s, m).store.committed.status)
  {
    assert Fits(plan, s.store, m.caller, PhaseOf(s, m.caller));
    hide RecordsPrefix, EndsFailed, DistinctIds;
  }

  lemma {:induction false} OneWinner(plan: seq<PlanStep>, s: System, moves: seq<Move>)
    requires Inv(plan, s)
    ensures var w, t := Winners(plan, s, moves), Run(plan, s, moves);
      && |w| <= 1
      && (|w| == 1 <==> s.store.committed.status.ReplayPending? && IsTerminal(t.store.committed.status))
      && (forall c: Caller :: Claimed(PhaseOf(t, c)) && !Claimed(PhaseOf(s, c)) ==> w == [c])
    decreases |moves|
  {
    if moves != [] {
      var t := Step(plan, s, moves[0]);
      StepKeepsInv(plan, s, moves[0]);
      RunKeepsInv(plan, t, moves[1..]);
      OneWinner(plan, t, moves[1..]);
      forall c | Claimed(PhaseOf(t, c)) && !Claimed(PhaseOf(s, c))
        ensures moves[0].caller == c && s.store.committed.status.ReplayPending? && IsTerminal(t.store.committed.status)
      {
        ClaimIsAWin(plan, s, moves[0], c);
      }
      assert t.store.committed.status.ReplayPending? || IsTerminal(t.store.committed.status) by { hide RecordsPrefix, DistinctIds; }
      hide Inv, Step, Claimed, IsTerminal;
    }
  }

  /** Over every plan, executor behaviour, crash and interleaving: a committed run is untouched or
      concluded, never RUNNING; over the whole history at most one caller's move took it out of PENDING,
      exactly one once it is terminal, and only that caller was ever told it executed the run. */
  lemma EveryRunConcludes(plan: seq<PlanStep>, moves: seq<Move>)
    ensures var s, w := Run(plan, Start(), moves), Winners(plan, Start(), moves);
      && (Untouched(s.store.committed) || Concluded(plan, s.store.committed))
      && |w| <= 1 && (|w| == 1 <==> IsTerminal(s.store.committed.status))
      && (forall c: Caller :: Claimed(PhaseOf(s, c)) ==> w == [c])
  {
    StartInv(plan);
    RunKeepsInv(plan, Start(), moves);
    OneWinner(plan, Start(), moves);
    hide Run, Winners, RecordsPrefix, DistinctIds;
  }

  /** Terminal states absorb, over any continuation of any run. */
  lemma TerminalAbsorbs(plan: seq<PlanStep>, before: seq<Move>, more: seq<Move>)
    requires IsTerminal(Run(plan, Start(), before).store.committed.status)
    ensures Run(plan, Run(plan, Start(), before), more).store.committed == Run(plan, Start(), before).store.committed
  {
    StartInv(plan);
    RunKeepsInv(plan, Start(), before);
    RunKeepsInv(plan, Run(plan, Start(), before), more);
  }

  // ---------- recorded steps carry supplied attempts ----------

  /** One of the caller's own moves supplied the answer the step shows. */
  ghost predicate AnsweredBy(s: ReplayStep, moves: seq<Move>, c: Caller) {
    exists m :: m in moves && m.caller == c && m.action.Proceed? && ShowsAttempt(s, m.action.attempt)
  }

  ghost predicate Answered(plan: seq<PlanStep>, row: RunRow, moves: seq<Move>, c: Caller) {
    && |row.steps| <= |plan|
    && forall i :: 0 <= i < |row.steps| && plan[i].kind.SubstitutedExecution? ==> AnsweredBy(row.steps[i], moves, c)
  }

  ghost predicate PendingAnswered(plan: seq<PlanStep>, st: Store, moves: seq<Move>) {
    st.pending.Some? ==> Answered(plan, st.pending.value.row, moves, st.pending.value.owner)
  }

  ghost predicate AllAnswered(plan: seq<PlanStep>, st: Store, moves: seq<Move>) {
    (exists c :: Answered(plan, st.committed, moves, c)) && PendingAnswered(plan, st, moves)
  }

  lemma AnsweredLater(plan: seq<PlanStep>, row: RunRow, moves: seq<Move>, m: Move, c: Caller)
    requires Answered(plan, row, moves, c)
    ensures Answered(plan, row, moves + [m], c)
  {
    forall i | 0 <= i < |row.steps| && plan[i].kind.SubstitutedExecution? ensures AnsweredBy(row.steps[i], moves + [m], c) {
      assert AnsweredBy(row.steps[i], moves, c);
      var n :| n in moves && n.caller == c && n.action.Proceed? && ShowsAttempt(row.steps[i], n.action.attempt);
      assert n in moves + [m];
    }
  }

  /** A loop iteration adds at most one step, and a substituted one shows the attempt it was given. */
  lemma IterationAnswered(plan: seq<PlanStep>, st: Store, moves: seq<Move>, c: Caller, a: Attempt)
    requires PendingAnswered(plan, st, moves)
    ensures var (after, q) := Iterate(plan, st, c, a);
      after.committed == st.committed && PendingAnswered(plan, after, moves + [Move(c, Proceed(a))])
  {
    var m := Move(c, Proceed(a));
    if st.pending.Some? { AnsweredLater(plan, st.pending.value.row, moves, m, st.pending.value.owner); }
    if Owns(st, c) && |st.pending.value.row.steps| < |plan| {
      var p := plan[|st.pending.value.row.steps|];
      if p.kind.SubstitutedExecution? && a.Ran? {
        assert ShowsAttempt(ExecutedStep(p, a, st.nextId), a) && m in moves + [m];
        assert AnsweredBy(ExecutedStep(p, a, st.nextId), moves + [m], c);
      }
      hide AnsweredBy, FinalizedStep, ExecutedStep;
    }
  }

  lemma ActAnswered(plan: seq<PlanStep>, s: System, moves: seq<Move>, m: Move)
    requires Inv(plan, s) && AllAnswered(plan, s.store, moves)
    ensures AllAnswered(plan, Step(plan, s, m).store, moves + [m])
  {
    hide Answered, Iterate, Fits, Concluded, Claimed;
    var st, p := s.store, PhaseOf(s, m.caller);
    var c :| Answered(plan, st.committed, moves, c);
    AnsweredLater(plan, st.committed, moves, m, c);
    if st.pending.Some? { AnsweredLater(plan, st.pending.value.row, moves, m, st.pending.value.owner); }
    if m.action.Proceed? && p.Executing? { IterationAnswered(plan, st, moves, m.caller, m.action.attempt); }
    if st.committed.status.ReplayPending? { NothingRecordedYet(plan, st.committed, moves + [m], m.caller); }
  }

  lemma NothingRecordedYet(plan: seq<PlanStep>, row: RunRow, moves: seq<Move>, c: Caller)
    requires Settled(plan, row) && row.status.ReplayPending?
    ensures Answered(plan, row.(status := ReplayRunning), moves, c)
  {
    hide RecordsPrefix, DistinctIds;
  }

  lemma {:induction false} RunAnswered(plan: seq<PlanStep>, s: System, past: seq<Move>, moves: seq<Move>)
    requires Inv(plan, s) && AllAnswered(plan, s.store, past)
    ensures AllAnswered(plan, Run(plan, s, moves).store, past + moves)
    decreases |moves|
  {
    if moves == [] {
      assert past + moves == past;
    } else {
      StepKeepsInv(plan, s, moves[0]);
      ActAnswered(plan, s, past, moves[0]);
      hide Inv, AllAnswered, Step;
      RunAnswered(plan, Step(plan, s, moves[0]), past + [moves[0]], moves[1..]);
      assert past + [moves[0]] + moves[1..] == past + moves;
    }
  }

  /** Over every interleaving: the substituted steps of the committed run all show answers that moves of one caller
      supplied, output, error, duration and status alike. */
  lemma StepsShowSuppliedAnswers(plan: seq<PlanStep>, moves: seq<Move>)
    ensures exists c :: Answered(plan, Run(plan, Start(), moves).store.committed, moves, c)
  {
    StartInv(plan);
    assert Answered(plan, Start().store.committed, [], 0);
    RunAnswered(plan, Start(), [], moves);
    assert [] + moves == moves;
  }

  // ---------- the executor loop is one of the runs ----------

  lemma TwoMoves(plan: seq<PlanStep>, s: System, m: Move, n: Move)
    ensures Run(plan, s, [m, n]) == Step(plan, Step(plan, s, m), n)
  {
    hide Step;
    assert [m, n][1..] == [n] && [n][1..] == [];
    assert Run(plan, Step(plan, s, m), [n]) == Run(plan, Step(plan, Step(plan, s, m), n), []);
  }

  lemma OneMoreStep(plan: seq<PlanStep>, run: Executors, i: nat, firstId: Id)
    requires i < |plan| && forall k :: 0 <= k <= i ==> Leaves(plan[k], run(plan[k]))
    ensures Evidence(plan, run, i + 1, firstId)
      == Evidence(plan, run, i, firstId) + [StepFor(plan[i], run(plan[i]), firstId + i)]
  {
    hide Leaves, StepFor;
  }

  /** One iteration of the executor's loop before its first stop: one more step, and on. */
  lemma IterationGoesOn(plan: seq<PlanStep>, run: Executors, st: Store, c: Caller, firstId: Id, i: nat)
    requires i < FirstStop(plan, run) && st.nextId == firstId + i
    requires st.pending == Some(Pending(c, RunRow(ReplayRunning, Evidence(plan, run, i, firstId))))
    ensures Iterate(plan, st, c, run(plan[i])) ==
      (Store(st.committed, Some(Pending(c, RunRow(ReplayRunning, Evidence(plan, run, i + 1, firstId)))), firstId + i + 1), Executing)
  {
    OneMoreStep(plan, run, i, firstId);
    assert !Stops(plan[i], run(plan[i]));
    hide FirstStop, Evidence;
  }

  /** The iteration at the first stop: the conclusion is pending. */
  lemma IterationConcludes(plan: seq<PlanStep>, run: Executors, st: Store, c: Caller, firstId: Id, i: nat)
    requires i == FirstStop(plan, run) && st.nextId == firstId + i
    requires st.pending == Some(Pending(c, RunRow(ReplayRunning, Evidence(plan, run, i, firstId))))
    ensures var (after, q) := Iterate(plan, st, c, if i < |plan| then run(plan[i]) else NoExecutor);
      q.Concluding? && after.pending == Some(Pending(c, Conclusion(plan, run, firstId)))
  {
    if i < |plan| && run(plan[i]).Ran? { OneMoreStep(plan, run, i, firstId); }
    assert i < |plan| ==> Stops(plan[i], run(plan[i]));
    hide FirstStop, Evidence;
  }

  lemma {:induction false} LoopIsARun(plan: seq<PlanStep>, run: Executors, s: System, c: Caller, firstId: Id, i: nat)
    returns (moves: seq<Move>)
    requires i <= FirstStop(plan, run) && s.store.nextId == firstId + i && PhaseOf(s, c).Executing?
    requires s.store.pending == Some(Pending(c, RunRow(ReplayRunning, Evidence(plan, run, i, firstId))))
    ensures Run(plan, s, moves).store.committed == Conclusion(plan, run, firstId)
    decreases |plan| - i
  {
    if i < FirstStop(plan, run) {
      IterationGoesOn(plan, run, s.store, c, firstId, i);
    } else {
      IterationConcludes(plan, run, s.store, c, firstId, i);
    }
    hide FirstStop, Evidence, Conclusion, Iterate;
    var m := Move(c, Proceed(if i < |plan| then run(plan[i]) else NoExecutor));
    var t := Step(plan, s, m);
    if i < FirstStop(plan, run) {
      var rest := LoopIsARun(plan, run, t, c, firstId, i + 1);
      hide Step;
      moves := [m] + rest;
      assert moves[1..] == rest;
    } else {
      moves := [m, m];
      TwoMoves(plan, s, m, m);
    }
  }

  /** What the executor method leaves when it runs alone is what the interleaved system can commit. */
  lemma ExecutionIsARun(plan: seq<PlanStep>, run: Executors, c: Caller) returns (moves: seq<Move>)
    ensures Run(plan, Start(), moves).store.committed == Conclusion(plan, run, 0)
  {
    var call, proceed := Move(c, Call), Move(c, Proceed(NoExecutor));
    var s1 := Step(plan, Start(), call);
    var s2 := Step(plan, s1, proceed);
    var s3 := Step(plan, s2, proceed);
    assert Evidence(plan, run, 0, 0) == [];
    hide FirstStop, Evidence, Conclusion;
    assert PhaseOf(s3, c).Executing? && s3.store.pending == Some(Pending(c, RunRow(ReplayRunning, []))) && s3.store.nextId == 0;
    var rest := LoopIsARun(plan, run, s3, c, 0, 0);
    hide Step;
    moves := [call, proceed, proceed] + rest;
    assert moves[1..] == [proceed, proceed] + rest;
    assert moves[1..][1..] == [proceed] + rest;
    assert moves[1..][1..][1..] == rest;
    assert Run(plan, s1, moves[1..]) == Run(plan, s2, moves[1..][1..]);
    assert Run(plan, s2, moves[1..][1..]) == Run(plan, s3, rest);
  }
}
