/** The lifecycle of one pull-request analysis row, its commits, its GitHub checks, crashes and redeliveries. */
module PullRequestAnalysis {
  import opened Options
  import opened ReplayModel
  import opened Risk

  datatype AnalysisStatus = AnalysisPending | InProgress | AnalysisCompleted | PublishFailed | AnalysisFailed

  datatype Evidence = Evidence(scanId: Id, assessmentId: Id, decision: Decision)

  datatype Row = Row(headSha: string, status: AnalysisStatus, evidence: Option<Evidence>, checkRunId: Option<int>)

  datatype Conclusion = SuccessConclusion | NeutralConclusion | FailureConclusion

  function ConclusionOf(d: Decision): Conclusion {
    match d case Pass => SuccessConclusion case Warn => NeutralConclusion case Block => FailureConclusion
  }

  /** A check as GitHub was told: in progress, or completed with a conclusion. */
  datatype Check = Check(id: int, headSha: string, conclusion: Option<Conclusion>)

  predicate IsTerminal(s: AnalysisStatus) { s.AnalysisCompleted? || s.AnalysisFailed? }

  predicate HasVerdict(s: AnalysisStatus) { s.AnalysisCompleted? || s.PublishFailed? }

  predicate RepublishesOnly(row: Row) { row.status.PublishFailed? && row.evidence.Some? }

  /** Where the one worker of the row stands between its commits. */
  datatype Phase =
    | Idle
    | Announcing
    | Announced(id: int)
    | Computing
    | Publishing
    | Published(id: int)

  datatype Desk = Desk(row: Row, checks: seq<Check>, phase: Phase)

  /** A request event arrives; GitHub answers or refuses; the pipeline yields evidence or raises; a
      commit goes through; the worker dies. */
  datatype Action =
    | Deliver(expectedSha: string, mapped: bool)
    | Github(id: Option<int>)
    | Pipeline(result: Option<Evidence>)
    | Commit
    | Crash

  // ---------- the steps ----------

  /** Reading the row: stale commits and finished rows do nothing, a failed publish is only published
      again, anything else is committed IN_PROGRESS and starts over. */
  function Accept(d: Desk, expectedSha: string, mapped: bool): Desk {
    if d.row.headSha != expectedSha || IsTerminal(d.row.status) || !mapped then d
    else if RepublishesOnly(d.row) then d.(phase := Publishing)
    else d.(row := d.row.(status := InProgress), phase := Announcing)
  }

  function CompletedCheck(row: Row, id: int): Check
    requires row.evidence.Some?
  {
    Check(id, row.headSha, Some(ConclusionOf(row.evidence.value.decision)))
  }

  /** An existing check run is updated under its own id. */
  function CheckId(row: Row, created: int): int { if row.checkRunId.Some? then row.checkRunId.value else created }

  function AnswerFromGithub(d: Desk, id: Option<int>): Desk {
    if d.phase.Announcing? then
      if id.None? then d.(phase := Computing)
      else d.(checks := d.checks + [Check(id.value, d.row.headSha, None)], phase := Announced(id.value))
    else if d.phase.Publishing? && d.row.evidence.Some? then
      if id.None? then d.(row := d.row.(status := PublishFailed), phase := Idle)
      else
        var used := CheckId(d.row, id.value);
        d.(checks := d.checks + [CompletedCheck(d.row, used)], phase := Published(used))
    else d
  }

  /** Evidence and verdict are committed before any publication; a failing pipeline commits FAILED. */
  function Conclude(d: Desk, result: Option<Evidence>): Desk {
    if !d.phase.Computing? then d
    else if result.None? then d.(row := d.row.(status := AnalysisFailed), phase := Idle)
    else d.(row := d.row.(evidence := result, status := AnalysisCompleted), phase := Publishing)
  }

  function CommitCheckId(d: Desk): Desk {
    match d.phase
    case Announced(id) => d.(row := d.row.(checkRunId := Some(id)), phase := Computing)
    case Published(id) => d.(row := d.row.(checkRunId := Some(id), status := AnalysisCompleted), phase := Idle)
    case _ => d
  }

  function Step(d: Desk, a: Action): Desk {
    match a
    case Deliver(sha, mapped) => if d.phase.Idle? then Accept(d, sha, mapped) else d
    case Github(id) => AnswerFromGithub(d, id)
    case Pipeline(result) => Conclude(d, result)
    case Commit => CommitCheckId(d)
    case Crash => d.(phase := Idle)
  }

  function Run(d: Desk, actions: seq<Action>): Desk
    decreases |actions|
  {
    if actions == [] then d else Run(Step(d, actions[0]), actions[1..])
  }

  function Start(headSha: string): Desk { Desk(Row(headSha, AnalysisPending, None, None), [], Idle) }

  // ---------- the invariant ----------

  /** A completed check carries the row's own commit and the conclusion of its one decision. */
  predicate Honest(check: Check, row: Row) {
    && check.headSha == row.headSha
    && (check.conclusion.Some? ==> row.evidence.Some? && check.conclusion.value == ConclusionOf(row.evidence.value.decision))
  }

  ghost predicate Inv(d: Desk) {
    && (HasVerdict(d.row.status) <==> d.row.evidence.Some?)
    && (d.phase.Announcing? || d.phase.Announced? || d.phase.Computing? ==> d.row.status.InProgress?)
    && (d.phase.Publishing? || d.phase.Published? ==> d.row.evidence.Some?)
    && (forall check :: check in d.checks ==> Honest(check, d.row))
  }

  /** The commit is fixed, evidence is written at most once, a failed pipeline stays failed, and
      nothing told to GitHub is taken back. */
  ghost predicate Evolves(before: Desk, after: Desk) {
    && after.row.headSha == before.row.headSha
    && (before.row.evidence.Some? ==> after.row.evidence == before.row.evidence)
    && (before.row.status.AnalysisFailed? ==> after.row.status.AnalysisFailed?)
    && before.checks <= after.checks
  }

  lemma StepKeepsInv(d: Desk, a: Action)
    requires Inv(d)
    ensures Inv(Step(d, a)) && Evolves(d, Step(d, a))
  {
    var t := Step(d, a);
    hide ConclusionOf;
    assert forall check :: check in t.checks ==> check in d.checks || check == t.checks[|t.checks| - 1];
  }

  lemma {:induction false} RunKeepsInv(d: Desk, actions: seq<Action>)
    requires Inv(d)
    ensures Inv(Run(d, actions)) && Evolves(d, Run(d, actions))
    decreases |actions|
  {
    hide Inv, Step;
    if actions != [] {
      StepKeepsInv(d, actions[0]);
      RunKeepsInv(Step(d, actions[0]), actions[1..]);
    }
  }

  /** Over every sequence of deliveries, answers, refusals and crashes: the verdict is set exactly in
      COMPLETED and PUBLISH_FAILED, and every completed check carries the row's commit and verdict. */
  lemma EveryRunIsHonest(headSha: string, actions: seq<Action>)
    ensures var d := Run(Start(headSha), actions);
      && (HasVerdict(d.row.status) <==> d.row.evidence.Some?)
      && d.row.headSha == headSha
      && (forall check :: check in d.checks ==> Honest(check, d.row))
  {
    RunKeepsInv(Start(headSha), actions);
  }

  /** And whatever happens next, evidence and decision stay as first written. */
  lemma EvidenceIsWrittenOnce(headSha: string, before: seq<Action>, more: seq<Action>)
    ensures var d := Run(Start(headSha), before);
      var e := Run(d, more);
      && (d.row.evidence.Some? ==> e.row.evidence == d.row.evidence)
      && (d.row.status.AnalysisFailed? ==> e.row.status.AnalysisFailed? && e.row.evidence.None?)
  {
    RunKeepsInv(Start(headSha), before);
    RunKeepsInv(Run(Start(headSha), before), more);
  }

  /** A finished row at rest is never touched again, and no further check is published for it. */
  lemma {:induction false} RestIsFinal(d: Desk, actions: seq<Action>)
    requires d.phase.Idle? && IsTerminal(d.row.status)
    ensures Run(d, actions) == d
    decreases |actions|
  {
    if actions != [] {
      assert Step(d, actions[0]) == d;
      RestIsFinal(d, actions[1..]);
    }
  }

  // ---------- does the verdict reach GitHub? ----------

  predicate Told(d: Desk) { exists check :: check in d.checks && check.conclusion.Some? }

  /** Either the verdict was told, or telling it is the next thing, or the publish failure is on record. */
  ghost predicate OnItsWay(d: Desk) {
    && Inv(d)
    && (d.row.status.AnalysisCompleted? ==> Told(d) || d.phase.Publishing?)
    && (d.phase.Published? ==> Told(d))
  }

  /** The one step that loses a verdict: a crash between the commit that reads COMPLETED and the publication. */
  predicate Loses(d: Desk, a: Action) {
    a.Crash? && d.phase.Publishing? && d.row.status.AnalysisCompleted? && !Told(d)
  }

  predicate LosesSomewhere(d: Desk, actions: seq<Action>)
    decreases |actions|
  {
    actions != [] && (Loses(d, actions[0]) || LosesSomewhere(Step(d, actions[0]), actions[1..]))
  }

  lemma StepKeepsTelling(d: Desk, a: Action)
    requires OnItsWay(d) && !Loses(d, a)
    ensures OnItsWay(Step(d, a))
  {
    StepKeepsInv(d, a);
    var t := Step(d, a);
    assert Told(d) ==> Told(t) by {
      if Told(d) {
        var check :| check in d.checks && check.conclusion.Some?;
        assert check in t.checks;
      }
    }
    if t.phase.Published? && !d.phase.Published? { assert t.checks[|t.checks| - 1].conclusion.Some?; }
    hide Inv, Told;
  }

  /** Over every history of deliveries, answers, crashes and redeliveries: a row that comes to rest
      COMPLETED has not told GitHub its verdict if and only if some crash hit it between committing
      COMPLETED and publishing. No other crash loses a verdict. */
  lemma {:induction false} VerdictLostExactly(d: Desk, actions: seq<Action>)
    requires OnItsWay(d)
    ensures var e := Run(d, actions);
      e.phase.Idle? && e.row.status.AnalysisCompleted? ==> (!Told(e) <==> LosesSomewhere(d, actions))
    decreases |actions|
  {
    if actions != [] {
      var t := Step(d, actions[0]);
      if Loses(d, actions[0]) {
        assert t.checks == d.checks;
        RestIsFinal(t, actions[1..]);
      } else {
        StepKeepsTelling(d, actions[0]);
        hide OnItsWay, Step, Told, Loses;
        VerdictLostExactly(t, actions[1..]);
      }
    }
  }

  /** From a new row. */
  lemma LostExactly(headSha: string, actions: seq<Action>)
    ensures var d := Run(Start(headSha), actions);
      d.phase.Idle? && d.row.status.AnalysisCompleted? ==> (!Told(d) <==> LosesSomewhere(Start(headSha), actions))
  {
    VerdictLostExactly(Start(headSha), actions);
  }

  /** Such a history: the first delivery commits its verdict and the worker dies before publishing it. */
  lemma SomeVerdictIsLost(headSha: string, e: Evidence)
    ensures var actions := [Deliver(headSha, true), Github(None), Pipeline(Some(e)), Crash];
      var d := Run(Start(headSha), actions);
      d.phase.Idle? && d.row.status.AnalysisCompleted? && d.row.evidence == Some(e) && !Told(d)
      && LosesSomewhere(Start(headSha), actions)
  {
    var actions := [Deliver(headSha, true), Github(None), Pipeline(Some(e)), Crash];
    assert actions == [actions[0], actions[1], actions[2]] + [Crash];
    RunConcat(Start(headSha), [actions[0], actions[1], actions[2]], [Crash]);
    ThreeActions(Start(headSha), actions[0], actions[1], actions[2]);
    var d := Step(Step(Step(Start(headSha), actions[0]), actions[1]), actions[2]);
    assert d.phase.Publishing? && d.checks == [] && d.row.status.AnalysisCompleted?;
    assert Run(d, [Crash]) == Step(d, Crash) by { assert [Crash][1..] == []; }
    LostExactly(headSha, actions);
  }

  lemma {:induction false} NoCrashNoLoss(d: Desk, actions: seq<Action>)
    requires forall a :: a in actions ==> !a.Crash?
    ensures !LosesSomewhere(d, actions)
    decreases |actions|
  {
    if actions != [] {
      assert actions[0] in actions;
      NoCrashNoLoss(Step(d, actions[0]), actions[1..]);
    }
  }

  /** In particular nothing is lost without a crash. */
  lemma RestsOnlyTold(headSha: string, actions: seq<Action>)
    requires forall a :: a in actions ==> !a.Crash?
    ensures var d := Run(Start(headSha), actions); d.phase.Idle? && d.row.status.AnalysisCompleted? ==> Told(d)
  {
    LostExactly(headSha, actions);
    NoCrashNoLoss(Start(headSha), actions);
  }

  /** A crash while a verdict waits to be published loses it exactly when the row already reads
      COMPLETED: no redelivery ever publishes it. From PUBLISH_FAILED one that GitHub accepts does. */
  lemma CrashLosesVerdict(d: Desk, more: seq<Action>)
    requires Inv(d) && d.phase.Publishing? && !Told(d)
    ensures d.row.status.AnalysisCompleted? ==> !Told(Run(Step(d, Crash), more)) && Run(Step(d, Crash), more).row == d.row
    ensures d.row.status.PublishFailed? ==> forall id :: Told(Run(Step(d, Crash), [Deliver(d.row.headSha, true), Github(Some(id))]))
  {
    var e := Step(d, Crash);
    if d.row.status.AnalysisCompleted? { RestIsFinal(e, more); }
    if d.row.status.PublishFailed? {
      forall id ensures Told(Run(e, [Deliver(d.row.headSha, true), Github(Some(id))])) {
        var s1 := Step(e, Deliver(d.row.headSha, true));
        var s2 := Step(s1, Github(Some(id)));
        TwoActions(e, Deliver(d.row.headSha, true), Github(Some(id)));
        assert s2.checks[|s2.checks| - 1].conclusion.Some?;
      }
    }
  }

  lemma TwoActions(d: Desk, a: Action, b: Action)
    ensures Run(d, [a, b]) == Step(Step(d, a), b)
  {
    hide Step;
    assert [a, b][1..] == [b] && [b][1..] == [];
    assert Run(Step(d, a), [b]) == Run(Step(Step(d, a), b), []);
  }

  // ---------- one undisturbed delivery ----------

  /** The answers one delivery meets. */
  datatype Answers = Answers(announce: Option<int>, result: Option<Evidence>, publish: Option<int>)

  function AfterPublish(row: Row, publish: Option<int>): Row
    requires row.evidence.Some?
  {
    if publish.None? then row.(status := PublishFailed)
    else row.(status := AnalysisCompleted, checkRunId := Some(CheckId(row, publish.value)))
  }

  /** The row a delivery leaves when the worker survives it. */
  function AfterDelivery(row: Row, expectedSha: string, mapped: bool, answers: Answers): Row {
    if row.headSha != expectedSha || IsTerminal(row.status) || !mapped then row
    else if RepublishesOnly(row) then AfterPublish(row, answers.publish)
    else
      var announced := if answers.announce.Some? then row.(checkRunId := answers.announce) else row;
      if answers.result.None? then announced.(status := AnalysisFailed)
      else AfterPublish(announced.(evidence := answers.result, status := AnalysisCompleted), answers.publish)
  }

  /** The checks GitHub hears of in that delivery. */
  function ChecksOfDelivery(row: Row, expectedSha: string, mapped: bool, answers: Answers): seq<Check> {
    if row.headSha != expectedSha || IsTerminal(row.status) || !mapped then []
    else if RepublishesOnly(row) then
      if answers.publish.None? then [] else [CompletedCheck(row, CheckId(row, answers.publish.value))]
    else
      var announced := if answers.announce.Some? then row.(checkRunId := answers.announce) else row;
      (if answers.announce.Some? then [Check(answers.announce.value, row.headSha, None)] else [])
      + (if answers.result.None? || answers.publish.None? then []
         else [CompletedCheck(announced.(evidence := answers.result), CheckId(announced, answers.publish.value))])
  }

  /** The service object over one analysis row. */
  class AnalysisService {
    var row: Row
    var checks: seq<Check>

    constructor (headSha: string)
      ensures row == Start(headSha).row && checks == []
    {
      row, checks := Row(headSha, AnalysisPending, None, None), [];
    }

    method PublishInProgress(answer: Option<int>)
      modifies this
      ensures answer.None? ==> row == old(row) && checks == old(checks)
      ensures answer.Some? ==> row == old(row).(checkRunId := answer) && checks == old(checks) + [Check(answer.value, row.headSha, None)]
    {
      if answer.None? { return; }
      checks := checks + [Check(answer.value, row.headSha, None)];
      row := row.(checkRunId := answer);
    }

    method PublishResult(answer: Option<int>)
      requires row.evidence.Some?
      modifies this
      ensures row == AfterPublish(old(row), answer)
      ensures checks == old(checks) + if answer.None? then [] else [CompletedCheck(old(row), CheckId(old(row), answer.value))]
    {
      if answer.None? {
        row := row.(status := PublishFailed);
        return;
      }
      var id := if row.checkRunId.Some? then row.checkRunId.value else answer.value;
      checks := checks + [CompletedCheck(row, id)];
      row := row.(checkRunId := Some(id), status := AnalysisCompleted);
    }

    method RunAnalysis(expectedSha: string, mapped: bool, answers: Answers)
      modifies this
      ensures row == AfterDelivery(old(row), expectedSha, mapped, answers)
      ensures checks == old(checks) + ChecksOfDelivery(old(row), expectedSha, mapped, answers)
    {
      if row.headSha != expectedSha || IsTerminal(row.status) || !mapped { return; }
      if row.status.PublishFailed? && row.evidence.Some? {
        PublishResult(answers.publish);
        return;
      }
      row := row.(status := InProgress);
      PublishInProgress(answers.announce);
      if answers.result.None? {
        row := row.(status := AnalysisFailed);
        return;
      }
      row := row.(evidence := answers.result, status := AnalysisCompleted);
      PublishResult(answers.publish);
    }
  }

  /** What GitHub hears of a delivery that publishes: the last check is completed for the row's commit with the verdict's
      conclusion, under the id the row keeps. */
  lemma DeliveryTells(row: Row, expectedSha: string, answers: Answers)
    requires row.headSha == expectedSha && row.status in {AnalysisPending, InProgress, PublishFailed} && answers.publish.Some?
    requires (row.status == PublishFailed && row.evidence.Some?) || answers.result.Some?
    ensures var after, told := AfterDelivery(row, expectedSha, true, answers), ChecksOfDelivery(row, expectedSha, true, answers);
      && after.status == AnalysisCompleted && after.evidence.Some? && after.checkRunId.Some? && told != []
      && after.evidence == (if row.status == PublishFailed && row.evidence.Some? then row.evidence else answers.result)
      && told[|told| - 1] == Check(after.checkRunId.value, row.headSha, Some(
           match after.evidence.value.decision case Pass => SuccessConclusion case Warn => NeutralConclusion case Block => FailureConclusion))
      && (RepublishesOnly(row) ==> |told| == 1 && (row.checkRunId.Some? ==> after.checkRunId == row.checkRunId))
      && (!RepublishesOnly(row) && answers.announce.Some? ==>
            after.checkRunId == answers.announce && told[0] == Check(answers.announce.value, row.headSha, None))
  {
  }

  /** The moves of one delivery. */
  function DeliveryMoves(row: Row, expectedSha: string, mapped: bool, answers: Answers): seq<Action> {
    [Deliver(expectedSha, mapped)]
    + (if RepublishesOnly(row) then [] else [Github(answers.announce), Commit, Pipeline(answers.result)])
    + [Github(answers.publish), Commit]
  }

  lemma RepublishIsARun(d: Desk, expectedSha: string, mapped: bool, answers: Answers)
    requires Inv(d) && d.phase.Idle? && RepublishesOnly(d.row)
    ensures Step(Step(Step(d, Deliver(expectedSha, mapped)), Github(answers.publish)), Commit) ==
      Desk(AfterDelivery(d.row, expectedSha, mapped, answers),
           d.checks + ChecksOfDelivery(d.row, expectedSha, mapped, answers), Idle)
  {
    hide ConclusionOf;
  }

  /** Up to the pipeline's result: the row is in progress, with the announced check if GitHub took it. */
  lemma AnnounceSteps(d: Desk, expectedSha: string, announce: Option<int>)
    requires Inv(d) && d.phase.Idle? && !RepublishesOnly(d.row)
    requires d.row.headSha == expectedSha && !IsTerminal(d.row.status)
    ensures Step(Step(Step(d, Deliver(expectedSha, true)), Github(announce)), Commit) ==
      Desk(Row(d.row.headSha, InProgress, d.row.evidence, if announce.Some? then announce else d.row.checkRunId),
           d.checks + if announce.Some? then [Check(announce.value, d.row.headSha, None)] else [], Computing)
  {
  }

  lemma ConcludeSteps(d: Desk, result: Option<Evidence>, publish: Option<int>)
    requires d.phase.Computing?
    ensures Step(Step(Step(d, Pipeline(result)), Github(publish)), Commit) ==
      if result.None? then Desk(d.row.(status := AnalysisFailed), d.checks, Idle)
      else
        var row := d.row.(evidence := result, status := AnalysisCompleted);
        Desk(AfterPublish(row, publish),
             d.checks + if publish.None? then [] else [CompletedCheck(row, CheckId(row, publish.value))], Idle)
  {
    hide ConclusionOf;
  }

  lemma IgnoredStays(d: Desk, a: Action)
    requires d.phase.Idle? && !a.Deliver?
    ensures Step(d, a) == d
  {
  }

  /** The service's undisturbed delivery is one of the crash-prone system's runs. */
  lemma DeliveryIsARun(d: Desk, expectedSha: string, mapped: bool, answers: Answers)
    requires Inv(d) && d.phase.Idle?
    ensures Run(d, DeliveryMoves(d.row, expectedSha, mapped, answers)) ==
      Desk(AfterDelivery(d.row, expectedSha, mapped, answers),
           d.checks + ChecksOfDelivery(d.row, expectedSha, mapped, answers), Idle)
  {
    hide Run, ConclusionOf, Conclude, AnswerFromGithub, CommitCheckId;
    var first, announce, publish := Deliver(expectedSha, mapped), Github(answers.announce), Github(answers.publish);
    if RepublishesOnly(d.row) {
      assert DeliveryMoves(d.row, expectedSha, mapped, answers) == [first, publish, Commit];
      ThreeActions(d, first, publish, Commit);
      RepublishIsARun(d, expectedSha, mapped, answers);
    } else {
      var front, back := [first, announce, Commit], [Pipeline(answers.result), publish, Commit];
      assert DeliveryMoves(d.row, expectedSha, mapped, answers) == front + back;
      RunConcat(d, front, back);
      ThreeActions(d, first, announce, Commit);
      var s3 := Step(Step(Step(d, first), announce), Commit);
      ThreeActions(s3, Pipeline(answers.result), publish, Commit);
      FullDelivery(d, expectedSha, mapped, answers);
    }
  }

  lemma FullDelivery(d: Desk, expectedSha: string, mapped: bool, answers: Answers)
    requires Inv(d) && d.phase.Idle? && !RepublishesOnly(d.row)
    ensures var s3 := Step(Step(Step(d, Deliver(expectedSha, mapped)), Github(answers.announce)), Commit);
      Step(Step(Step(s3, Pipeline(answers.result)), Github(answers.publish)), Commit) ==
        Desk(AfterDelivery(d.row, expectedSha, mapped, answers),
             d.checks + ChecksOfDelivery(d.row, expectedSha, mapped, answers), Idle)
  {
    if d.row.headSha != expectedSha || IsTerminal(d.row.status) || !mapped {
      assert Step(d, Deliver(expectedSha, mapped)) == d;
      hide Step;
      IgnoredStays(d, Github(answers.announce));
      IgnoredStays(d, Commit);
      IgnoredStays(d, Pipeline(answers.result));
      IgnoredStays(d, Github(answers.publish));
    } else {
      hide Step, ConclusionOf;
      var s3 := Step(Step(Step(d, Deliver(expectedSha, mapped)), Github(answers.announce)), Commit);
      AnnounceSteps(d, expectedSha, answers.announce);
      ConcludeSteps(s3, answers.result, answers.publish);
    }
  }

  lemma ThreeActions(d: Desk, a: Action, b: Action, c: Action)
    ensures Run(d, [a, b, c]) == Step(Step(Step(d, a), b), c)
  {
    hide Step;
    assert [a, b, c][1..] == [b, c];
    TwoActions(Step(d, a), b, c);
  }

  lemma {:induction false} RunConcat(d: Desk, a: seq<Action>, b: seq<Action>)
    ensures Run(d, a + b) == Run(Run(d, a), b)
    decreases |a|
  {
    hide Step;
    if a == [] {
      assert a + b == b;
    } else {
      assert (a + b)[0] == a[0] && (a + b)[1..] == a[1..] + b;
      RunConcat(Step(d, a[0]), a[1..], b);
    }
  }

  /** Recovery: whatever happened before, once the row is at rest and neither COMPLETED nor FAILED, one more delivery of
      its commit that GitHub and the pipeline answer brings it to COMPLETED with its verdict told. */
  lemma RedeliveryRecovers(headSha: string, before: seq<Action>, answers: Answers)
    requires var d := Run(Start(headSha), before); d.phase.Idle? && d.row.status !in {AnalysisCompleted, AnalysisFailed}
    requires answers.result.Some? && answers.publish.Some?
    ensures var d := Run(Start(headSha), before);
      var e := Run(d, DeliveryMoves(d.row, headSha, true, answers));
      && e.phase.Idle? && e.row.status == AnalysisCompleted && Told(e)
      && (d.row.evidence.None? ==> e.row.evidence == answers.result)
  {
    var d := Run(Start(headSha), before);
    RunKeepsInv(Start(headSha), before);
    hide Run, Told;
    DeliveryIsARun(d, headSha, true, answers);
    DeliveryTells(d.row, headSha, answers);
    var e := Run(d, DeliveryMoves(d.row, headSha, true, answers));
    LastIsTold(e, d.checks, ChecksOfDelivery(d.row, headSha, true, answers));
  }

  lemma LastIsTold(d: Desk, before: seq<Check>, told: seq<Check>)
    requires d.checks == before + told && told != [] && told[|told| - 1].conclusion.Some?
    ensures Told(d)
  {
    assert d.checks[|d.checks| - 1] == told[|told| - 1];
  }
}
