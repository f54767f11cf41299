/** Building a replay plan: one step per event, substituting the invocations of one component version. */
module ReplayPlanner {
  import opened JsonValues
  import opened Options
  import opened Ordering
  import opened ReplayModel

  /** The component version replaced, and the version run in its place. */
  datatype Substitution = Substitution(component: Id, baseline: Id, candidate: Id)

  datatype PlanStep = PlanStep(
    sourceEventId: Id,
    sequenceNumber: int,
    eventType: EventType,
    kind: StepKind,
    componentId: Option<Id>,
    executionVersionId: Option<Id>,
    input: Json,
    output: Json)

  predicate IsInvocation(t: EventType) { t.ToolCall? || t.McpRequest? || t.ApiRequest? }

  predicate IsResponse(t: EventType) { t.ToolResponse? || t.McpResponse? || t.ApiResponse? }

  predicate NeedsProvider(t: EventType) { t.ModelRequest? || t.ModelResponse? }

  /** The string under `invocation_id`; anything else counts as absent. */
  function InvocationId(payload: Json): Option<string> {
    if payload.JObject? && "invocation_id" in payload.fields && payload.fields["invocation_id"].JString?
    then Some(payload.fields["invocation_id"].s)
    else None
  }

  /** Invokes the very component version being replaced. */
  predicate Substituted(e: Event, sub: Substitution) {
    && IsInvocation(e.content.eventType)
    && e.componentId == Some(sub.component) && e.content.componentVersionId == Some(sub.baseline)
  }

  /** Carries the string invocation id of an invocation substituted earlier. */
  predicate NamesSubstituted(events: seq<Event>, i: nat, sub: Substitution)
    requires i < |events|
  {
    && InvocationId(events[i].content.input).Some?
    && exists j :: 0 <= j < i && Substituted(events[j], sub)
         && InvocationId(events[j].content.input) == InvocationId(events[i].content.input)
  }

  /** Answers, by string invocation id, an invocation substituted earlier. */
  predicate Superseded(events: seq<Event>, i: nat, sub: Substitution)
    requires i < |events|
  {
    IsResponse(events[i].content.eventType) && NamesSubstituted(events, i, sub)
  }

  function KindAt(events: seq<Event>, i: nat, sub: Substitution): StepKind
    requires i < |events|
  {
    if Substituted(events[i], sub) then SubstitutedExecution
    else if Superseded(events, i, sub) then SkippedStep
    else if NeedsProvider(events[i].content.eventType) then ProviderExecutionRequired
    else ReusedEvidence
  }

  /** The candidate runs the substituted steps; reused evidence keeps its own version. */
  function StepOf(e: Event, kind: StepKind, sub: Substitution): PlanStep {
    PlanStep(e.id, e.sequenceNumber, e.content.eventType, kind,
      if kind.SubstitutedExecution? then Some(sub.component) else e.componentId,
      if kind.SubstitutedExecution? then Some(sub.candidate)
      else if kind.ReusedEvidence? then e.content.componentVersionId else None,
      e.content.input, e.content.output)
  }

  function PlanStepAt(events: seq<Event>, i: nat, sub: Substitution): PlanStep
    requires i < |events|
  {
    StepOf(events[i], KindAt(events, i, sub), sub)
  }

  predicate BySequence(a: Event, b: Event) { a.sequenceNumber <= b.sequenceNumber }

  function Ordered(events: seq<Event>): seq<Event> { StableSort(BySequence, events) }

  function PlanSteps(events: seq<Event>, sub: Substitution): (r: seq<PlanStep>)
    ensures |r| == |Ordered(events)|
    ensures forall i :: 0 <= i < |r| ==> r[i] == PlanStepAt(Ordered(events), i, sub)
  {
    seq(|Ordered(events)|, i requires 0 <= i < |Ordered(events)| => PlanStepAt(Ordered(events), i, sub))
  }

  /** No plan when nothing in the trajectory invokes the version being replaced. */
  function Plan(events: seq<Event>, sub: Substitution): Option<seq<PlanStep>> {
    if exists e :: e in events && Substituted(e, sub) then Some(PlanSteps(events, sub)) else None
  }

  function SubstitutedIds(events: seq<Event>, sub: Substitution): (ids: set<string>)
    ensures forall x :: x in ids <==>
      exists j :: 0 <= j < |events| && Substituted(events[j], sub) && InvocationId(events[j].content.input) == Some(x)
  {
    set j | 0 <= j < |events| && Substituted(events[j], sub) && InvocationId(events[j].content.input).Some?
      :: InvocationId(events[j].content.input).value
  }

  // ---------- the scan ----------

  lemma NextIds(events: seq<Event>, i: nat, sub: Substitution)
    requires i < |events|
    ensures SubstitutedIds(events[..i + 1], sub) == SubstitutedIds(events[..i], sub) +
      (if Substituted(events[i], sub) && InvocationId(events[i].content.input).Some?
       then {InvocationId(events[i].content.input).value} else {})
    ensures Superseded(events, i, sub) == (
        && IsResponse(events[i].content.eventType) && InvocationId(events[i].content.input).Some?
        && InvocationId(events[i].content.input).value in SubstitutedIds(events[..i], sub))
  {
    hide Substituted, InvocationId;
    var more, some := events[..i + 1], events[..i];
    assert forall j :: 0 <= j < i ==> more[j] == some[j] == events[j];
  }

  method BuildReplayPlan(events: seq<Event>, sub: Substitution) returns (plan: Option<seq<PlanStep>>)
    ensures plan == Plan(events, sub)
  {
    hide Substituted, Superseded, KindAt, StepOf, InvocationId, SubstitutedIds, StableSort;
    var ordered := Ordered(events);
    var ids: set<string> := {};
    var steps: seq<PlanStep> := [];
    var found := false;
    NoIds(sub);
    for i := 0 to |ordered|
      invariant ids == SubstitutedIds(ordered[..i], sub)
      invariant steps == PlanSteps(events, sub)[..i]
      invariant found <==> exists j :: 0 <= j < i && Substituted(ordered[j], sub)
    {
      var e := ordered[i];
      var step, nextIds := ClassifyEvent(ordered, i, ids, sub);
      if step.kind.SubstitutedExecution? { found := true; }
      ids := nextIds;
      steps := steps + [step];
    }
    MembersOfPermutation(ordered, events);
    assert found <==> exists e :: e in ordered && Substituted(e, sub) by {
      if e :| e in ordered && Substituted(e, sub) { var j :| 0 <= j < |ordered| && ordered[j] == e; }
    }
    assert steps == PlanSteps(events, sub);
    assert (exists e :: e in ordered && Substituted(e, sub)) <==> exists e :: e in events && Substituted(e, sub);
    plan := if found then Some(steps) else None;
  }

  lemma NoIds(sub: Substitution)
    ensures SubstitutedIds([], sub) == {}
  {
  }

  method ClassifyEvent(ordered: seq<Event>, i: nat, ids: set<string>, sub: Substitution)
    returns (step: PlanStep, nextIds: set<string>)
    requires i < |ordered| && ids == SubstitutedIds(ordered[..i], sub)
    ensures step == PlanStepAt(ordered, i, sub) && nextIds == SubstitutedIds(ordered[..i + 1], sub)
    ensures step.kind.SubstitutedExecution? <==> Substituted(ordered[i], sub)
  {
    NextIds(ordered, i, sub);
    hide Superseded, InvocationId, SubstitutedIds;
    var e := ordered[i];
    nextIds := ids;
    var kind := ReusedEvidence;
    if Substituted(e, sub) {
      kind := SubstitutedExecution;
      if InvocationId(e.content.input).Some? { nextIds := nextIds + {InvocationId(e.content.input).value}; }
    } else if IsResponse(e.content.eventType) && InvocationId(e.content.input).Some?
      && InvocationId(e.content.input).value in ids {
      kind := SkippedStep;
    } else if NeedsProvider(e.content.eventType) {
      kind := ProviderExecutionRequired;
    }
    step := StepOf(e, kind, sub);
  }

  // ---------- what a plan says ----------

  ghost predicate InOrder(plan: seq<PlanStep>) {
    forall i, j :: 0 <= i < j < |plan| ==> plan[i].sequenceNumber <= plan[j].sequenceNumber
  }

  function SourceOf(p: PlanStep): Id { p.sourceEventId }

  function EventId(e: Event): Id { e.id }

  /** One step per event, in sequence order, each step naming its own event. */
  lemma PlanCovers(events: seq<Event>, sub: Substitution)
    ensures |PlanSteps(events, sub)| == |events| && InOrder(PlanSteps(events, sub))
    ensures multiset(Mapped(SourceOf, PlanSteps(events, sub))) == multiset(Mapped(EventId, events))
  {
    hide Substituted, Superseded, KindAt, StableSort;
    var ordered, plan := Ordered(events), PlanSteps(events, sub);
    assert TotalPreorder(BySequence);
    StableSortSorts(BySequence, events);
    MappedPermutation(EventId, ordered, events);
    assert Mapped(SourceOf, plan) == Mapped(EventId, ordered);
  }

  lemma SameFirst(a: seq<Event>, b: seq<Event>)
    requires SortedBy(BySequence, a) && SortedBy(BySequence, b) && a != [] && b != []
    requires forall x :: x in a <==> x in b
    requires forall x, y :: x in a && y in a && x.sequenceNumber == y.sequenceNumber ==> x == y
    ensures a[0] == b[0]
  {
    assert a[0] in a && b[0] in b;
    assert a[0] in b && b[0] in a;
    var i :| 0 <= i < |b| && b[i] == a[0];
    var j :| 0 <= j < |a| && a[j] == b[0];
    assert BySequence(b[0], b[i]) && BySequence(a[0], a[j]);
  }

  /** Two orderings by a key no two elements share are the same list. */
  lemma {:induction false} OneOrder(a: seq<Event>, b: seq<Event>)
    requires multiset(a) == multiset(b) && SortedBy(BySequence, a) && SortedBy(BySequence, b)
    requires forall x, y :: x in a && y in a && x.sequenceNumber == y.sequenceNumber ==> x == y
    ensures a == b
  {
    MembersOfPermutation(a, b);
    if a != [] {
      SameFirst(a, b);
      assert SortedBy(BySequence, a[1..]) && SortedBy(BySequence, b[1..]);
      hide SortedBy, BySequence;
      assert a == [a[0]] + a[1..] && b == [b[0]] + b[1..];
      assert multiset(a[1..]) == multiset(b[1..]) by {
        assert multiset(a[1..]) == multiset(a) - multiset{a[0]};
        assert multiset(b[1..]) == multiset(b) - multiset{b[0]};
      }
      assert forall x :: x in a[1..] ==> x in a;
      OneOrder(a[1..], b[1..]);
    }
  }

  /** The plan never depends on the order in which the events are handed over. */
  lemma PlanIgnoresInsertionOrder(a: seq<Event>, b: seq<Event>, sub: Substitution)
    requires multiset(a) == multiset(b)
    requires forall x, y :: x in a && y in a && x.sequenceNumber == y.sequenceNumber ==> x == y
    ensures Plan(a, sub) == Plan(b, sub)
  {
    hide Substituted, Superseded, KindAt, StableSort;
    assert TotalPreorder(BySequence);
    StableSortSorts(BySequence, a);
    StableSortSorts(BySequence, b);
    MembersOfPermutation(Ordered(a), a);
    OneOrder(Ordered(a), Ordered(b));
    MembersOfPermutation(a, b);
  }

  /** A response is skipped exactly when an earlier substituted invocation carries the same string
      invocation id; every invocation of the replaced version, and nothing else, is executed anew. */
  lemma StepKinds(events: seq<Event>, i: nat, sub: Substitution)
    requires i < |events|
    ensures var e, p := Ordered(events)[i], PlanSteps(events, sub)[i];
      && p.sourceEventId == e.id && p.input == e.content.input
      && (p.kind.SubstitutedExecution? <==> Substituted(e, sub))
      && (p.kind.SkippedStep? <==> Superseded(Ordered(events), i, sub))
      && (p.executionVersionId == if p.kind.SubstitutedExecution? then Some(sub.candidate)
                                  else if p.kind.ReusedEvidence? then e.content.componentVersionId else None)
  {
    hide StableSort;
    var e := Ordered(events)[i];
    assert IsResponse(e.content.eventType) ==> !IsInvocation(e.content.eventType);
  }

  /** The payload carries this invocation id. */
  predicate Carries(payload: Json, id: string) {
    payload.JObject? && "invocation_id" in payload.fields && payload.fields["invocation_id"] == JString(id)
  }

  /** An invocation event of the very version being replaced, its type spelled out. */
  predicate InvokesBaseline(e: Event, sub: Substitution) {
    && e.content.eventType in {ToolCall, McpRequest, ApiRequest}
    && e.componentId == Some(sub.component) && e.content.componentVersionId == Some(sub.baseline)
  }

  /** Some earlier event invokes the replaced version under an id this event carries. */
  ghost predicate SharesInvocation(events: seq<Event>, i: nat, sub: Substitution)
    requires i < |events|
  {
    exists j, id :: 0 <= j < i && InvokesBaseline(events[j], sub)
      && Carries(events[j].content.input, id) && Carries(events[i].content.input, id)
  }

  lemma SharingExactly(events: seq<Event>, i: nat, sub: Substitution)
    requires i < |events|
    ensures NamesSubstituted(events, i, sub) <==> SharesInvocation(events, i, sub)
  {
    forall e: Event ensures Substituted(e, sub) <==> InvokesBaseline(e, sub) {}
    forall v, id ensures InvocationId(v) == Some(id) <==> Carries(v, id) {}
    hide InvocationId, Carries, Substituted, InvokesBaseline;
    if NamesSubstituted(events, i, sub) {
      var j :| 0 <= j < i && Substituted(events[j], sub) && InvocationId(events[j].content.input) == InvocationId(events[i].content.input);
      var id := InvocationId(events[i].content.input).value;
      assert Carries(events[j].content.input, id) && Carries(events[i].content.input, id);
    }
  }

  /** What a plan does with each event, type by type; and every step keeps its event's number, type, component, input
      and output. */
  lemma PlanStepExactly(events: seq<Event>, i: nat, sub: Substitution)
    requires i < |events|
    ensures var e, p := Ordered(events)[i], PlanSteps(events, sub)[i];
      && p.kind == (match e.content.eventType
                    case ToolCall => if InvokesBaseline(e, sub) then SubstitutedExecution else ReusedEvidence
                    case McpRequest => if InvokesBaseline(e, sub) then SubstitutedExecution else ReusedEvidence
                    case ApiRequest => if InvokesBaseline(e, sub) then SubstitutedExecution else ReusedEvidence
                    case ToolResponse => if SharesInvocation(Ordered(events), i, sub) then SkippedStep else ReusedEvidence
                    case McpResponse => if SharesInvocation(Ordered(events), i, sub) then SkippedStep else ReusedEvidence
                    case ApiResponse => if SharesInvocation(Ordered(events), i, sub) then SkippedStep else ReusedEvidence
                    case ModelRequest => ProviderExecutionRequired
                    case ModelResponse => ProviderExecutionRequired
                    case _ => ReusedEvidence)
      && p.sequenceNumber == e.sequenceNumber && p.eventType == e.content.eventType && p.componentId == e.componentId
      && p.input == e.content.input && p.output == e.content.output
  {
    SharingExactly(Ordered(events), i, sub);
    hide StableSort, NamesSubstituted, SharesInvocation;
  }

  predicate Answers(response: EventType, request: EventType) {
    || (request.ToolCall? && response.ToolResponse?)
    || (request.McpRequest? && response.McpResponse?)
    || (request.ApiRequest? && response.ApiResponse?)
  }

  /** Event i is the next response in sequence to the request j. */
  ghost predicate IsNextResponse(events: seq<Event>, j: nat, i: nat) {
    && j < i < |events| && Answers(events[i].content.eventType, events[j].content.eventType)
    && forall k :: j < k < i ==> !Answers(events[k].content.eventType, events[j].content.eventType)
  }

  /** Whatever the protocol, the next response to a substituted request is not skipped for its position,
      but exactly when its string invocation id is that of some substituted invocation before it; without
      one it stays reused evidence. */
  lemma NextResponseIsNotPaired(events: seq<Event>, j: nat, i: nat, sub: Substitution)
    requires IsNextResponse(Ordered(events), j, i) && Substituted(Ordered(events)[j], sub)
    ensures Plan(events, sub).Some?
    ensures var ordered, kind := Ordered(events), Plan(events, sub).value[i].kind;
      && (kind.SkippedStep? <==> NamesSubstituted(ordered, i, sub))
      && (!kind.SkippedStep? ==> kind.ReusedEvidence?)
  {
    hide StableSort, InvocationId;
    MembersOfPermutation(Ordered(events), events);
    assert Ordered(events)[j] in Ordered(events);
  }

  /** And for each protocol such a response exists: the pairing by position fails as soon as ids are missing. */
  lemma SomeNextResponseIsReused(request: Event, response: Event, sub: Substitution)
    requires Substituted(request, sub) && Answers(response.content.eventType, request.content.eventType)
    requires request.sequenceNumber <= response.sequenceNumber && InvocationId(response.content.input).None?
    ensures IsNextResponse(Ordered([request, response]), 0, 1)
    ensures Plan([request, response], sub).Some? && Plan([request, response], sub).value[1].kind.ReusedEvidence?
  {
    var events := [request, response];
    assert [request, response][1..] == [response] && [response][1..] == [];
    assert Ordered(events) == events;
    assert events[0] == request && events[1] == response;
    hide StableSort, InvocationId;
    NextResponseIsNotPaired(events, 0, 1, sub);
  }
}
