/** Trajectory events, replay plan steps and recorded replay steps. Identifiers stand for UUIDs,
    whose textual order is their numeric order. */
module ReplayModel {
  import opened JsonValues
  import opened Options

  type Id = int

  datatype EventType =
    | RunStarted | RunCompleted | RunFailed | AgentStarted | AgentCompleted
    | ModelRequest | ModelResponse | ToolCall | ToolResponse
    | McpRequest | McpResponse | ApiRequest | ApiResponse
    | StateRead | StateWrite | Decision | StructuredOutput | ErrorEvent

  /** What the integrity hash of an event covers besides its trajectory and sequence number. */
  datatype EventContent = EventContent(
    eventType: EventType,
    componentVersionId: Option<Id>,
    input: Json,
    output: Json,
    error: Json)

  /** The hash of one trajectory's event, taken to be injective on the fields it covers. */
  datatype Digest = Digest(sequenceNumber: int, content: EventContent)

  /** One recorded trajectory event. */
  datatype Event = Event(
    id: Id,
    sequenceNumber: int,
    parent: Option<Id>,
    externalId: Option<string>,
    componentId: Option<Id>,
    content: EventContent,
    digest: Digest)

  datatype StepKind = ReusedEvidence | SubstitutedExecution | ProviderExecutionRequired | SkippedStep

  datatype StepStatus = Reused | Executed | Failed | Skipped | ProviderRequired

  /** One recorded step of a replay run, as the differential analyzer reads it. */
  datatype ReplayStep = ReplayStep(
    id: Id,
    sequenceNumber: int,
    sourceEventId: Id,
    kind: StepKind,
    status: StepStatus,
    componentId: Option<Id>,
    componentVersionId: Option<Id>,
    input: Json,
    output: Json,
    error: Json,
    durationMs: Option<int>)
}
