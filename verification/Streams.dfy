/** The canonical stream vocabulary shared by providers, recovery and presentation
    (src/domain/contracts.ts). */
module StreamContract {
  import opened Common

  datatype Usage = Usage(inputTokens: Option<int>, outputTokens: Option<int>, cacheRead: Option<int>,
    cacheWrite: Option<int>)

  datatype StopReason = Completed | Length | ToolCall | ContentFilter | Error

  datatype StreamEvent =
    | MessageStart(id: string)
    | ThinkingDelta(text: string)
    | TextDelta(text: string)
    | ToolCallStart(callId: string, name: string)
    | ToolCallDelta(callId: string, delta: string)
    | ToolCallEnd(callId: string)
    | UsageReport(usage: Usage)
    | MessageStop(reason: StopReason)

  predicate IsTerminal(event: StreamEvent) {
    event.MessageStop?
  }

  /** Deltas that close the retry gate once they have been emitted. */
  predicate IsMeaningful(event: StreamEvent) {
    event.TextDelta? || event.ThinkingDelta? || event.ToolCallStart? || event.ToolCallDelta?
  }

  /** No event before the last one is terminal. */
  ghost predicate StopsAtTerminal(events: seq<StreamEvent>) {
    forall i :: 0 <= i < |events| - 1 ==> !IsTerminal(events[i])
  }
}
