/** The durable entries of one turn, and what published events promise about them. */
module TurnLog {
  import opened Wrappers
  import opened Identifiers
  import opened RuntimeEvents
  import Protocol = KernelProtocol
  import Kernel

  /** What became of one call of a batch. */
  datatype Slot = Done(outcome: Protocol.ToolOutcome) | Stopped | Unstarted

  datatype Outcome = SucceededTurn | FailedTurn | CancelledTurn(reason: CancelReason)

  datatype Entry =
    | OperationStartedEntry(operation: OperationId)
    | TurnStartedEntry(turn: TurnId)
    | UserEntry(user: Protocol.UserMessage)
    | BatchEntry(call: ModelCallId, batch: ToolBatchId, blocks: seq<Protocol.AssistantBlock>)
    | ResultEntry(batch: ToolBatchId, callId: ToolCallId, slot: Slot)
    | AssistantEntry(texts: seq<string>)
    | FailureEntry(failure: Protocol.TurnFailure)
    | TerminatedEntry(outcome: Outcome)
    | SettledEntry(outcome: Outcome)

  /** The kernel message an entry stores. */
  function Message(e: Entry): seq<Protocol.TurnMessage> {
    match e
    case UserEntry(user) => [Protocol.FromUser(user)]
    case BatchEntry(_, batch, blocks) => [Protocol.AssistantToolCalls(batch, blocks)]
    case ResultEntry(_, callId, Done(outcome)) => [Protocol.FromTool(Protocol.ToolResult(callId, outcome))]
    case _ => []
  }

  /** The conversation a log stores. */
  function Stored(log: seq<Entry>): seq<Protocol.TurnMessage> {
    if log == [] then [] else Stored(log[..|log| - 1]) + Message(log[|log| - 1])
  }

  lemma StoredSnoc(log: seq<Entry>, e: Entry)
    ensures Stored(log + [e]) == Stored(log) + Message(e)
  {
    assert (log + [e])[..|log|] == log;
  }

  lemma StoredStart(a: Entry, b: Entry, user: Protocol.UserMessage)
    requires Message(a) == [] && Message(b) == []
    ensures Stored([a, b, UserEntry(user)]) == [Protocol.FromUser(user)]
  {
    StoredSnoc([], a);
    StoredSnoc([] + [a], b);
    StoredSnoc([] + [a] + [b], UserEntry(user));
    assert [] + [a] + [b] + [UserEntry(user)] == [a, b, UserEntry(user)];
  }

  /** One durable slot per call, in call order. */
  function Marks(batch: ToolBatchId, calls: seq<Protocol.ToolCall>, slots: seq<Slot>): (es: seq<Entry>)
    requires |calls| == |slots|
    ensures |es| == |calls|
    ensures forall i :: 0 <= i < |calls| ==> es[i] == ResultEntry(batch, calls[i].id, slots[i])
  {
    seq(|calls|, i requires 0 <= i < |calls| => ResultEntry(batch, calls[i].id, slots[i]))
  }

  predicate AllDone(slots: seq<Slot>) {
    forall i :: 0 <= i < |slots| ==> slots[i].Done?
  }

  function Results(calls: seq<Protocol.ToolCall>, slots: seq<Slot>): (rs: seq<Protocol.ToolResult>)
    requires |calls| == |slots| && AllDone(slots)
    ensures |rs| == |calls|
    ensures forall i :: 0 <= i < |calls| ==> rs[i] == Protocol.ToolResult(calls[i].id, slots[i].outcome)
  {
    seq(|calls|, i requires 0 <= i < |calls| => Protocol.ToolResult(calls[i].id, slots[i].outcome))
  }

  lemma {:induction false} StoredResults(log: seq<Entry>, batch: ToolBatchId, calls: seq<Protocol.ToolCall>, slots: seq<Slot>)
    requires |calls| == |slots| && AllDone(slots)
    ensures Stored(log + Marks(batch, calls, slots)) == Stored(log) + Kernel.ResultMessages(Results(calls, slots))
  {
    hide Stored, Marks, Results, Kernel.ResultMessages;
    if calls == [] {
      NoResults(log, batch, calls, slots);
    } else {
      var n := |calls| - 1;
      var init, entry := Marks(batch, calls[..n], slots[..n]), ResultEntry(batch, calls[n].id, slots[n]);
      StoredResults(log, batch, calls[..n], slots[..n]);
      StoredSnoc(log + init, entry);
      OneMoreResult(log, batch, calls, slots);
    }
  }

  lemma NoResults(log: seq<Entry>, batch: ToolBatchId, calls: seq<Protocol.ToolCall>, slots: seq<Slot>)
    requires |calls| == |slots| && calls == [] && AllDone(slots)
    ensures log + Marks(batch, calls, slots) == log && Kernel.ResultMessages(Results(calls, slots)) == []
  {
  }

  lemma OneMoreResult(log: seq<Entry>, batch: ToolBatchId, calls: seq<Protocol.ToolCall>, slots: seq<Slot>)
    requires |calls| == |slots| && calls != [] && AllDone(slots)
    ensures var n := |calls| - 1;
            && AllDone(slots[..n])
            && log + Marks(batch, calls, slots) == log + Marks(batch, calls[..n], slots[..n]) + [ResultEntry(batch, calls[n].id, slots[n])]
            && Kernel.ResultMessages(Results(calls, slots))
               == Kernel.ResultMessages(Results(calls[..n], slots[..n])) + [Protocol.FromTool(Protocol.ToolResult(calls[n].id, slots[n].outcome))]
  {
    hide Stored;
  }

  function TextsOf(blocks: seq<Protocol.AssistantBlock>): seq<string> {
    if blocks == [] then []
    else (if blocks[0].Text? then [blocks[0].text] else []) + TextsOf(blocks[1..])
  }

  function Concat(texts: seq<string>): string {
    if texts == [] then "" else texts[0] + Concat(texts[1..])
  }

  // ---- publication ----

  /** An event that announces something durable finds it in the log. */
  predicate Backed(event: AgentEvent, log: seq<Entry>) {
    match event
    case ToolBatchRequested(batch, count) =>
      exists e :: e in log && e.BatchEntry? && e.batch.value == batch && |Protocol.Calls(e.blocks)| == count
    case ToolExecutionCompleted(callId, result) =>
      exists e :: e in log && e.ResultEntry? && e.callId == callId && e.slot.Done? && Shown(e.slot.outcome) == result
    case AssistantMessageCompleted(_, message) => exists e :: e in log && e.AssistantEntry? && Concat(e.texts) == message
    case TurnFailed(_, failure) => exists e :: e in log && e.FailureEntry? && e.failure.message == failure
    case TurnCancelled(_, reason) => TerminatedEntry(CancelledTurn(reason)) in log
    case _ => true
  }

  function Shown(outcome: Protocol.ToolOutcome): string {
    match outcome
    case ToolSuccess(content) => content
    case ToolError(_, message) => message
  }

  ghost predicate AllBacked(published: seq<AgentEvent>, log: seq<Entry>) {
    forall e :: e in published ==> Backed(e, log)
  }

  predicate Unsettled(published: seq<AgentEvent>, log: seq<Entry>) {
    && (forall e :: e in published ==> !e.AgentSettled?)
    && (forall e :: e in log ==> !e.SettledEntry? && !e.TerminatedEntry?)
  }

  lemma BackedGrows(published: seq<AgentEvent>, log: seq<Entry>, more: seq<Entry>)
    requires AllBacked(published, log)
    ensures AllBacked(published, log + more)
  {
    forall e | e in published ensures Backed(e, log + more) {
      assert Backed(e, log);
      match e
      case ToolBatchRequested(batch, count) =>
        var x :| x in log && x.BatchEntry? && x.batch.value == batch && |Protocol.Calls(x.blocks)| == count;
        assert x in log + more;
      case ToolExecutionCompleted(callId, result) =>
        var x :| x in log && x.ResultEntry? && x.callId == callId && x.slot.Done? && Shown(x.slot.outcome) == result;
        assert x in log + more;
      case AssistantMessageCompleted(_, message) =>
        var x :| x in log && x.AssistantEntry? && Concat(x.texts) == message;
        assert x in log + more;
      case TurnFailed(_, failure) =>
        var x :| x in log && x.FailureEntry? && x.failure.message == failure;
        assert x in log + more;
      case _ =>
    }
  }

  /** A model request, and the log as it was when the request went out. */
  datatype Request = Request(messages: seq<Protocol.TurnMessage>, durable: seq<Entry>)

  /** A batch of calls, and the log as it was when the first of them was started. */
  datatype Batch = Batch(calls: seq<Protocol.ToolCall>, durable: seq<Entry>)

  /** The model is only ever shown the conversation that is already durable, and tools only run
      for a request that is the last durable fact. */
  ghost predicate WriteAhead(requests: seq<Request>, batches: seq<Batch>) {
    && (forall i :: 0 <= i < |requests| ==> requests[i].messages == Stored(requests[i].durable))
    && (forall i :: 0 <= i < |batches| ==>
          && batches[i].durable != []
          && batches[i].durable[|batches[i].durable| - 1].BatchEntry?
          && Protocol.Calls(batches[i].durable[|batches[i].durable| - 1].blocks) == batches[i].calls)
  }
}
