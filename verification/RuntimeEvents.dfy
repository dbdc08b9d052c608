/**
 The events of one runtime epoch and the identifiers they carry. Payloads that no
 decision of the runtime reads are kept as opaque strings.
 */
module RuntimeEvents {
  import opened Wrappers
  import opened Identifiers

  datatype OperationStatus = Succeeded | Failed | Cancelled
  datatype SettlementDurability = Confirmed | Unconfirmed
  datatype SettlementRevision = Unchanged | Committed(revision: nat)
  datatype CancelReason = User | Timeout

  /** Text is kept in bytes: the merge limit is a byte count. */
  type Text = seq<bv8>

  datatype AgentEvent =
    | OperationQueued(operationId: OperationId)
    | OperationStarted(operationId: OperationId)
    | TurnStarted(turnId: TurnId)
    | PriorTurnSealed(turnId: TurnId)
    | ContextCompaction(detail: string)
    | ModelCallStarted(modelCallId: ModelCallId)
    | ModelResponseStarted(modelCallId: ModelCallId)
    | ModelRetryScheduled(modelCallId: ModelCallId, attempt: nat)
    | TextDelta(delta: Text)
    | ReasoningDelta(modelCallId: ModelCallId, text: Text)
    | ModelUsageUpdated(modelCallId: ModelCallId, usage: nat)
    | ToolExecutionStarted(toolCallId: ToolCallId)
    | ToolExecutionProgress(toolCallId: ToolCallId, tail: string)
    | ToolExecutionCompleted(toolCallId: ToolCallId, result: string)
    | ToolBatchRequested(toolBatchId: string, callCount: nat)
    | AssistantMessageCompleted(turnId: TurnId, message: string)
    | TurnFailed(turnId: TurnId, failure: string)
    | TurnCancelled(turnId: TurnId, reason: CancelReason)
    | CancellationRequested(operationId: OperationId, reason: CancelReason)
    | AgentSettled(operationId: OperationId, status: OperationStatus,
                   durability: SettlementDurability, revision: SettlementRevision)

  datatype Availability = Idle | Busy(operationId: OperationId) | Compacting(sessionId: SessionId)
  datatype MaintenanceResult = Compacted | MaintenanceFailed | MaintenanceCancelled | MaintenancePanicked
  datatype EpochEndReason = Shutdown | CoordinatorFault | EventSinkClosed

  datatype Event =
    | OperationAccepted(operationId: OperationId, sessionId: SessionId, turnId: TurnId)
    | OperationSettled(operationId: OperationId, sessionId: SessionId, status: OperationStatus,
                       durability: SettlementDurability, revision: SettlementRevision)
    | Agent(agent: AgentEvent)
    | AvailabilityChanged(availability: Availability, queued: nat)
    | MaintenanceAccepted(id: MaintenanceId, sessionId: SessionId)
    | MaintenanceStarted(id: MaintenanceId)
    | MaintenanceProgress(id: MaintenanceId, progress: string)
    | MaintenanceSettled(id: MaintenanceId, sessionId: SessionId, result: MaintenanceResult)
    | RuntimeFault(message: string)
    | EpochEnded(reason: EpochEndReason, forcedCount: nat)

  /** The transient kinds a driver coalesces instead of sending. */
  predicate IsTransientAgent(agent: AgentEvent) {
    agent.TextDelta? || agent.ReasoningDelta? || agent.ModelUsageUpdated? || agent.ToolExecutionProgress?
  }

  /** Mergeable events live in the coalescer and never enter reliable staging. */
  predicate IsMergeable(event: Event) {
    (event.Agent? && IsTransientAgent(event.agent)) || event.AvailabilityChanged? || event.MaintenanceProgress?
  }

  /** Reliable events that are staged without first flushing what waits before them. */
  predicate IsPrefixReliable(event: Event) {
    || event.OperationAccepted? || event.MaintenanceAccepted? || event.MaintenanceStarted?
    || (event.Agent? && match event.agent
        case OperationStarted(_) | OperationQueued(_) | PriorTurnSealed(_) | ContextCompaction(_)
           | TurnStarted(_) | ModelCallStarted(_) | ModelResponseStarted(_) | ToolExecutionStarted(_) => true
        case _ => false)
  }

  /** The reliable part of a sequence of sent events. */
  function Reliable(es: seq<Event>): seq<Event> {
    if es == [] then []
    else
      var init := Reliable(es[..|es| - 1]);
      var last := es[|es| - 1];
      if IsMergeable(last) then init else init + [last]
  }

  lemma ReliableSnoc(es: seq<Event>, e: Event)
    ensures Reliable(es + [e]) == if IsMergeable(e) then Reliable(es) else Reliable(es) + [e]
  {
    assert (es + [e])[..|es|] == es;
  }

  lemma {:induction false} ReliableMembers(es: seq<Event>, e: Event)
    ensures e in Reliable(es) <==> e in es && !IsMergeable(e)
  {
    if es != [] {
      assert es == es[..|es| - 1] + [es[|es| - 1]];
      ReliableMembers(es[..|es| - 1], e);
    }
  }

  lemma {:induction false} ReliableOfPrefix(es: seq<Event>, n: nat)
    requires n <= |es|
    ensures |Reliable(es[..n])| <= |Reliable(es)|
    decreases |es|
  {
    if n < |es| {
      ReliableOfPrefix(es[..|es| - 1], n);
      assert es[..|es| - 1][..n] == es[..n];
    } else {
      assert es[..n] == es;
    }
  }

  predicate Settles(e: Event, id: OperationId) {
    e.OperationSettled? && e.operationId == id
  }

  /** How many events of `es` settle `id`. */
  function Count(es: seq<Event>, id: OperationId): nat {
    if es == [] then 0
    else Count(es[..|es| - 1], id) + if Settles(es[|es| - 1], id) then 1 else 0
  }

  lemma CountSnoc(es: seq<Event>, e: Event, id: OperationId)
    ensures Count(es + [e], id) == Count(es, id) + if Settles(e, id) then 1 else 0
  {
    assert (es + [e])[..|es|] == es;
  }

  lemma {:induction false} CountConcat(a: seq<Event>, b: seq<Event>, id: OperationId)
    ensures Count(a + b, id) == Count(a, id) + Count(b, id)
    decreases |b|
  {
    if b == [] {
      assert a + b == a;
    } else {
      var init, last := b[..|b| - 1], b[|b| - 1];
      assert a + b == (a + init) + [last];
      CountSnoc(a + init, last, id);
      CountConcat(a, init, id);
    }
  }

  lemma {:induction false} CountZero(es: seq<Event>, id: OperationId)
    ensures Count(es, id) == 0 <==> forall e :: e in es ==> !Settles(e, id)
  {
    if es != [] {
      var init, last := es[..|es| - 1], es[|es| - 1];
      CountZero(init, id);
      assert es == init + [last];
    }
  }

  lemma {:induction false} SettledByOne(es: seq<Event>, id: OperationId, x: Event, y: Event)
    requires Count(es, id) <= 1 && x in es && y in es && Settles(x, id) && Settles(y, id)
    ensures x == y
  {
    var init, last := es[..|es| - 1], es[|es| - 1];
    assert es == init + [last];
    CountZero(init, id);
    if !Settles(last, id) {
      SettledByOne(init, id, x, y);
    }
  }

  /** The operations settled by `es`, oldest settlement first. */
  function SettledOrder(es: seq<Event>): seq<OperationId> {
    if es == [] then []
    else
      var init, last := SettledOrder(es[..|es| - 1]), es[|es| - 1];
      if last.OperationSettled? then init + [last.operationId] else init
  }

  lemma SettledOrderSnoc(es: seq<Event>, e: Event)
    ensures SettledOrder(es + [e]) == SettledOrder(es) + if e.OperationSettled? then [e.operationId] else []
  {
    assert (es + [e])[..|es|] == es;
  }

  lemma {:induction false} SettledOrderCounts(es: seq<Event>, id: OperationId)
    ensures id in SettledOrder(es) <==> Count(es, id) > 0
    ensures Count(Reliable(es), id) == Count(es, id) && SettledOrder(Reliable(es)) == SettledOrder(es)
  {
    if es != [] {
      var init, last := es[..|es| - 1], es[|es| - 1];
      SettledOrderCounts(init, id);
      if !IsMergeable(last) {
        CountSnoc(Reliable(init), last, id);
        SettledOrderSnoc(Reliable(init), last);
      }
    }
  }

  lemma {:induction false} SettledOrderConcat(a: seq<Event>, b: seq<Event>)
    ensures SettledOrder(a + b) == SettledOrder(a) + SettledOrder(b)
    decreases |b|
  {
    if b == [] {
      assert a + b == a;
    } else {
      var init, last := b[..|b| - 1], b[|b| - 1];
      assert a + b == (a + init) + [last];
      SettledOrderConcat(a, init);
      SettledOrderSnoc(a + init, last);
    }
  }

  /** How many settlements `es` holds behind the last one of `id`. */
  function SettledSince(es: seq<Event>, id: OperationId): nat {
    if es == [] || Settles(es[|es| - 1], id) then 0
    else SettledSince(es[..|es| - 1], id) + if es[|es| - 1].OperationSettled? then 1 else 0
  }
}
