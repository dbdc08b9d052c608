/** The coordinator's scheduling fields as one value, and the pure parts of its handlers. */
module CoordinatorState {
  import opened Wrappers
  import opened Identifiers
  import opened RuntimeEvents
  import opened EpochProtocol
  import Shutdown

  const DEFAULT_SHUTDOWN_TICKS: int := 5000

  datatype Active = Active(operationId: OperationId, turnId: TurnId, sessionId: SessionId,
                           cancel: Option<CancelReason>, lastCall: Option<ModelCallId>, started: bool)
  datatype Queued = Queued(operationId: OperationId, turnId: TurnId, sessionId: SessionId)
  datatype Maintenance = Maintenance(id: MaintenanceId, sessionId: SessionId, cancelRequested: bool)

  datatype Sched = Sched(
    active: Option<Active>,
    queue: seq<Queued>,
    maintenance: Option<Maintenance>,
    driverJoin: bool,
    maintenanceJoin: bool,
    level: Shutdown.Level,
    starts: seq<OperationId>)

  datatype AdmitResult = Admitted | QueueFull | Backpressured | ShuttingDown
  datatype CancelResult = AlreadySettled | CancelBackpressured | QueuedCancelled | TooLate | Requested | UnknownOperation
  datatype CompactionResult = CompactionAccepted | Unavailable | CompactionBackpressured | CompactionShuttingDown
  datatype DriverExit = ExitSucceeded | FailedConfirmed | FailedUnconfirmed | CancelledConfirmed | Panicked | Aborted

  function QueueIds(queue: seq<Queued>): (ids: seq<OperationId>)
    ensures |ids| == |queue|
    ensures forall i :: 0 <= i < |queue| ==> ids[i] == queue[i].operationId
  {
    seq(|queue|, i requires 0 <= i < |queue| => queue[i].operationId)
  }

  /** The first cancel reason wins. */
  function CancelActive(active: Option<Active>, reason: CancelReason): Option<Active> {
    if active.Some? && active.value.cancel.None?
    then Some(active.value.(cancel := Some(reason)))
    else active
  }

  function AbortChildren(s: Sched): Sched {
    s.(active := CancelActive(s.active, User),
       maintenance := if s.maintenance.Some? then Some(s.maintenance.value.(cancelRequested := true)) else None)
  }

  /** One shutdown request: leaving Running empties the queue, reaching Forced aborts the children. */
  function ShutdownStep(s: Sched, request: Shutdown.Request): Sched {
    var level := Shutdown.Begin(s.level, request);
    match s.level.state
    case Stopped => s
    case Running =>
      (var rejected := s.(level := level, queue := []);
       if request.mode.ForcedMode? then AbortChildren(rejected) else rejected)
    case Draining =>
      if request.mode.ForcedMode? then AbortChildren(s.(level := level)) else s.(level := level)
    case Forced => s.(level := level)
  }

  /** The scheduling effect of noticing that the consumer is gone. */
  function SinkLost(s: Sched, now: int): Sched {
    if s.level.state.Running?
    then ShutdownStep(s, Shutdown.Request(Shutdown.ForcedMode, now + DEFAULT_SHUTDOWN_TICKS))
    else s
  }

  /** The scheduling effect of a stretch of code in which the coordinator may have noticed it. */
  function React(s: Sched, was: bool, noticed: bool, now: int): Sched {
    if noticed && !was then SinkLost(s, now) else s
  }

  /** An operation starts driving. */
  function Spawned(s: Sched, next: Queued): Sched {
    s.(active := Some(Active(next.operationId, next.turnId, next.sessionId, None, None, false)),
       driverJoin := true,
       starts := s.starts + [next.operationId])
  }

  /** The next queued operation starts if the runtime is running and nothing else is. */
  function StartedNext(s: Sched, channelOpen: bool): Sched {
    if s.level.state.Running? && s.active.None? && s.maintenance.None? && !channelOpen && !s.driverJoin && s.queue != []
    then Spawned(s.(queue := s.queue[1..]), s.queue[0])
    else s
  }

  /** What the coordinator notes on its active operation when it forwards `agent`. */
  function Noted(s: Sched, agent: AgentEvent): Sched {
    if s.active.None? then s
    else if agent.ModelCallStarted? then s.(active := Some(s.active.value.(lastCall := Some(agent.modelCallId))))
    else if agent.OperationStarted? then s.(active := Some(s.active.value.(started := true)))
    else s
  }

  /** Never a driver and a maintenance task at once; operations start in acceptance order,
      none waits outside Running, and the running operation is the one started last. */
  ghost predicate SchedOk(s: Sched, accepted: seq<OperationId>) {
    && !(s.active.Some? && s.maintenance.Some?)
    && (s.driverJoin ==> s.active.Some?)
    && (s.maintenanceJoin ==> s.maintenance.Some?)
    && (s.active.Some? ==> s.starts != [] && s.starts[|s.starts| - 1] == s.active.value.operationId)
    && (!s.level.state.Running? ==> s.queue == [])
    && Subsequence(s.starts + QueueIds(s.queue), accepted)
    && NoDuplicates(s.starts + QueueIds(s.queue))
    && !s.level.state.Stopped?
  }

  ghost predicate NoDuplicates(ids: seq<OperationId>) {
    forall i, j :: 0 <= i < j < |ids| ==> ids[i] != ids[j]
  }

  // ---- order lemmas ----

  lemma {:induction false} SubsequenceMembers(xs: seq<OperationId>, ys: seq<OperationId>, x: OperationId)
    requires Subsequence(xs, ys) && x in xs
    ensures x in ys
    decreases |ys|
  {
    var zs := ys[..|ys| - 1];
    if Subsequence(xs, zs) {
      SubsequenceMembers(xs, zs, x);
    } else if x != xs[|xs| - 1] {
      assert xs == xs[..|xs| - 1] + [xs[|xs| - 1]];
      SubsequenceMembers(xs[..|xs| - 1], zs, x);
    }
  }

  /** Accepting one more operation, and perhaps letting it wait or start. */
  lemma SubsequenceSnoc(xs: seq<OperationId>, ys: seq<OperationId>, x: OperationId)
    requires Subsequence(xs, ys)
    ensures Subsequence(xs, ys + [x]) && Subsequence(xs + [x], ys + [x])
  {
    assert (ys + [x])[..|ys|] == ys;
    assert (xs + [x])[..|xs|] == xs;
  }

  lemma {:induction false} SubsequenceRemove(xs: seq<OperationId>, ys: seq<OperationId>, i: nat)
    requires Subsequence(xs, ys) && i < |xs|
    ensures Subsequence(xs[..i] + xs[i + 1..], ys)
    decreases |ys|
  {
    var zs := ys[..|ys| - 1];
    var fewer := xs[..i] + xs[i + 1..];
    if Subsequence(xs, zs) {
      SubsequenceRemove(xs, zs, i);
    } else {
      var init := xs[..|xs| - 1];
      if i == |xs| - 1 {
        assert fewer == init;
      } else {
        SubsequenceRemove(init, zs, i);
        assert fewer[..|fewer| - 1] == init[..i] + init[i + 1..];
      }
    }
  }

  lemma {:induction false} SubsequenceTake(xs: seq<OperationId>, ys: seq<OperationId>, n: nat)
    requires Subsequence(xs, ys) && n <= |xs|
    ensures Subsequence(xs[..n], ys)
    decreases |xs|
  {
    if n < |xs| {
      SubsequenceRemove(xs, ys, |xs| - 1);
      assert xs[..|xs| - 1] + xs[|xs|..] == xs[..|xs| - 1];
      SubsequenceTake(xs[..|xs| - 1], ys, n);
      assert xs[..|xs| - 1][..n] == xs[..n];
    } else {
      assert xs[..n] == xs;
    }
  }

  /** No operation is accepted twice. */
  lemma {:induction false} AcceptedOnce(b: Bounds, steps: seq<Step>)
    requires Legal(b, steps)
    ensures NoDuplicates(After(steps).accepted)
  {
    if steps != [] {
      AcceptedOnce(b, steps[..|steps| - 1]);
    }
  }

  /** Start order is acceptance order. */
  lemma {:induction false} StartsInAcceptanceOrder(starts: seq<OperationId>, accepted: seq<OperationId>, i: nat, j: nat)
    requires Subsequence(starts, accepted) && NoDuplicates(accepted) && i < j < |starts|
    ensures exists m, n :: 0 <= m < n < |accepted| && accepted[m] == starts[i] && accepted[n] == starts[j]
    decreases |accepted|
  {
    var before, last := accepted[..|accepted| - 1], |accepted| - 1;
    if Subsequence(starts, before) {
      StartsInAcceptanceOrder(starts, before, i, j);
    } else if j == |starts| - 1 {
      SubsequenceMembers(starts[..j], before, starts[i]);
      var m :| 0 <= m < |before| && before[m] == starts[i];
      assert accepted[m] == starts[i] && accepted[last] == starts[j];
    } else {
      StartsInAcceptanceOrder(starts[..|starts| - 1], before, i, j);
    }
  }

  lemma FreshSnoc(xs: seq<OperationId>, ys: seq<OperationId>, x: OperationId)
    requires Subsequence(xs, ys) && NoDuplicates(xs) && x !in ys
    ensures NoDuplicates(xs + [x])
  {
    forall i | 0 <= i < |xs| ensures xs[i] != x {
      if xs[i] == x {
        SubsequenceMembers(xs, ys, x);
      }
    }
  }

  lemma SpawnKeepsOk(s: Sched, next: Queued, accepted: seq<OperationId>)
    requires SchedOk(s, accepted) && s.active.None? && s.maintenance.None? && s.queue == []
    requires next.operationId !in accepted
    ensures SchedOk(Spawned(s, next), accepted + [next.operationId])
  {
    assert s.starts + QueueIds(s.queue) == s.starts;
    SubsequenceSnoc(s.starts, accepted, next.operationId);
    var t := Spawned(s, next);
    assert t.starts + QueueIds(t.queue) == s.starts + [next.operationId];
    FreshSnoc(s.starts, accepted, next.operationId);
    assert NoDuplicates(s.starts + [next.operationId]);
  }

  lemma EnqueueKeepsOk(s: Sched, next: Queued, accepted: seq<OperationId>)
    requires SchedOk(s, accepted) && s.level.state.Running?
    requires next.operationId !in accepted
    ensures SchedOk(s.(queue := s.queue + [next]), accepted + [next.operationId])
  {
    var all := s.starts + QueueIds(s.queue);
    SubsequenceSnoc(all, accepted, next.operationId);
    assert s.starts + QueueIds(s.queue + [next]) == all + [next.operationId];
    FreshSnoc(all, accepted, next.operationId);
  }

  lemma StartNextKeepsOk(s: Sched, channelOpen: bool, accepted: seq<OperationId>)
    requires SchedOk(s, accepted)
    ensures SchedOk(StartedNext(s, channelOpen), accepted)
  {
    if s.queue != [] {
      assert (s.starts + [s.queue[0].operationId]) + QueueIds(s.queue[1..]) == s.starts + QueueIds(s.queue);
    }
  }

  lemma ShutdownKeepsOk(s: Sched, request: Shutdown.Request, accepted: seq<OperationId>)
    requires SchedOk(s, accepted)
    ensures SchedOk(ShutdownStep(s, request), accepted)
  {
    hide Subsequence;
    var all := s.starts + QueueIds(s.queue);
    SubsequenceTake(all, accepted, |s.starts|);
    assert all[..|s.starts|] == s.starts == s.starts + QueueIds([]);
  }

  lemma DequeueKeepsOk(s: Sched, i: nat, accepted: seq<OperationId>)
    requires SchedOk(s, accepted) && i < |s.queue|
    ensures SchedOk(s.(queue := s.queue[..i] + s.queue[i + 1..]), accepted)
    ensures s.queue[i].operationId !in QueueIds(s.queue[..i] + s.queue[i + 1..])
    ensures s.active.Some? ==> s.active.value.operationId != s.queue[i].operationId
  {
    hide Subsequence;
    var all, k := s.starts + QueueIds(s.queue), |s.starts| + i;
    SubsequenceRemove(all, accepted, k);
    var rest := s.queue[..i] + s.queue[i + 1..];
    assert all[..k] + all[k + 1..] == s.starts + QueueIds(rest);
    assert all[k] == s.queue[i].operationId;
    assert s.active.Some? ==> all[|s.starts| - 1] == s.active.value.operationId;
    forall j | 0 <= j < |rest| ensures rest[j].operationId != s.queue[i].operationId {
      var m := if j < i then j else j + 1;
      assert rest[j] == s.queue[m] && all[|s.starts| + m] == rest[j].operationId;
    }
  }

  lemma PopFrontKeepsOk(s: Sched, accepted: seq<OperationId>)
    requires SchedOk(s, accepted) && s.queue != []
    ensures SchedOk(s.(queue := s.queue[1..]), accepted)
  {
    hide SchedOk;
    DequeueKeepsOk(s, 0, accepted);
    assert s.queue[..0] + s.queue[1..] == s.queue[1..];
  }

  lemma AcceptKeepsOk(s: Sched, accepted: seq<OperationId>, id: OperationId)
    requires SchedOk(s, accepted)
    ensures SchedOk(s, accepted + [id])
  {
    SubsequenceSnoc(s.starts + QueueIds(s.queue), accepted, id);
  }

  lemma CompactionKeepsOk(s: Sched, maintenance: Maintenance, accepted: seq<OperationId>)
    requires SchedOk(s, accepted) && IsIdle(s)
    ensures SchedOk(s.(maintenance := Some(maintenance), maintenanceJoin := true), accepted)
  {
  }

  predicate IsIdle(s: Sched) {
    s.active.None? && s.maintenance.None? && s.queue == []
  }

  /** Admission fails for a full queue behind other work, or for a full ledger. */
  function AdmissionResult(s: Sched, queueMax: nat, unsettled: nat, ledgerCap: nat): AdmitResult {
    if (!IsIdle(s) && |s.queue| >= queueMax) || unsettled >= ledgerCap then QueueFull else Admitted
  }

  function AvailabilityOf(active: Option<Active>, maintenance: Option<Maintenance>): Availability {
    if maintenance.Some? then Compacting(maintenance.value.sessionId)
    else if active.Some? then Busy(active.value.operationId)
    else Idle
  }

  datatype MaintenanceExit = ReportCompacted | ReportNothing | Errored | MaintenancePanic | MaintenanceAbort

  /** A requested cancellation turns a failure, or a report of nothing done, into Cancelled;
      a compaction that committed stays Compacted. */
  function MaintenanceOutcome(exit: MaintenanceExit, cancelRequested: bool): MaintenanceResult {
    match exit
    case ReportCompacted => Compacted
    case ReportNothing => if cancelRequested then MaintenanceCancelled else Compacted
    case Errored => if cancelRequested then MaintenanceCancelled else MaintenanceFailed
    case MaintenancePanic => MaintenancePanicked
    case MaintenanceAbort => MaintenanceCancelled
  }

  /** Where `id` waits in the queue. */
  function PositionOf(queue: seq<Queued>, id: OperationId): (i: int)
    ensures -1 <= i < |queue|
    ensures i >= 0 ==> queue[i].operationId == id && forall j :: 0 <= j < i ==> queue[j].operationId != id
    ensures i == -1 ==> forall j :: 0 <= j < |queue| ==> queue[j].operationId != id
  {
    if queue == [] then -1
    else if queue[0].operationId == id then 0
    else
      var i := PositionOf(queue[1..], id);
      if i == -1 then -1 else i + 1
  }
}
