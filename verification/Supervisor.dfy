/**
 The supervisor of one epoch. Once the coordinator has returned or panicked it drains what
 is left in the shared objects, settles the remaining operations by force and announces the
 end, all through the same outlet.
 */
module Supervisor {
  import opened Wrappers
  import opened Identifiers
  import opened RuntimeEvents
  import opened EpochProtocol
  import opened Staging
  import opened Ledger
  import opened Outlet
  import Coordinator
  import Steps = CoordinatorSteps

  /** How the coordinator task ended. */
  datatype Outcome = Finalized(exit: Exit) | CoordinatorPanicked

  /** The exit to apply: a panic is a fault, and a maintenance task nobody ended is taken over
      from the children the coordinator left behind. */
  function ExitOf(outcome: Outcome, children: Option<(MaintenanceId, SessionId)>, late: seq<string>): Exit {
    match outcome
    case Finalized(exit) =>
      Exit(exit.reason, exit.faults + late, if exit.maintenance.None? then children else exit.maintenance)
    case CoordinatorPanicked => Exit(CoordinatorFault, late, children)
  }

  /** The ids settled by the events of `es`. */
  method CollectSettled(es: seq<Event>) returns (settled: set<OperationId>)
    ensures settled == SettledIds(es)
  {
    settled := {};
    for i := 0 to |es|
      invariant settled == SettledIds(es[..i])
    {
      assert es[..i + 1] == es[..i] + [es[i]];
      if es[i].OperationSettled? {
        settled := settled + {es[i].operationId};
      }
    }
    assert es[..|es|] == es;
  }

  /** The leftover entries that no staged event settles. */
  method FilterForced(leftover: seq<LedgerEntry>, settled: set<OperationId>) returns (forced: seq<LedgerEntry>)
    ensures forced == Drop(leftover, settled)
  {
    forced := [];
    for i := 0 to |leftover|
      invariant forced == Drop(leftover[..i], settled)
    {
      assert leftover[..i + 1][..i] == leftover[..i];
      if leftover[i].operationId !in settled {
        forced := forced + [leftover[i]];
      }
    }
    assert leftover[..|leftover|] == leftover;
  }

  /** The newest ids of `ids + more`, as many as the snapshot keeps. */
  function Newest(ids: seq<OperationId>, more: seq<OperationId>): seq<OperationId> {
    Steps.Recent(ids + more)
  }

  lemma NewestSnoc(ids: seq<OperationId>, more: seq<OperationId>, id: OperationId)
    ensures Newest(Newest(ids, more), [id]) == Newest(ids, more + [id])
  {
    assert ids + (more + [id]) == (ids + more) + [id];
  }

  /** Settles each of `forced` by force; the snapshot keeps the newest settlements only. */
  method ForceSettlements(forced: seq<LedgerEntry>, settledBefore: seq<OperationId>)
    returns (events: seq<Event>, lastSettled: seq<OperationId>)
    requires |settledBefore| <= Steps.LAST_SETTLED_MAX
    ensures events == ForcedEvents(forced) && lastSettled == Newest(settledBefore, Ids(forced))
  {
    hide Newest;
    events, lastSettled := [], settledBefore;
    NewestNothing(settledBefore);
    for i := 0 to |forced|
      invariant events == ForcedEvents(forced[..i])
      invariant lastSettled == Newest(settledBefore, Ids(forced[..i])) && |lastSettled| <= Steps.LAST_SETTLED_MAX
    {
      events := events + [ForcedEvent(forced[i])];
      assert Ids(forced[..i + 1]) == Ids(forced[..i]) + [forced[i].operationId];
      NewestSnoc(settledBefore, Ids(forced[..i]), forced[i].operationId);
      lastSettled := Remember(lastSettled, forced[i].operationId);
    }
    assert forced[..|forced|] == forced;
  }

  lemma NewestNothing(ids: seq<OperationId>)
    requires |ids| <= Steps.LAST_SETTLED_MAX
    ensures Newest(ids, Ids([])) == ids
  {
    assert ids + Ids([]) == ids;
  }

  method Remember(ids: seq<OperationId>, id: OperationId) returns (more: seq<OperationId>)
    requires |ids| <= Steps.LAST_SETTLED_MAX
    ensures more == Newest(ids, [id]) && |more| <= Steps.LAST_SETTLED_MAX
  {
    more := ids + [id];
    if |more| > Steps.LAST_SETTLED_MAX {
      more := more[1..];
    }
  }

  method ReportFaults(messages: seq<string>) returns (events: seq<Event>)
    ensures events == FaultEvents(messages)
  {
    events := [];
    for i := 0 to |messages|
      invariant events == FaultEvents(messages[..i])
    {
      events := events + [RuntimeFault(messages[i])];
    }
    assert messages[..|messages|] == messages;
  }

  /** Everything still to be sent, in order, and the settlements the last snapshot shows. */
  method BuildEvents(exit: Exit, staged: seq<Event>, forced: seq<LedgerEntry>, settledBefore: seq<OperationId>)
    returns (events: seq<Event>, lastSettled: seq<OperationId>)
    requires |settledBefore| <= Steps.LAST_SETTLED_MAX
    ensures events == staged + MaintenanceEvents(exit) + ForcedEvents(forced) + FaultEvents(exit.faults)
                      + [EpochEnded(exit.reason, |forced|)]
    ensures lastSettled == Newest(settledBefore, Ids(forced))
  {
    hide Newest;
    events := staged;
    if exit.maintenance.Some? {
      events := events + [MaintenanceSettled(exit.maintenance.value.0, exit.maintenance.value.1, MaintenanceCancelled)];
    }
    assert events == staged + MaintenanceEvents(exit);
    var settlements;
    settlements, lastSettled := ForceSettlements(forced, settledBefore);
    var faults := ReportFaults(exit.faults);
    events := events + settlements + faults + [EpochEnded(exit.reason, |forced|)];
  }

  /** Sends as many of `events` as the deadline and the consumer allow, in order. */
  method SendAll(outlet: EventOutlet, events: seq<Event>) returns (complete: bool, ghost n: nat)
    requires outlet.Valid()
    modifies outlet
    ensures outlet.Valid() && n <= |events| && outlet.sent == old(outlet.sent) + events[..n]
    ensures complete == (n == |events| || outlet.closed)
    ensures old(outlet.closed) ==> outlet.closed
  {
    n := 0;
    outlet.Consumer();
    if outlet.closed {
      return true, 0;
    }
    for i := 0 to |events|
      invariant outlet.Valid() && n == i && outlet.sent == old(outlet.sent) + events[..n]
      invariant old(outlet.closed) ==> outlet.closed
    {
      var result := outlet.SendBefore(events[i]);
      if result.Closed? {
        return true, n;
      }
      if result.Full? {
        return false, n;
      }
      assert events[..n + 1] == events[..n] + [events[i]];
      n := n + 1;
    }
    return true, n;
  }

  /** What the consumer got of the epilogue after the coordinator stopped in state `s`. */
  ghost predicate Supervised(s: Shared, exit: Exit, sent: seq<Event>, n: nat) {
    n <= |Epilogue(s, exit)| && sent == s.sent + Epilogue(s, exit)[..n]
  }

  /**
   The coordinator stopped after `steps`, in order or by a panic. The supervisor empties the
   shared objects and sends the epilogue: all of it, or as far as the deadline and the consumer
   let it. No operation is reported settled twice. With the whole epilogue sent, every accepted
   operation is reported settled once, except one whose settlement a panic caught in hand.
   */
  method SuperviseEpoch(staging: ReliableStaging, ledger: AcceptedLedger, outlet: EventOutlet,
                        outcome: Outcome, children: Option<(MaintenanceId, SessionId)>, late: seq<string>,
                        settledBefore: seq<OperationId>, ghost bounds: Bounds, ghost steps: seq<Step>)
    returns (complete: bool, forced: seq<LedgerEntry>, lastSettled: seq<OperationId>, ghost n: nat)
    requires staging.Valid() && ledger.Valid() && outlet.Valid() && |settledBefore| <= Steps.LAST_SETTLED_MAX
    requires Legal(bounds, steps)
    requires ledger.Contents() == After(steps).ledger && staging.queue == After(steps).staging
    requires outlet.sent == After(steps).sent && After(steps).open == !outlet.closed
    modifies staging, ledger, outlet
    ensures staging.Valid() && ledger.Valid() && outlet.Valid() && staging.queue == [] && ledger.Contents() == []
    ensures old(outlet.closed) ==> outlet.closed
    ensures forced == Forced(After(steps)) && lastSettled == Newest(settledBefore, Ids(forced))
    ensures Supervised(After(steps), ExitOf(outcome, children, late), outlet.sent, n)
    ensures complete == (n == |Epilogue(After(steps), ExitOf(outcome, children, late))| || outlet.closed)
    ensures forall id :: Count(outlet.sent, id) <= 1
    ensures complete && !outlet.closed ==>
              forall id :: Count(outlet.sent, id)
                == if id in After(steps).accepted && !(SettlementInHand(After(steps)) && After(steps).hand.value.operationId == id) then 1 else 0
  {
    var exit := ExitOf(outcome, children, late);
    var staged := staging.Drain();
    var leftover := ledger.TakeAll();
    var settled := CollectSettled(staged);
    forced := FilterForced(leftover, settled);
    var events;
    events, lastSettled := BuildEvents(exit, staged, forced, settledBefore);
    assert events == Epilogue(After(steps), exit);
    complete, n := SendAll(outlet, events);
    forall id ensures Count(outlet.sent, id) <= 1 {
      SettledAtMostOnce(bounds, steps, exit, n, id);
    }
    if complete && !outlet.closed {
      assert events[..n] == events;
      forall id ensures Count(outlet.sent, id)
                     == if id in After(steps).accepted && !(SettlementInHand(After(steps)) && After(steps).hand.value.operationId == id) then 1 else 0 {
        SettledExactlyOnce(bounds, steps, exit, id);
      }
    }
  }

  /**
   A whole epoch: the coordinator runs on any inputs until it finalizes, and the supervisor
   winds up. If the consumer stays and takes everything in time, the events it was sent settle
   each accepted operation once and nothing else, the last snapshot shows the newest of them, and
   what a driver reported is delivered as reported unless it was abandoned.
   */
  method RunEpoch(coordinator: Coordinator.Coordinator, inputs: seq<Steps.Input>, late: seq<string>)
    returns (ended: bool, complete: bool, lastSettled: seq<OperationId>)
    requires coordinator.Valid() && !coordinator.winding
    modifies coordinator, coordinator.staging, coordinator.outlet, coordinator.transients, coordinator.ledger
    ensures forall id :: Count(coordinator.outlet.sent, id) <= 1
    ensures ended && complete && !coordinator.outlet.closed ==>
              && (forall id :: Count(coordinator.outlet.sent, id) == if id in coordinator.accepted then 1 else 0)
              && lastSettled == Steps.Recent(SettledOrder(coordinator.outlet.sent))
    ensures ended && complete && !coordinator.outlet.closed && old(coordinator.received) == [] && old(coordinator.abandoned) == [] ==>
              Steps.DeliversReports(coordinator.outlet.sent, coordinator.RestNow())
  {
    hide SettledOrder, Epilogue, Steps.Progress, Steps.Recent, Newest, Forced, Count;
    ghost var start := coordinator.SnapNow();
    var exit := coordinator.Run(inputs);
    ended, complete, lastSettled := exit.Some?, false, coordinator.lastSettled;
    coordinator.SettledOnceSoFar();
    if !ended {
      return;
    }
    FinishedIsAccounted(start, coordinator.SnapNow());
    complete, lastSettled := WindUp(coordinator, exit.value, late, start);
  }

  lemma FinishedIsAccounted(a: Steps.Snap, b: Steps.Snap)
    requires Steps.Finished(a, b)
    ensures Steps.Accounted(a, b)
  {
  }

  /** The supervisor takes over from a coordinator that has returned. */
  method WindUp(coordinator: Coordinator.Coordinator, exit: Exit, late: seq<string>, ghost start: Steps.Snap)
    returns (complete: bool, lastSettled: seq<OperationId>)
    requires coordinator.Valid() && coordinator.driverEvents.None? && Steps.Accounted(start, coordinator.SnapNow())
    modifies coordinator.staging, coordinator.outlet, coordinator.ledger
    ensures forall id :: Count(coordinator.outlet.sent, id) <= 1
    ensures complete && !coordinator.outlet.closed ==>
              && (forall id :: Count(coordinator.outlet.sent, id) == if id in coordinator.accepted then 1 else 0)
              && lastSettled == Steps.Recent(SettledOrder(coordinator.outlet.sent))
    ensures complete && !coordinator.outlet.closed && start.rest.received == [] && start.rest.abandoned == [] ==>
              Steps.DeliversReports(coordinator.outlet.sent, coordinator.RestNow())
  {
    hide Steps.Accounted, Steps.DeliversReports;
    hide Coordinator.Coordinator.Valid, SettledOrder, Epilogue, Newest, Forced, Count, After, Legal, Reliable;
    coordinator.RemembersStaged();
    ReadyForSupervisor(coordinator);
    ghost var s := coordinator.Now();
    if s.open && start.rest.received == [] && start.rest.abandoned == [] {
      coordinator.ReportedSettlements(start, ExitOf(Finalized(exit), None, late));
    }
    var forced;
    ghost var n;
    complete, forced, lastSettled, n := SuperviseEpoch(
      coordinator.staging, coordinator.ledger, coordinator.outlet, Finalized(exit), None, late, coordinator.lastSettled,
      coordinator.bounds, coordinator.steps);
    if complete && !coordinator.outlet.closed {
      var epilogue := Epilogue(s, ExitOf(Finalized(exit), None, late));
      SnapshotIsNewest(s, ExitOf(Finalized(exit), None, late), coordinator.staged, coordinator.lastSettled);
      assert epilogue[..n] == epilogue;
    }
  }

  lemma ReadyForSupervisor(coordinator: Coordinator.Coordinator)
    requires coordinator.Valid()
    ensures coordinator.staging.Valid() && coordinator.ledger.Valid() && coordinator.outlet.Valid()
    ensures Legal(coordinator.bounds, coordinator.steps) && After(coordinator.steps) == coordinator.Now()
    ensures coordinator.hand.None?
    ensures !coordinator.outlet.closed ==> Reliable(coordinator.outlet.sent) + coordinator.staging.queue == coordinator.staged
  {
    hide Legal, After, Reliable;
    if !coordinator.outlet.closed {
      coordinator.NothingLostNothingReordered();
    }
  }

  lemma RecentTwice(ids: seq<OperationId>, more: seq<OperationId>)
    ensures Newest(Steps.Recent(ids), more) == Newest(ids, more)
  {
  }

  /** The last snapshot shows the newest settlements in the order of their delivery. */
  lemma SnapshotIsNewest(s: Shared, exit: Exit, staged: seq<Event>, settledBefore: seq<OperationId>)
    requires Reliable(s.sent) + s.staging == staged && settledBefore == Steps.Recent(SettledOrder(staged))
    ensures Newest(settledBefore, Ids(Forced(s))) == Steps.Recent(SettledOrder(s.sent + Epilogue(s, exit)))
  {
    hide SettledOrder, Newest, Forced;
    RecentTwice(SettledOrder(staged), Ids(Forced(s)));
    SettledOrderConcat(Reliable(s.sent), s.staging);
    SettledOrderOfReliable(s.sent);
    OrderOfEpilogue(s, exit);
    SettledOrderConcat(s.sent, Epilogue(s, exit));
    assert SettledOrder(s.sent) + (SettledOrder(s.staging) + Ids(Forced(s))) == SettledOrder(staged) + Ids(Forced(s));
    NewestIsRecent(SettledOrder(staged), Ids(Forced(s)));
  }

  lemma NewestIsRecent(ids: seq<OperationId>, more: seq<OperationId>)
    ensures Newest(ids, more) == Steps.Recent(ids + more)
  {
  }

  lemma SettledOrderOfReliable(es: seq<Event>)
    ensures SettledOrder(Reliable(es)) == SettledOrder(es)
  {
    SettledOrderCounts(es, OperationId(""));
  }

  lemma OrderOfEpilogue(s: Shared, exit: Exit)
    ensures SettledOrder(Epilogue(s, exit)) == SettledOrder(s.staging) + Ids(Forced(s))
  {
    hide SettledOrder, Forced;
    var ended := [EpochEnded(exit.reason, |Forced(s)|)];
    var forced, faults := ForcedEvents(Forced(s)), FaultEvents(exit.faults);
    SettledOrderConcat(s.staging + MaintenanceEvents(exit) + forced + faults, ended);
    SettledOrderConcat(s.staging + MaintenanceEvents(exit) + forced, faults);
    SettledOrderConcat(s.staging + MaintenanceEvents(exit), forced);
    SettledOrderConcat(s.staging, MaintenanceEvents(exit));
    NoneSettled(ended);
    NoneSettled(faults);
    NoneSettled(MaintenanceEvents(exit));
    OrderOfForced(Forced(s));
  }

  lemma {:induction false} NoneSettled(es: seq<Event>)
    requires forall i :: 0 <= i < |es| ==> !es[i].OperationSettled?
    ensures SettledOrder(es) == []
  {
    if es != [] {
      NoneSettled(es[..|es| - 1]);
    }
  }

  lemma {:induction false} OrderOfForced(entries: seq<LedgerEntry>)
    ensures SettledOrder(ForcedEvents(entries)) == Ids(entries)
  {
    if entries != [] {
      var init, last := entries[..|entries| - 1], entries[|entries| - 1];
      OrderOfForced(init);
      assert ForcedEvents(entries) == ForcedEvents(init) + [ForcedEvent(last)];
      SettledOrderSnoc(ForcedEvents(init), ForcedEvent(last));
      assert Ids(entries) == Ids(init) + [last.operationId];
    } else {
      assert ForcedEvents(entries) == [];
    }
  }
}
