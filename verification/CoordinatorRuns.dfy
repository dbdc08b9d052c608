/**
 Runs of the coordinator that end where one might not expect: a settled operation answered as
 unknown, a fault report and a driver event dropped, a running operation that is settled already,
 a settlement that its driver confirmed and nobody delivers. The consumer of these runs stays, and
 takes events only when the run says so.
 */
module CoordinatorRuns {
  import opened Wrappers
  import opened Identifiers
  import opened RuntimeEvents
  import opened EpochProtocol
  import opened CoordinatorState
  import opened CoordinatorSteps
  import opened Coordinator
  import Shutdown

  function Name(i: nat): OperationId { OperationId(Decimal(i)) }
  function Item(i: nat): Queued { Queued(Name(i), TurnId(""), SessionId("")) }

  lemma NamesDiffer(i: nat, j: nat)
    ensures Name(i) == Name(j) <==> i == j
  {
    hide Decimal, Value;
    DecimalValue(i);
    DecimalValue(j);
  }

  /** The names from `from` on. */
  function Names(from: nat, n: nat): (names: seq<OperationId>)
    ensures |names| == n && forall k :: 0 <= k < n ==> names[k] == Name(from + k)
  {
    seq(n, k requires 0 <= k => Name(from + k))
  }

  lemma NotNamed(from: nat, n: nat, i: nat)
    ensures Name(i) in Names(from, n) <==> from <= i < from + n
  {
    hide Name;
    if Name(i) in Names(from, n) {
      var k :| 0 <= k < n && Names(from, n)[k] == Name(i);
      NamesDiffer(from + k, i);
    }
    if from <= i < from + n {
      assert Names(from, n)[i - from] == Name(i);
    }
  }

  /** What a driver says whose operation is cancelled before its turn has begun. */
  const STARTED := OperationStarted(Name(0))
  const REPORT := AgentSettled(Name(0), OperationStatus.Cancelled, Confirmed, Unchanged)
  const LAST_WORDS := [TurnStarted(TurnId("")), CancellationRequested(Name(0), User), REPORT]

  /** A consumer that stays: everything staged is sent or waits. */
  lemma Stays(c: Coordinator)
    requires c.Valid() && c.outlet.patient
    ensures !c.outlet.closed && !c.sinkClosed && c.outlet.Valid() && c.staging.cap == c.bounds.stagingCap
    ensures c.ledger.cap == c.queueMax + 1 && c.staging.Valid() && c.ledger.Valid()
    ensures |Reliable(c.outlet.sent)| + |c.staging.queue| == |c.staged| && c.bounds.stagingCap >= 2
  {
    hide SchedOk, ChannelOk, QueueOpen, BooksOk, Traced;
    c.NothingLostNothingReordered();
  }

  /** Staging keeps the reserve while little enough has been staged. */
  lemma RoomFor(c: Coordinator)
    requires c.Valid() && c.outlet.patient && |c.staged| - |Reliable(c.outlet.sent)| + 2 <= c.bounds.stagingCap
    ensures c.staging.CanAcceptProducer() && !c.sinkClosed
  {
    hide SchedOk, ChannelOk, QueueOpen, BooksOk, Traced;
    Stays(c);
  }

  lemma SentIsFew(c: Coordinator)
    requires c.Valid() && c.outlet.idle
    ensures |c.outlet.sent| == c.helpings + |c.outlet.buffer| <= c.helpings + c.outlet.cap
  {
    hide SchedOk, ChannelOk, QueueOpen, BooksOk, Traced;
  }

  lemma OneEntry(c: Coordinator, id: OperationId)
    requires c.Valid() && c.ledger.states.Keys <= {id}
    ensures |c.ledger.order| <= 1
  {
    hide SchedOk, ChannelOk, QueueOpen, BooksOk, Traced;
    DistinctFit(c.ledger.order, {id});
  }

  lemma {:induction false} DistinctFit(ids: seq<OperationId>, all: set<OperationId>)
    requires NoDuplicates(ids) && forall x :: x in ids ==> x in all
    ensures |ids| <= |all|
  {
    if ids != [] {
      var init, last := ids[..|ids| - 1], ids[|ids| - 1];
      assert forall i :: 0 <= i < |init| ==> init[i] == ids[i] && ids[i] != last;
      DistinctFit(init, all - {last});
    }
  }

  /** Running an operation, with nothing else accepted and unsettled. */
  ghost predicate Busy(c: Coordinator)
    reads c, c.ledger, c.staging, c.outlet, c.transients
  {
    && c.Valid() && c.outlet.patient && c.queueMax >= 1 && c.shutdown.Running? && c.queue == []
    && c.active.Some? && c.active.value.operationId == Name(0) && c.ledger.states.Keys == {Name(0)}
  }

  /** A coordinator that has done nothing yet. */
  ghost predicate Unused(c: Coordinator)
    reads c, c.ledger, c.staging, c.outlet, c.transients
  {
    && c.Valid() && c.outlet.patient && c.queueMax >= 1 && c.shutdown.Running? && IsIdle(c.SchedNow())
    && c.accepted == [] && c.ledger.states == map[] && c.staged == [] && c.outlet.sent == []
    && c.lost == [] && !c.raced && !c.winding && c.helpings == 0 && c.abandoned == [] && c.received == [] && c.driverEvents.None?
  }

  /** The first operation starts at once. */
  method SubmitFirst(c: Coordinator)
    requires Unused(c)
    modifies c, c.staging, c.ledger
    ensures Busy(c) && c.accepted == [Name(0)]
    ensures c.staged == [OperationAccepted(Name(0), SessionId(""), TurnId(""))]
    ensures FreshChannel(c.RestNow()) && c.driverJoin && c.lost == [] && !c.raced && !c.winding
    ensures c.outlet.sent == [] && c.helpings == 0 && c.received == [] && c.abandoned == []
  {
    hide Coordinator.Valid, SchedOk;
    Stays(c);
    RoomFor(c);
    OneEntry(c, Name(0));
    var result := c.Submit(Item(0));
  }

  /** Another one waits behind it. */
  method SubmitNext(c: Coordinator, i: nat)
    requires Busy(c) && i > 0 && Name(i) !in c.accepted && |c.staged| - |Reliable(c.outlet.sent)| + 2 <= c.bounds.stagingCap
    modifies c, c.staging, c.ledger
    ensures c.Valid() && c.shutdown.Running? && c.queue == [Item(i)] && c.active == old(c.active)
    ensures c.accepted == old(c.accepted) + [Name(i)] && c.ledger.states.Keys == {Name(0), Name(i)}
    ensures c.staged == old(c.staged) + [OperationAccepted(Name(i), SessionId(""), TurnId("")), Agent(OperationQueued(Name(i)))]
    ensures c.driverEvents == old(c.driverEvents) && c.driverLive == old(c.driverLive) && c.driverSettled == old(c.driverSettled)
    ensures c.driverJoin == old(c.driverJoin) && c.outlet.sent == old(c.outlet.sent)
    ensures c.lost == old(c.lost) && c.raced == old(c.raced) && c.winding == old(c.winding) && c.helpings == old(c.helpings)
    ensures c.abandoned == old(c.abandoned)
  {
    hide Coordinator.Valid, SchedOk;
    RoomFor(c);
    OneEntry(c, Name(0));
    Stays(c);
    var result := c.Submit(Item(i));
  }

  /** It is cancelled before it starts. */
  method CancelNext(c: Coordinator, i: nat)
    requires c.Valid() && c.outlet.patient && c.queueMax >= 1 && c.shutdown.Running? && c.queue == [Item(i)] && i > 0
    requires c.active.Some? && c.active.value.operationId == Name(0) && c.ledger.states.Keys == {Name(0), Name(i)}
    requires |c.staged| - |Reliable(c.outlet.sent)| + 2 <= c.bounds.stagingCap
    modifies c, c.staging, c.outlet, c.transients, c.ledger
    ensures Busy(c) && c.accepted == old(c.accepted)
    ensures c.RestNow() == old(c.RestNow()).(lastSettled := c.lastSettled) && c.SchedNow() == old(c.SchedNow()).(queue := [])
    ensures old(c.steps) <= c.steps
    ensures c.staged == old(c.staged) + [Agent(CancellationRequested(Name(i), User)),
                                         OperationSettled(Name(i), SessionId(""), Cancelled, Confirmed, Unchanged)]
  {
    hide Coordinator.Valid, SchedOk, Reliable;
    Stays(c);
    RoomFor(c);
    NotYetSettled(c, Name(i));
    NamesDiffer(0, i);
    var result := c.CancelOperation(Name(i), false);
    assert result.QueuedCancelled?;
    Stays(c);
  }

  lemma NotYetSettled(c: Coordinator, id: OperationId)
    requires c.Valid() && c.outlet.patient && id in c.ledger.states
    ensures id !in c.lastSettled
  {
    hide Coordinator.Valid;
    Stays(c);
    c.AcceptedSplits(id);
    c.StagedCounts(id);
    Remembered(c, id);
  }

  lemma Remembered(c: Coordinator, id: OperationId)
    requires c.Valid()
    ensures c.lastSettled == Recent(SettledOrder(c.staged))
    ensures id in c.lastSettled ==> id in SettledOrder(c.staged)
  {
    hide Coordinator.Valid;
    c.RemembersStaged();
    RecentIff(c.staged, id);
  }

  method CancelOneMore(c: Coordinator, i: nat)
    requires Busy(c) && i > 0 && Name(i) !in c.accepted && |c.staged| + 4 <= c.bounds.stagingCap
    modifies c, c.staging, c.outlet, c.transients, c.ledger
    ensures Busy(c) && c.accepted == old(c.accepted) + [Name(i)] && |c.staged| == old(|c.staged|) + 4
    ensures SettledOrder(c.staged) == SettledOrder(old(c.staged)) + [Name(i)]
  {
    hide Coordinator.Valid, SettledOrder, Reliable;
    ghost var before := c.staged;
    SubmitNext(c, i);
    ghost var between := c.staged;
    CancelNext(c, i);
    FourMore(before, between[|before|..], c.staged[|between|..], Name(i));
    assert c.staged == before + between[|before|..] + c.staged[|between|..];
  }

  lemma FourMore(es: seq<Event>, two: seq<Event>, more: seq<Event>, id: OperationId)
    requires |two| == 2 && !two[0].OperationSettled? && !two[1].OperationSettled?
    requires |more| == 2 && !more[0].OperationSettled? && more[1].OperationSettled? && more[1].operationId == id
    ensures SettledOrder(es + two + more) == SettledOrder(es) + [id]
  {
    hide SettledOrder;
    SettledOrderSnoc(es, two[0]);
    SettledOrderSnoc(es + [two[0]], two[1]);
    SettledOrderSnoc(es + two, more[0]);
    SettledOrderSnoc(es + two + [more[0]], more[1]);
    assert es + [two[0]] + [two[1]] == es + two && es + two + [more[0]] + [more[1]] == es + two + more;
  }

  /** One operation runs, and 33 more are queued and cancelled, one after the other. */
  method CancelMany(c: Coordinator)
    requires Unused(c) && c.bounds.stagingCap == 200
    modifies c, c.staging, c.outlet, c.transients, c.ledger
    ensures Busy(c) && SettledOrder(c.staged) == Names(1, 33)
  {
    hide Coordinator.Valid;
    hide Busy, SettledOrder, Name;
    SubmitFirst(c);
    NothingSettledYet(c.staged);
    OneNamed();
    for i := 1 to 34
      invariant Busy(c) && c.bounds.stagingCap == 200
      invariant c.accepted == Names(0, i) && |c.staged| <= 4 * i && SettledOrder(c.staged) == Names(1, i - 1)
    {
      NotNamed(0, i, i);
      CancelOneMore(c, i);
      OneNameMore(i);
    }
  }

  lemma OneNameMore(i: nat)
    requires i > 0
    ensures Names(1, i) == Names(1, i - 1) + [Name(i)] && Names(0, i + 1) == Names(0, i) + [Name(i)]
  {
    hide Name;
  }

  lemma OneNamed()
    ensures Names(0, 1) == [Name(0)] && Names(1, 0) == []
  {
    hide Name;
  }

  lemma NothingSettledYet(es: seq<Event>)
    requires |es| == 1 && !es[0].OperationSettled?
    ensures SettledOrder(es) == []
  {
    assert es[..0] == [];
  }

  lemma AfterThirtyThree(c: Coordinator)
    requires Busy(c) && SettledOrder(c.staged) == Names(1, 33)
    ensures c.Valid() && c.outlet.patient && c.queue == [] && c.active.Some? && c.active.value.operationId == Name(0)
    ensures Name(1) !in c.lastSettled && Name(33) in c.lastSettled && Name(1) != Name(0) && Name(33) != Name(0)
    ensures Count(c.staged, Name(1)) == Count(c.staged, Name(33)) == 1
  {
    hide Coordinator.Valid, Count, SettledOrder, Name;
    Stays(c);
    Remembered(c, Name(1));
    assert Recent(Names(1, 33)) == Names(2, 32);
    NotNamed(2, 32, 1);
    NotNamed(2, 32, 33);
    NamesDiffer(0, 1);
    NamesDiffer(0, 33);
    NotNamed(1, 33, 1);
    NotNamed(1, 33, 33);
    c.StagedCounts(Name(1));
    c.StagedCounts(Name(33));
    c.AcceptedSplits(Name(1));
    c.AcceptedSplits(Name(33));
  }

  /** After 33 settlements the oldest is forgotten: a cancel of it is answered as if the operation
      had never been accepted. */
  method ForgetsTheOldest() returns (c: Coordinator, oldest: CancelResult, newest: CancelResult)
    ensures fresh(c) && c.Valid() && c.outlet.patient && Count(c.staged, Name(1)) == Count(c.staged, Name(33)) == 1
    ensures oldest == UnknownOperation && newest == AlreadySettled
  {
    hide Coordinator.Valid, Recent, Busy, SettledOrder, Count, Name;
    c := new Coordinator(1, 1, 200, true, true);
    CancelMany(c);
    AfterThirtyThree(c);
    oldest := AskAbout(c, Name(1));
    newest := AskAbout(c, Name(33));
  }

  /** A cancel request for an operation that neither waits nor runs. */
  method AskAbout(c: Coordinator, id: OperationId) returns (answer: CancelResult)
    requires c.Valid() && c.queue == [] && (c.active.Some? ==> c.active.value.operationId != id)
    modifies c, c.staging, c.outlet, c.transients, c.ledger
    ensures c.Valid() && answer == if id in old(c.lastSettled) then AlreadySettled else UnknownOperation
    ensures c.staged == old(c.staged) && c.lastSettled == old(c.lastSettled) && c.active == old(c.active) && c.queue == []
  {
    hide Coordinator.Valid;
    answer := c.CancelOperation(id, false);
  }

  // ---- dropped events ----

  /** The outlet has room and takes an event that is staged. */
  method SendOne(c: Coordinator)
    requires c.Valid() && c.outlet.patient && c.outlet.idle && c.helpings == 0 && |c.outlet.sent| < c.outlet.cap
    requires |c.staged| > |Reliable(c.outlet.sent)|
    modifies c, c.staging, c.outlet, c.transients
    ensures c.Valid() && c.staged == old(c.staged) && |c.outlet.sent| == old(|c.outlet.sent|) + 1
    ensures |Reliable(c.outlet.sent)| == old(|Reliable(c.outlet.sent)|) + 1
    ensures c.RestNow() == old(c.RestNow()) && c.accepted == old(c.accepted) && c.SchedNow() == old(c.SchedNow())
  {
    hide Coordinator.Valid, Reliable;
    Stays(c);
    SentIsFew(c);
    var result := c.FlushFront();
    Stays(c);
  }

  lemma NoneSent()
    ensures Reliable([]) == []
  {
  }

  /** The state of `c` between two of its steps. */
  lemma Earlier(c: Coordinator, steps: seq<Step>)
    requires c.Valid() && c.outlet.patient && steps <= c.steps
    ensures After(steps).open && After(steps).sent <= c.outlet.sent && Legal(c.bounds, steps)
    ensures |Reliable(After(steps).sent)| <= |Reliable(c.outlet.sent)|
  {
    hide Coordinator.Valid, Legal, After, Reliable;
    Stays(c);
    c.StepsLeadHere();
    assert c.steps[..|steps|] == steps;
    SentOnlyGrows(c.steps, |steps|);
    LegalPrefix(c.bounds, c.steps, |steps|);
    ReliableOfPrefix(c.outlet.sent, |After(steps).sent|);
    assert c.outlet.sent[..|After(steps).sent|] == After(steps).sent;
  }

  /** What becomes of the operation of a driver that has said one thing and panics. */
  lemma LastEventHeard(a: Snap, d: Snap, j: Snap, f: Snap, exit: DriverExit, committed: bool, room: bool)
    requires DrainedTo(Ended(a), d) && Left(a.rest) == 1 && Waiting(a.rest) == [STARTED]
    requires d.sched.active.Some? && JoinedTo(d, j, exit, committed, room) && StartedTo(j, f)
    requires !f.closed && !f.rest.raced && (Waiting(d.rest) == [] || !room)
    ensures |d.staged| == |a.staged| || |d.staged| == |a.staged| + 1
    ensures |d.staged| == |a.staged| ==> !room
    ensures d.open == a.open
  {
    hide Accounted;
    var all := d.rest.received + Waiting(d.rest);
    assert all == a.rest.received + [STARTED];
    if |d.rest.received| > |a.rest.received| {
      assert d.rest.received == all[..|d.rest.received|] == a.rest.received + [STARTED];
      assert d.rest.received[|a.rest.received|..] == [STARTED];
    }
  }

  lemma PanicReported(a: Snap, d: Snap, j: Snap, f: Snap)
    requires DrainedTo(Ended(a), d) && d.sched.active.Some? && JoinedTo(d, j, Panicked, false, true) && StartedTo(j, f)
    requires !f.closed && !f.rest.raced && d.open == a.open
    requires a.sched.active.Some? && a.sched.active.value.operationId in a.open
    ensures |f.staged| > |d.staged| && Settles(f.staged[|d.staged|], a.sched.active.value.operationId)
    ensures |f.staged| == |d.staged| + 2 || (|f.staged| == |d.staged| + 1 && f.rest.lost == a.rest.lost + [FAULT])
  {
    hide Accounted;
  }

  lemma DrainedRoom(c: Coordinator, a: Snap, d: Snap)
    requires c.Valid() && c.outlet.patient && a.steps <= d.steps <= c.steps
    requires Traced(c.bounds, d.steps, d.staged, After(d.steps)) && After(d.steps).hand.None?
    ensures |Reliable(After(a.steps).sent)| + |After(d.steps).staging| <= |d.staged|
  {
    hide Coordinator.Valid, Legal, After, Reliable;
    Earlier(c, d.steps);
    LosslessFifo(c.bounds, d.steps);
    SentOnlyGrows(d.steps, |a.steps|);
    assert d.steps[..|a.steps|] == a.steps;
    ReliableOfPrefix(After(d.steps).sent, |After(a.steps).sent|);
    assert After(d.steps).sent[..|After(a.steps).sent|] == After(a.steps).sent;
  }

  /** A driver says that it has started, and panics, while the outlet is full and just the reserve
      is free: what it said and the settlement of its operation use the reserve up, and the report
      of the fault is dropped. */
  method DropsFaultReport() returns (c: Coordinator)
    ensures fresh(c) && c.Valid() && c.outlet.patient && !c.winding && c.lost == [FAULT]
    ensures Count(c.staged, Name(0)) >= 1
  {
    hide Coordinator.Valid, Reliable, Name, Count, Busy, ReserveFree;
    c := new Coordinator(1, 1, 4, true, true);
    FillToReserve(c);
    PanicUnreported(c);
  }

  /** The outlet is full, two of four staging slots are free, and the driver has said one thing. */
  ghost predicate ReserveFree(c: Coordinator)
    reads c, c.ledger, c.staging, c.outlet, c.transients
  {
    && c.Valid() && c.outlet.patient && c.outlet.idle && c.outlet.cap == 1 && c.bounds.stagingCap == 4 && c.helpings == 0
    && Name(0) in c.ledger.states && c.active.Some? && c.active.value.operationId == Name(0)
    && |c.staged| == 3 && |Reliable(c.outlet.sent)| == 1 && c.lost == [] && !c.winding
    && c.driverJoin && c.driverEvents == Some([STARTED]) && c.driverQuota == 0
  }

  method FillToReserve(c: Coordinator)
    requires Unused(c) && c.outlet.idle && c.outlet.cap == 1 && c.driverCap == 1 && c.bounds.stagingCap == 4
    modifies c, c.staging, c.outlet, c.transients, c.ledger
    ensures ReserveFree(c)
  {
    hide Coordinator.Valid, Reliable, Name;
    SubmitFirst(c);
    NoneSent();
    SendOne(c);
    NamesDiffer(0, 1);
    SubmitNext(c, 1);
    c.Expect(1);
    c.Append([STARTED]);
    assert [] + [STARTED] == [STARTED];
  }

  method PanicUnreported(c: Coordinator)
    requires ReserveFree(c)
    modifies c, c.staging, c.outlet, c.transients, c.ledger
    ensures c.Valid() && !c.winding && c.lost == [FAULT] && Count(c.staged, Name(0)) >= 1
  {
    hide Coordinator.Valid, DrainedTo, JoinedTo, StartedTo, Reliable, Count, After, Traced;
    c.StepsLeadHere();
    RoomFor(c);
    assert c.CanReapChildren();
    ghost var a := c.SnapNow();
    ghost var drained, joined, room := c.OnDriverJoin(Panicked, false);
    ghost var f := c.SnapNow();
    JoinKeeps(a, drained, joined, f, Panicked, false, room);
    Stays(c);
    NotRaced(c);
    DrainedRoom(c, a, drained);
    LastEventHeard(a, drained, joined, f, Panicked, false, room);
    PanicReported(a, drained, joined, f);
    FewStaged(c);
    CountZero(c.staged, Name(0));
    assert c.staged[|drained.staged|] in c.staged;
  }

  lemma NotRaced(c: Coordinator)
    requires c.Valid() && !c.winding
    ensures !c.raced
  {
    hide SchedOk, ChannelOk, QueueOpen, Coordinator.Wired;
  }

  lemma FewStaged(c: Coordinator)
    requires c.Valid() && c.outlet.patient && c.outlet.idle
    ensures |c.staged| <= c.helpings + c.outlet.cap + c.bounds.stagingCap
  {
    hide Coordinator.Valid;
    Stays(c);
    SentIsFew(c);
    FewReliable(c.outlet.sent);
  }

  lemma {:induction false} FewReliable(es: seq<Event>)
    ensures |Reliable(es)| <= |es|
  {
    if es != [] {
      FewReliable(es[..|es| - 1]);
    }
  }

  /** While the epoch is wound up the driver, still alive, sends an event between the test that its
      channel is empty and the receive. Staging and the outlet are full: the event is dropped. */
  method DropsRacedEvent() returns (c: Coordinator, tested: bool)
    ensures fresh(c) && c.Valid() && c.outlet.patient && c.winding && c.raced && !tested
    ensures c.lost == [Agent(STARTED)]
  {
    hide Coordinator.Valid, Reliable, Name, Busy;
    c := new Coordinator(1, 1, 2, true, true);
    NoSlotLeft(c);
    c.Expect(0);
    tested := c.DriverEventsPending();
    LateEvent(c);
  }

  method NoSlotLeft(c: Coordinator)
    requires Unused(c) && c.outlet.idle && c.outlet.cap == 1 && c.bounds.stagingCap == 2 && c.driverCap == 1
    modifies c, c.staging, c.outlet, c.transients, c.ledger
    ensures c.Valid() && c.winding && c.lost == [] && c.driverLive && c.driverEvents == Some([]) && c.active.Some?
    ensures |c.staged| == 3 && |c.outlet.sent| == |Reliable(c.outlet.sent)| == 1 && !c.driverSettled && c.helpings == 0
  {
    hide Coordinator.Valid, Reliable, Name;
    SubmitFirst(c);
    NoneSent();
    SendOne(c);
    NamesDiffer(0, 1);
    SubmitNext(c, 1);
    EndEpoch(c);
  }

  /** The epoch is to end at once, and its children are told to stop. */
  method EndEpoch(c: Coordinator)
    requires c.Valid() && c.shutdown.Running? && c.active.Some?
    modifies c`shutdown, c`deadline, c`queue, c`active, c`maintenance, c`winding
    ensures c.Valid() && c.winding && c.RestNow() == old(c.RestNow()).(winding := true)
    ensures c.active.Some?
  {
    hide Coordinator.Valid, Coordinator.RestNow;
    c.RequestShutdown(Shutdown.Request(Shutdown.ForcedMode, c.now));
    assert c.ShouldFinishEpoch();
    c.StopChildren();
  }

  method LateEvent(c: Coordinator)
    requires c.Valid() && c.outlet.patient && c.outlet.idle && c.outlet.cap == 1 && c.bounds.stagingCap == 2
    requires c.winding && c.lost == [] && c.driverLive && c.driverEvents == Some([]) && c.active.Some?
    requires |c.staged| == 3 && |c.outlet.sent| == |Reliable(c.outlet.sent)| == 1 && c.helpings == 0
    modifies c, c.staging, c.outlet, c.transients, c.ledger
    ensures c.Valid() && c.winding && c.raced && c.lost == [Agent(STARTED)]
  {
    hide Coordinator.Valid, Reliable, After, DrainedTo;
    c.Expect(1);
    c.Append([STARTED]);
    assert [] + [STARTED] == [STARTED];
    DropArrived(c);
  }

  /** Received without room, it is dropped. */
  method DropArrived(c: Coordinator)
    requires c.Valid() && c.outlet.patient && c.outlet.idle && c.outlet.cap == 1 && c.bounds.stagingCap == 2
    requires c.winding && c.lost == [] && c.driverEvents == Some([STARTED])
    requires |c.staged| == 3 && |c.outlet.sent| == |Reliable(c.outlet.sent)| == 1 && c.helpings == 0
    modifies c, c.staging, c.outlet, c.transients, c.ledger
    ensures c.Valid() && c.winding && c.raced && c.lost == [Agent(STARTED)]
  {
    hide Coordinator.Valid, Reliable, After, DrainedTo;
    Stays(c);
    c.StepsLeadHere();
    ghost var a, was := c.SnapNow(), c.outlet.sent;
    var more := c.ForwardNext();
    assert more;
    DrainedFacts(a, c.SnapNow());
    Earlier(c, a.steps);
    Stays(c);
    SentIsFew(c);
    assert c.outlet.sent == was;
    assert c.lost == [Agent(STARTED)];
    assert c.lost[0] in c.lost;
    Dropped(c);
  }

  lemma Dropped(c: Coordinator)
    requires c.Valid() && exists e :: e in c.lost && !e.RuntimeFault?
    ensures c.raced && c.winding
  {
    hide Coordinator.Valid;
    var e :| e in c.lost && !e.RuntimeFault?;
    c.OnlyFaultsAreDropped(e);
  }

  /** The driver has reported its settlement and has not been joined: its operation is running as
      far as the schedule goes, and gone from the ledger. */
  method RunsThoughSettled() returns (c: Coordinator)
    ensures fresh(c) && c.Valid() && c.outlet.patient && c.shutdown.Running?
    ensures c.active.Some? && c.active.value.operationId !in c.ledger.states
  {
    hide Coordinator.Valid, Name, Busy;
    c := new Coordinator(1, 4, 6, true, true);
    SubmitFirst(c);
    CancelFirst(c);
    SayAll(c);
    HearAll(c);
  }

  /** The user cancels the running operation. */
  method CancelFirst(c: Coordinator)
    requires Busy(c)
    modifies c, c.staging, c.outlet, c.transients, c.ledger
    ensures Busy(c) && c.staged == old(c.staged) && c.RestNow() == old(c.RestNow())
  {
    hide Coordinator.Valid, Name;
    var answer := c.CancelOperation(Name(0), false);
  }

  /** Its driver says all there is to say. */
  method SayAll(c: Coordinator)
    requires Busy(c) && FreshChannel(c.RestNow()) && c.driverCap == 4
    modifies c`driverEvents, c`driverSettled, c`driverQuota
    ensures Busy(c) && c.driverEvents == Some([STARTED] + LAST_WORDS) && c.driverQuota == 0
  {
    hide Coordinator.Valid, Name;
    c.Expect(4);
    c.Append([STARTED] + LAST_WORDS);
    assert [] + ([STARTED] + LAST_WORDS) == [STARTED] + LAST_WORDS;
  }

  /** All that the driver said is forwarded, within the reserve. */
  method HearAll(c: Coordinator)
    requires Busy(c) && c.bounds.stagingCap == 6 && |c.staged| == 1 && !c.winding
    requires c.driverEvents == Some([STARTED] + LAST_WORDS) && c.driverQuota == 0
    modifies c, c.staging, c.outlet, c.transients, c.ledger
    ensures c.Valid() && c.shutdown.Running? && c.active.Some? && c.active.value.operationId !in c.ledger.states
  {
    hide Coordinator.Valid, Name, DrainedTo, Count, Reliable;
    RoomFor(c);
    assert c.CanPollDriver();
    NotRaced(c);
    ghost var a := c.SnapNow();
    DrainedNothing(a);
    c.ForwardUpTo(4);
    Stays(c);
    ghost var b := c.SnapNow();
    DrainedFacts(a, b);
    NotRaced(c);
    if |c.staged| < 5 {
      RoomFor(c);
    }
    HeardFour(a, b);
    CountZero(c.staged, Name(0));
    assert c.staged[4] in c.staged;
    c.ActiveUntilSettled();
  }

  lemma HeardFour(a: Snap, b: Snap)
    requires DrainedTo(a, b) && !b.rest.raced && !b.closed && |a.staged| == 1
    requires a.rest.driverEvents == Some([STARTED] + LAST_WORDS) && a.rest.driverQuota == 0
    requires |b.staged| < 5 ==> Waiting(b.rest) == [] || |b.rest.received| == |a.rest.received| + 4
    ensures |b.staged| == 5 && Settles(b.staged[4], Name(0))
  {
    hide Accounted;
    var all := b.rest.received + Waiting(b.rest);
    assert all == a.rest.received + ([STARTED] + LAST_WORDS);
    var heard, told := b.rest.received[|a.rest.received|..], b.staged[1..];
    assert MirrorsAll(told, heard);
    assert heard == all[|a.rest.received|..|b.rest.received|] == ([STARTED] + LAST_WORDS)[..|heard|];
    assert Mirrors(told[3], heard[3]);
  }

  // ---- a report that is never delivered ----

  /** The outlet is full, and nothing but the first operation is unsettled. */
  ghost predicate Cramped(c: Coordinator)
    reads c, c.ledger, c.staging, c.outlet, c.transients
  {
    && c.Valid() && c.outlet.patient && c.outlet.idle && c.outlet.cap == 3 && c.driverCap == 3 && c.bounds.stagingCap == 5
    && c.queueMax >= 1 && c.helpings == 0 && |Reliable(c.outlet.sent)| == 3
    && c.shutdown.Running? && c.queue == [] && !c.winding && c.abandoned == []
    && c.accepted == [Name(0), Name(1)] && c.ledger.states.Keys <= {Name(0)}
  }

  /** Its driver is there and has not reported. */
  ghost predicate Running(c: Coordinator)
    reads c
  {
    c.active.Some? && c.active.value.operationId == Name(0) && FreshChannel(c.RestNow()) && c.driverJoin
  }

  method AcceptTwo(c: Coordinator)
    requires Unused(c) && c.outlet.idle && c.outlet.cap == 3 && c.bounds.stagingCap == 5
    modifies c, c.staging, c.outlet, c.transients, c.ledger
    ensures c.Valid() && c.queue == [Item(1)] && c.shutdown.Running? && Running(c) && c.ledger.states.Keys == {Name(0), Name(1)}
    ensures |c.staged| == |Reliable(c.outlet.sent)| == 3 && c.helpings == 0 && !c.winding && c.abandoned == []
    ensures c.accepted == [Name(0), Name(1)]
  {
    hide Coordinator.Valid, Reliable, Name;
    NoneSent();
    SubmitFirst(c);
    SendOne(c);
    NamesDiffer(0, 1);
    SubmitNext(c, 1);
    SendOne(c);
    SendOne(c);
  }

  /** Two operations are accepted and the second is cancelled; three events are sent, two wait. */
  method FillUp(c: Coordinator)
    requires Unused(c) && c.outlet.idle && c.outlet.cap == 3 && c.driverCap == 3 && c.bounds.stagingCap == 5
    modifies c, c.staging, c.outlet, c.transients, c.ledger
    ensures Cramped(c) && Running(c) && |c.staged| == 5
  {
    hide Coordinator.Valid, Reliable, Name;
    AcceptTwo(c);
    ghost var steps, sent := c.steps, c.outlet.sent;
    StillSent(c, steps);
    CancelNext(c, 1);
    SentBefore(c, steps, sent);
    SentIsFew(c);
    FewReliable(c.outlet.sent);
  }

  lemma StillSent(c: Coordinator, steps: seq<Step>)
    requires c.Valid() && steps == c.steps
    ensures After(steps).sent == c.outlet.sent
  {
    hide Coordinator.Valid;
    c.StepsLeadHere();
  }

  /** What was sent when `c` had taken `steps` is still sent. */
  lemma SentBefore(c: Coordinator, steps: seq<Step>, sent: seq<Event>)
    requires c.Valid() && c.outlet.patient && steps <= c.steps && After(steps).sent == sent
    ensures sent <= c.outlet.sent && |Reliable(sent)| <= |Reliable(c.outlet.sent)|
  {
    hide Coordinator.Valid;
    Earlier(c, steps);
  }

  /** The driver says that it has started. */
  method HearStart(c: Coordinator)
    requires Cramped(c) && Running(c) && |c.staged| == 5
    modifies c, c.staging, c.outlet, c.transients, c.ledger
    ensures Cramped(c) && Running(c) && |c.staged| == 6
  {
    hide Coordinator.Valid, Reliable, Name, DrainedTo, After;
    c.Expect(1);
    c.Append([STARTED]);
    assert [] + [STARTED] == [STARTED];
    ForwardStart(c);
  }

  method ForwardStart(c: Coordinator)
    requires Cramped(c) && |c.staged| == 5 && c.active.Some? && c.active.value.operationId == Name(0) && c.driverJoin
    requires c.driverEvents == Some([STARTED]) && c.driverQuota == 0 && c.driverLive && !c.driverSettled
    modifies c, c.staging, c.outlet, c.transients, c.ledger
    ensures Cramped(c) && Running(c) && |c.staged| == 6
  {
    hide Coordinator.Valid, Reliable, Name, DrainedTo, After;
    Stays(c);
    NotRaced(c);
    RoomFor(c);
    assert c.CanPollDriver();
    ghost var a, sent := c.SnapNow(), c.outlet.sent;
    StillSent(c, a.steps);
    c.OnDriverEvent();
    ghost var b := c.SnapNow();
    DrainedFacts(a, b);
    Stays(c);
    NotRaced(c);
    OneForwarded(a, b, STARTED);
    LiveHasChannel(c);
    assert c.driverEvents == Some([]);
    SentBefore(c, a.steps, sent);
    SentIsFew(c);
    FewReliable(c.outlet.sent);
  }

  /** The channel of `a` held one event and has been emptied. */
  lemma OneForwarded(a: Snap, b: Snap, e: AgentEvent)
    requires DrainedTo(a, b) && !b.rest.raced && !b.closed && !a.closed && a.rest.driverEvents == Some([e]) && a.rest.driverQuota == 0
    requires |b.rest.received| == |a.rest.received| + 1 && !e.AgentSettled?
    ensures |b.staged| == |a.staged| + 1 && Waiting(b.rest) == []
    ensures b.open.Keys <= a.open.Keys && b.rest.abandoned == a.rest.abandoned
    ensures b.sched.(active := a.sched.active) == a.sched
  {
    hide Accounted;
  }

  lemma LiveHasChannel(c: Coordinator)
    requires c.Valid() && c.driverLive
    ensures c.driverEvents.Some? && c.active.Some?
  {
    hide SchedOk, QueueOpen, BooksOk, Coordinator.Wired;
  }

  /** The user cancels it. */
  method UserCancels(c: Coordinator)
    requires Cramped(c) && Running(c) && |c.staged| == 6
    modifies c, c.staging, c.outlet, c.transients, c.ledger
    ensures Cramped(c) && Running(c) && |c.staged| == 6
  {
    hide Coordinator.Valid, Reliable, Name, After;
    StillSent(c, c.steps);
    var answer := c.CancelOperation(Name(0), false);
    StillSent(c, c.steps);
  }

  /** The driver says so and ends, while staging takes two more events and the outlet none. */
  method LastWords(c: Coordinator)
    requires Cramped(c) && Running(c) && |c.staged| == 6
    modifies c`driverEvents, c`driverSettled, c`driverQuota
    ensures Cramped(c) && |c.staged| == 6 && c.driverJoin && c.active.Some? && c.driverQuota == 0 && c.driverEvents == Some(LAST_WORDS)
  {
    hide Coordinator.Valid, Reliable, Name;
    c.Expect(3);
    c.Append(LAST_WORDS);
    assert [] + LAST_WORDS == LAST_WORDS;
  }

  /** What waits when the driver of a full coordinator is joined: its report. */
  const UNHEARD := [REPORT]

  /** Idle, but the report still waits, and there is no room for it anywhere. */
  ghost predicate Unheard(c: Coordinator)
    reads c, c.ledger, c.staging, c.outlet, c.transients
  {
    && Cramped(c) && |c.staged| == 8 && IsIdle(c.SchedNow()) && !c.driverJoin && !c.driverLive
    && c.driverEvents == Some(UNHEARD) && c.driverQuota == 0
  }

  /** The joined driver was heard as far as staging had room: by two events. */
  lemma HeardTwo(a: Snap, d: Snap, j: Snap, f: Snap, exit: DriverExit, room: bool)
    requires DrainedTo(Ended(a), d) && d.sched.active.Some? && JoinedTo(d, j, exit, false, room) && StartedTo(j, f)
    requires a.rest.driverEvents == Some(LAST_WORDS) && a.rest.driverQuota == 0 && !f.closed && !f.rest.raced
    requires |d.rest.received| == |a.rest.received| + 2 && !room
    ensures f.rest.driverEvents == Some(UNHEARD) && f.rest.driverQuota == 0 && !f.rest.driverLive
    ensures |f.staged| == |a.staged| + 2 && f.open.Keys <= a.open.Keys && f.rest.abandoned == a.rest.abandoned
    ensures f.sched == a.sched.(active := None, driverJoin := false)
  {
    hide Accounted;
    assert LAST_WORDS[2..] == UNHEARD;
    var all := d.rest.received + Waiting(d.rest);
    assert all == a.rest.received + LAST_WORDS;
    assert Waiting(d.rest) == all[|d.rest.received|..] == LAST_WORDS[2..];
  }

  /** How many events were heard, from the room they found. */
  lemma HowMany(a: Snap, d: Snap, j: Snap, f: Snap, exit: DriverExit, room: bool)
    requires DrainedTo(Ended(a), d) && d.sched.active.Some? && JoinedTo(d, j, exit, false, room) && StartedTo(j, f)
    requires a.rest.driverEvents == Some(LAST_WORDS) && a.rest.driverQuota == 0 && !f.closed && !f.rest.raced
    ensures |a.rest.received| <= |d.rest.received| && |d.staged| == |a.staged| + |d.rest.received| - |a.rest.received|
    ensures |f.staged| >= |d.staged| && (d.rest.received == a.rest.received ==> d.staged == a.staged)
    ensures |d.rest.received| <= |a.rest.received| + 2 ==> Waiting(d.rest) != []
  {
    hide Accounted;
    assert d.rest.received + Waiting(d.rest) == a.rest.received + LAST_WORDS;
  }

  lemma JoinKeeps(a: Snap, d: Snap, j: Snap, f: Snap, exit: DriverExit, committed: bool, room: bool)
    requires DrainedTo(Ended(a), d) && d.sched.active.Some? && JoinedTo(d, j, exit, committed, room) && StartedTo(j, f)
    ensures a.steps <= d.steps <= f.steps && f.rest.winding == a.rest.winding && f.rest.helpings == a.rest.helpings
    ensures f.rest.accepted == a.rest.accepted && a.rest.received <= d.rest.received
  {
    hide Accounted;
  }

  method JoinUnheard(c: Coordinator)
    requires Cramped(c) && |c.staged| == 6 && c.driverJoin && c.active.Some? && c.driverQuota == 0 && c.driverEvents == Some(LAST_WORDS)
    modifies c, c.staging, c.outlet, c.transients, c.ledger
    ensures Unheard(c)
  {
    hide Coordinator.Valid, Reliable, Name, DrainedTo, JoinedTo, StartedTo, After, Traced;
    StillSent(c, c.steps);
    c.OneAtATime();
    RoomFor(c);
    assert c.CanReapChildren();
    ghost var a, sent := c.SnapNow(), c.outlet.sent;
    ghost var d, j, room := c.OnDriverJoin(CancelledConfirmed, false);
    ghost var f := c.SnapNow();
    Stays(c);
    HeardExactlyTwo(c, a, d, j, f, room, sent);
    HeardTwo(a, d, j, f, CancelledConfirmed, room);
    StillFull(c, a.steps, sent);
  }

  lemma StillFull(c: Coordinator, steps: seq<Step>, sent: seq<Event>)
    requires c.Valid() && c.outlet.patient && c.outlet.idle && c.helpings == 0 && c.outlet.cap == 3
    requires steps <= c.steps && After(steps).sent == sent && |Reliable(sent)| == 3
    ensures |Reliable(c.outlet.sent)| == 3
  {
    hide Coordinator.Valid, Reliable;
    SentBefore(c, steps, sent);
    SentIsFew(c);
    FewReliable(c.outlet.sent);
  }

  lemma HeardExactlyTwo(c: Coordinator, a: Snap, d: Snap, j: Snap, f: Snap, room: bool, sent: seq<Event>)
    requires c.Valid() && f == c.SnapNow() && c.outlet.patient && c.outlet.idle && c.outlet.cap == 3 && c.bounds.stagingCap == 5
    requires DrainedTo(Ended(a), d) && d.sched.active.Some? && JoinedTo(d, j, CancelledConfirmed, false, room) && StartedTo(j, f)
    requires a.rest.driverEvents == Some(LAST_WORDS) && a.rest.driverQuota == 0 && |a.staged| == 6
    requires !a.rest.winding && a.rest.helpings == 0 && After(a.steps).sent == sent && |Reliable(sent)| == 3
    requires Traced(c.bounds, d.steps, d.staged, After(d.steps)) && After(d.steps).hand.None?
    requires room == (|After(d.steps).staging| < 5) && (Waiting(d.rest) == [] || !room)
    ensures |d.rest.received| == |a.rest.received| + 2 && !room && !f.closed && !f.rest.raced
    ensures f.rest.helpings == 0 && !f.rest.winding && a.steps <= f.steps && f.rest.accepted == a.rest.accepted
  {
    hide Coordinator.Valid, Reliable, DrainedTo, JoinedTo, StartedTo, After, Traced, Waiting;
    JoinKeeps(a, d, j, f, CancelledConfirmed, false, room);
    Stays(c);
    NotRaced(c);
    HowMany(a, d, j, f, CancelledConfirmed, room);
    FewStaged(c);
    DrainedRoom(c, a, d);
  }

  /** The next turn begins: it still finds no room for the report. */
  method StillUnheard(c: Coordinator)
    requires Unheard(c)
    modifies c, c.staging, c.outlet, c.transients, c.ledger
    ensures Unheard(c)
  {
    hide Coordinator.Valid, Reliable, Name, DrainedTo, After, Waiting;
    StillSent(c, c.steps);
    ghost var a, sent := c.SnapNow(), c.outlet.sent;
    DrainedNothing(a);
    c.DrainLeftovers(a);
    ghost var b := c.SnapNow();
    Stays(c);
    DrainedFacts(a, b);
    NotRaced(c);
    FewStaged(c);
    NoneHeard(a, b);
    StillFull(c, a.steps, sent);
  }

  lemma NoneHeard(a: Snap, b: Snap)
    requires DrainedTo(a, b) && !b.rest.raced && !b.closed && |a.staged| == 8 && |b.staged| <= 8
    requires a.rest.driverEvents == Some(UNHEARD) && a.rest.driverQuota == 0 && a.sched.active.None?
    ensures b.rest.driverEvents == Some(UNHEARD) && b.rest.driverQuota == 0 && |b.staged| == 8
    ensures b.open.Keys <= a.open.Keys && b.rest.abandoned == a.rest.abandoned && b.sched == a.sched
  {
    hide Accounted;
    assert |b.rest.received| == |a.rest.received|;
    var all := b.rest.received + Waiting(b.rest);
    assert all == a.rest.received + UNHEARD;
    assert Waiting(b.rest) == all[|b.rest.received|..] == UNHEARD;
  }

  /** Then the consumer takes what is ready, the outlet is filled again, and a new operation comes
      in before the turn is over. */
  method Replace(c: Coordinator)
    requires Unheard(c)
    modifies c, c.staging, c.outlet, c.transients, c.ledger
    ensures c.Valid() && c.shutdown.Running? && c.active.Some? && c.active.value.operationId == Name(2)
    ensures c.abandoned == UNHEARD && c.driverEvents == Some([]) && Stranded(c.SnapNow(), Name(0))
  {
    hide Coordinator.Valid, Reliable, Name, Fair;
    Stays(c);
    SentIsFew(c);
    FewReliable(c.outlet.sent);
    c.ServeConsumer();
    ghost var sent := c.outlet.sent;
    c.FlushOutbound();
    Stays(c);
    SentIsFew(c);
    OneEntry(c, Name(0));
    NotNamed(0, 2, 2);
    assert Names(0, 2) == [Name(0), Name(1)];
    ghost var a := c.SnapNow();
    c.ChannelIsOpen();
    assert REPORT in UNHEARD;
    var result := c.Submit(Item(2));
    IdleAdmissionStrands(a, c.SnapNow(), Item(2), Name(0));
    assert [] + UNHEARD == UNHEARD;
  }

  /** A driver confirms the cancellation of its operation and reports it, and the report is never
      delivered: nothing was left of the operation but its place in the ledger. */
  method LosesReport() returns (c: Coordinator)
    ensures fresh(c) && c.Valid() && c.outlet.patient && c.shutdown.Running?
    ensures REPORT in c.abandoned && Stranded(c.SnapNow(), Name(0))
  {
    hide Coordinator.Valid, Cramped, Unheard, Running, Name;
    c := new Coordinator(1, 3, 5, true, true);
    FillUp(c);
    HearStart(c);
    UserCancels(c);
    LastWords(c);
    JoinUnheard(c);
    StillUnheard(c);
    Replace(c);
    assert REPORT in UNHEARD;
  }
}
