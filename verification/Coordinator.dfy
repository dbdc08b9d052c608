/**
 The coordinator actor: exclusive owner of the active operation, the queue, maintenance
 and shutdown. It writes the shared staging queue, ledger and outlet, and every such
 write is recorded as one step of EpochProtocol, so that whatever is proved there of
 every legal step sequence, and of every prefix of one, holds of every run of this
 class and of every point inside a handler where it might panic.
 */
module Coordinator {
  import opened Wrappers
  import opened Identifiers
  import opened RuntimeEvents
  import opened EpochProtocol
  import opened CoordinatorState
  import opened CoordinatorSteps
  import opened Staging
  import opened Ledger
  import opened Outlet
  import Coalescer
  import Shutdown

  const TRANSIENT_KIND_COUNT: nat := 4

  class Coordinator {
    const queueMax: nat
    const driverCap: nat
    const bounds: Bounds
    const staging: ReliableStaging
    const ledger: AcceptedLedger
    const outlet: EventOutlet
    const transients: Coalescer.TransientCoalescer

    var active: Option<Active>
    var queue: seq<Queued>
    var maintenance: Option<Maintenance>
    var driverJoin: bool
    var maintenanceJoin: bool
    var shutdown: Shutdown.State
    var deadline: Option<int>
    var driverEvents: Option<seq<AgentEvent>>
    var sinkClosed: bool
    var lastSettled: seq<OperationId>
    var lastAvailability: Availability
    var lastQueuedLen: nat
    var hand: Option<Event>      // popped from staging and not yet sent

    // The surroundings: the clock, the ids accepted so far (the id source never repeats one),
    // and the driver task of the last start.
    var now: int
    var accepted: seq<OperationId>
    var driverLive: bool
    var driverSettled: bool
    var driverQuota: nat

    // What happened so far.
    ghost var starts: seq<OperationId>
    ghost var steps: seq<Step>
    ghost var staged: seq<Event>
    ghost var received: seq<AgentEvent>
    ghost var lost: seq<Event>   // reliable events dropped for want of staging room
    ghost var raced: bool        // a driver event slipped in behind the emptiness test
    ghost var winding: bool      // the epoch is being wound up
    ghost var removing: Option<OperationId>
    ghost var abandoned: seq<AgentEvent> // driver events let go: settlements without room, leftovers of a channel
    ghost var helpings: nat      // how many events an idle consumer has been given

    ghost function Now(): Shared
      reads this`hand, this`removing, this`accepted, staging, ledger, outlet
      requires ledger.Valid()
    {
      Shared(ledger.Contents(), staging.queue, outlet.sent, hand, removing, accepted, !outlet.closed)
    }

    ghost function SchedNow(): Sched
      reads this`active, this`queue, this`maintenance, this`driverJoin, this`maintenanceJoin
      reads this`shutdown, this`deadline, this`starts
    {
      Sched(active, queue, maintenance, driverJoin, maintenanceJoin, Shutdown.Level(shutdown, deadline), starts)
    }

    /** Everything outside the schedule and the shared objects. */
    ghost function RestNow(): Rest
      reads this`driverEvents, this`driverLive, this`driverSettled, this`driverQuota, this`received, this`accepted, this`lost
      reads this`raced, this`now, this`lastSettled, this`winding, this`lastAvailability, this`lastQueuedLen
      reads this`abandoned, this`helpings
    {
      Rest(driverEvents, driverLive, driverSettled, driverQuota, received, accepted, lost, raced, now, lastSettled, winding,
           lastAvailability, lastQueuedLen, abandoned, helpings)
    }

    lemma Clock()
      ensures RestNow().now == now && RestNow().abandoned == abandoned
    {
    }

    /** The shared objects are sound, and the recorded steps lead to their present state. */
    ghost predicate Wired()
      reads this`steps, this`staged, this`hand, this`removing, this`accepted, this`helpings, staging, ledger, outlet, transients
    {
      && (outlet.idle ==> |outlet.taken| == helpings)
      && staging.Valid() && ledger.Valid() && outlet.Valid() && transients.Valid()
      && staging.cap == bounds.stagingCap && bounds.stagingCap >= PRODUCER_STAGING_RESERVE
      && ledger.cap == bounds.ledgerCap && bounds.ledgerCap == queueMax + 1
      && Traced(bounds, steps, staged, Now())
    }

    /** Who runs, waits and may still report goes with the ledger. */
    ghost predicate Scheduled()
      reads this`active, this`queue, this`maintenance, this`driverJoin, this`maintenanceJoin
      reads this`shutdown, this`deadline, this`starts
      reads this`accepted, this`driverEvents, this`driverLive, this`driverSettled, ledger
    {
      && SchedOk(SchedNow(), accepted)
      && QueueOpen(queue, ledger.states)
      && ChannelOk(driverEvents, starts, active, driverLive, driverSettled, ledger.states)
    }

    /** The invariant without the books, also while an event is in hand. */
    ghost predicate Orderly()
      reads this`steps, this`staged, this`hand, this`removing, this`accepted, this`helpings, staging, ledger, outlet, transients
      reads this`active, this`queue, this`maintenance, this`driverJoin, this`maintenanceJoin
      reads this`shutdown, this`deadline, this`starts
      reads this`sinkClosed, this`driverEvents, this`driverLive, this`driverSettled
    {
      && Wired() && removing.None?
      && (hand.Some? ==> |staging.queue| < staging.cap && !IsMergeable(hand.value))
      && (sinkClosed ==> outlet.closed && staging.queue == [])
      && Scheduled()
    }

    /** The invariant, also while an event is in hand. */
    ghost predicate Sound()
      reads this`steps, this`staged, this`hand, this`removing, this`accepted, this`helpings, staging, ledger, outlet, transients
      reads this`active, this`queue, this`maintenance, this`driverJoin, this`maintenanceJoin
      reads this`shutdown, this`deadline, this`starts
      reads this`sinkClosed, this`driverEvents, this`driverLive, this`driverSettled
      reads this`lost, this`raced, this`winding, this`lastSettled
    {
      Orderly() && BooksOk(lost, raced, winding, driverLive, driverJoin, lastSettled, staged)
    }

    /** The invariant between handlers. */
    ghost predicate Valid()
      reads this`steps, this`staged, this`hand, this`removing, this`accepted, this`helpings, staging, ledger, outlet, transients
      reads this`active, this`queue, this`maintenance, this`driverJoin, this`maintenanceJoin
      reads this`shutdown, this`deadline, this`starts
      reads this`sinkClosed, this`driverEvents, this`driverLive, this`driverSettled
      reads this`lost, this`raced, this`winding, this`lastSettled
    {
      Sound() && hand.None?
    }

    /** The invariant right behind the staging of a settlement that is not yet remembered. */
    ghost predicate Unrecorded()
      reads this`steps, this`staged, this`hand, this`removing, this`accepted, this`helpings, staging, ledger, outlet, transients
      reads this`active, this`queue, this`maintenance, this`driverJoin, this`maintenanceJoin
      reads this`shutdown, this`deadline, this`starts
      reads this`sinkClosed, this`driverEvents, this`driverLive, this`driverSettled
      reads this`lost, this`raced, this`winding, this`lastSettled
    {
      && Orderly() && hand.None? && staged != [] && staged[|staged| - 1].OperationSettled?
      && BooksOk(lost, raced, winding, driverLive, driverJoin, lastSettled, staged[..|staged| - 1])
    }

    /** Only the shared objects moved, along recorded steps that staged nothing. */
    twostate predicate Kept()
      reads this
    {
      && SchedNow() == old(SchedNow()) && RestNow() == old(RestNow())
      && sinkClosed == old(sinkClosed) && old(steps) <= steps && staged == old(staged)
    }

    /** With capacities as they are accepted at start. The driver channel is as large as the outlet,
        and the coalescer has a slot for each transient kind of each operation, and two more. */
    constructor (queueMax: nat, eventCap: nat, stagingCap: nat, patient: bool, idle: bool)
      requires queueMax > 0 && eventCap > 0 && stagingCap >= PRODUCER_STAGING_RESERVE
      ensures Valid() && SchedNow() == Sched(None, [], None, false, false, Shutdown.Level(Shutdown.Running, None), [])
      ensures fresh(staging) && fresh(ledger) && fresh(outlet) && fresh(transients)
      ensures this.queueMax == queueMax && driverCap == eventCap && bounds == Bounds(queueMax + 1, stagingCap)
      ensures outlet.cap == eventCap && outlet.patient == patient && outlet.idle == idle && outlet.sent == []
      ensures staging.queue == [] && staged == [] && ledger.states == map[]
      ensures accepted == [] && steps == [] && lost == [] && !raced && !winding && !sinkClosed
      ensures received == [] && abandoned == [] && helpings == 0 && driverEvents.None?
    {
      this.queueMax, driverCap := queueMax, eventCap;
      bounds := Bounds(queueMax + 1, stagingCap);
      staging := new ReliableStaging(stagingCap);
      ledger := new AcceptedLedger(queueMax + 1);
      outlet := new EventOutlet(eventCap, patient, idle);
      transients := new Coalescer.TransientCoalescer((queueMax + 1) * TRANSIENT_KIND_COUNT + 2);
      active, queue, maintenance, driverJoin, maintenanceJoin := None, [], None, false, false;
      shutdown, deadline, driverEvents, sinkClosed, lastSettled := Shutdown.Running, None, None, false, [];
      lastAvailability, lastQueuedLen := Idle, 0;
      now, accepted, driverLive, driverSettled, driverQuota := 0, [], false, false, 0;
      starts, steps, staged, received, lost, raced, hand, removing := [], [], [], [], [], false, None, None;
      winding, abandoned, helpings := false, [], 0;
    }

    /** Notes one write to the shared state. */
    ghost method Record(step: Step, before: Shared)
      requires ledger.Valid()
      requires Traced(bounds, steps, staged, before)
      requires Enabled(bounds, before, step) && Next(before, step) == Now()
      modifies this`steps, this`staged
      ensures steps == old(steps) + [step]
      ensures staged == if step.Stage? then old(staged) + [step.event] else old(staged)
      ensures Traced(bounds, steps, staged, Now())
    {
      Extend(bounds, steps, step);
      assert (steps + [step])[..|steps|] == steps;
      steps := steps + [step];
      staged := if step.Stage? then staged + [step.event] else staged;
    }

    // ---- shutdown ----

    method ForceAbortChildren()
      modifies this`active, this`maintenance
      ensures SchedNow() == AbortChildren(old(SchedNow()))
    {
      if maintenance.Some? {
        maintenance := Some(maintenance.value.(cancelRequested := true));
      }
      if active.Some? {
        active := CancelActive(active, User);
      }
    }

    method BeginShutdown(request: Shutdown.Request)
      modifies this`shutdown, this`deadline, this`queue, this`active, this`maintenance
      ensures SchedNow() == ShutdownStep(old(SchedNow()), request)
    {
      if shutdown.Stopped? {
        return;
      }
      deadline := Some(if deadline.Some? then Shutdown.Min(deadline.value, request.deadline) else request.deadline);
      if shutdown.Running? {
        queue := [];
        if request.mode.DrainMode? {
          shutdown := Shutdown.Draining;
        } else {
          shutdown := Shutdown.Forced;
          ForceAbortChildren();
        }
      } else if shutdown.Draining? && request.mode.ForcedMode? {
        shutdown := Shutdown.Forced;
        ForceAbortChildren();
      }
    }

    /** A shutdown request keeps the invariant; the ledger keeps every accepted operation. */
    method RequestShutdown(request: Shutdown.Request)
      requires Valid()
      modifies this`shutdown, this`deadline, this`queue, this`active, this`maintenance
      ensures Valid() && SchedNow() == ShutdownStep(old(SchedNow()), request)
    {
      hide Wired, SchedOk, ChannelOk, QueueOpen, BooksOk, ShutdownStep;
      ShutdownKeepsOk(SchedNow(), request, accepted);
      ShutdownKeepsChannel(SchedNow(), request, driverEvents, driverLive, driverSettled, ledger.states);
      BeginShutdown(request);
    }

    method DropWaiting()
      requires Valid() && outlet.closed
      modifies this`sinkClosed, this`steps, this`staged, staging, transients
      ensures Valid() && sinkClosed && old(steps) <= steps && staged == old(staged) && transients.order == []
    {
      hide Valid;
      DropStaged();
      DropTransients();
    }

    method DropStaged()
      requires Valid() && outlet.closed
      modifies this`sinkClosed, this`steps, this`staged, staging
      ensures Valid() && sinkClosed && old(steps) <= steps && staged == old(staged)
    {
      hide Scheduled, BooksOk, Traced;
      sinkClosed := true;
      ghost var before := Now();
      staging.Clear();
      Record(ClearStaging, before);
    }

    method DropTransients()
      requires Valid()
      modifies transients
      ensures Valid() && transients.order == []
    {
      hide Scheduled, BooksOk, Traced;
      transients.Clear();
    }

    method OnEventSinkClosed()
      requires Valid() && outlet.closed
      modifies this, staging, transients
      ensures Valid() && sinkClosed && old(steps) <= steps && staged == old(staged) && RestNow() == old(RestNow())
      ensures SchedNow() == React(old(SchedNow()), old(sinkClosed), true, now)
      ensures !old(sinkClosed) ==> transients.order == []
    {
      hide Valid, SinkLost, SchedNow, RestNow;
      if sinkClosed {
        return;
      }
      DropWaiting();
      StopWithoutSink();
    }

    method StopWithoutSink()
      requires Valid()
      modifies this`shutdown, this`deadline, this`queue, this`active, this`maintenance
      ensures Valid() && SchedNow() == SinkLost(old(SchedNow()), now)
    {
      hide Valid, ShutdownStep;
      if shutdown.Running? {
        RequestShutdown(Shutdown.Request(Shutdown.ForcedMode, now + DEFAULT_SHUTDOWN_TICKS));
      }
    }

    // ---- outbound ----

    /** What any amount of flushing may have done: moved staged events to the outlet in order,
        or noticed that the consumer is gone. */
    twostate predicate Flushed()
      reads this, staging, ledger, outlet, transients
    {
      && old(steps) <= steps && staged == old(staged) && RestNow() == old(RestNow())
      && (old(sinkClosed) ==> sinkClosed)
      && SchedNow() == React(old(SchedNow()), old(sinkClosed), sinkClosed, now)
      && |staging.queue| <= old(|staging.queue|)
      && old(outlet.sent) <= outlet.sent
    }

    /** Something staged moved exactly if anything was sent. */
    twostate predicate Moved()
      reads this, staging, outlet
    {
      !sinkClosed && old(staging.queue) != [] ==>
        && (outlet.sent == old(outlet.sent) <==> staging.queue == old(staging.queue))
        && (outlet.sent != old(outlet.sent) ==> |staging.queue| < old(|staging.queue|))
    }

    method TakeFront()
      requires Valid() && staging.queue != []
      modifies this`hand, this`steps, this`staged, staging
      ensures Sound() && Kept()
      ensures hand == Some(old(staging.queue)[0]) && staging.queue == old(staging.queue)[1..]
    {
      hide Wired, SchedOk, ChannelOk, BooksOk, QueueOpen;
      StagedAreReliable();
      PopStaging();
    }

    method PopStaging()
      requires Wired() && hand.None? && removing.None? && staging.queue != []
      modifies this`hand, this`steps, this`staged, staging
      ensures Wired() && Kept()
      ensures hand == Some(old(staging.queue)[0]) && staging.queue == old(staging.queue)[1..] && |staging.queue| < staging.cap
    {
      hide Traced, SchedNow, RestNow;
      ghost var before := Now();
      hand := staging.PopFront();
      Record(Pop, before);
    }

    lemma StagedAreReliable()
      requires Valid()
      ensures forall e :: e in staging.queue ==> !IsMergeable(e)
    {
      RunInv(bounds, steps);
    }

    /** Offers the event in hand to the outlet; a closed outlet is recorded as such. */
    method OfferHand() returns (result: SendResult)
      requires Sound() && hand.Some?
      modifies this`hand, this`steps, this`staged, outlet
      ensures Sound() && Kept()
      ensures hand == if result.Sent? then None else old(hand)
      ensures outlet.closed == result.Closed?
      ensures outlet.sent == if result.Sent? then old(outlet.sent) + [old(hand).value] else old(outlet.sent)
      ensures result.Full? ==> outlet.IsFull() && old(outlet.IsFull())
    {
      hide BooksOk, Wired, Scheduled, SchedNow, RestNow;
      result := OfferWired();
    }

    method OfferWired() returns (result: SendResult)
      requires Wired() && removing.None? && hand.Some?
      modifies this`hand, this`steps, this`staged, outlet
      ensures Wired() && old(steps) <= steps && staged == old(staged) && (old(outlet.closed) ==> outlet.closed)
      ensures hand == if result.Sent? then None else old(hand)
      ensures outlet.closed == result.Closed?
      ensures outlet.sent == if result.Sent? then old(outlet.sent) + [old(hand).value] else old(outlet.sent)
      ensures result.Full? ==> outlet.IsFull() && old(outlet.IsFull())
    {
      hide Traced;
      ghost var before := Now();
      result := outlet.TrySend(hand.value);
      if result.Sent? {
        hand := None;
        Record(Send, before);
      } else if result.Closed? && before.open {
        Record(SinkCloses, before);
      }
    }

    method ReturnHand()
      requires Sound() && hand.Some? && !sinkClosed
      modifies this`hand, this`steps, this`staged, staging
      ensures Valid() && Kept() && staging.queue == [old(hand).value] + old(staging.queue)
    {
      hide SchedOk, ChannelOk, BooksOk, QueueOpen, Traced, SchedNow, RestNow;
      ghost var before := Now();
      staging.PushFront(hand.value);
      hand := None;
      Record(PutBack, before);
    }

    method LoseHand()
      requires Sound() && hand.Some? && outlet.closed
      modifies this`hand, this`steps, this`staged
      ensures Valid() && Kept()
    {
      hide SchedOk, ChannelOk, BooksOk, QueueOpen, Traced, Scheduled, SchedNow, RestNow;
      ghost var before := Now();
      hand := None;
      Record(Step.LoseHand, before);
    }

    /** Takes the front of staging and offers it to the outlet. */
    method FlushFront() returns (result: SendResult)
      requires Valid() && !sinkClosed && staging.queue != []
      modifies this, staging, outlet, transients
      ensures Valid() && Flushed()
      ensures sinkClosed == result.Closed?
      ensures result.Sent? ==> staging.queue == old(staging.queue)[1..] && outlet.sent == old(outlet.sent) + [old(staging.queue)[0]]
      ensures result.Full? ==> staging.queue == old(staging.queue)
      ensures !result.Sent? ==> outlet.sent == old(outlet.sent)
      ensures if result.Closed? then transients.order == [] else unchanged(transients)
      ensures result.Full? ==> outlet.IsFull() && old(outlet.IsFull())
    {
      hide Orderly, BooksOk, SinkLost, SchedNow, RestNow;
      TakeFront();
      result := OfferHand();
      match result
      case Sent =>
      case Full => ReturnHand();
      case Closed =>
        LoseHand();
        OnEventSinkClosed();
        ClosedIsEmpty();
    }

    lemma ClosedIsEmpty()
      requires Valid() && sinkClosed
      ensures staging.queue == []
    {
    }

    method FlushStagingBestEffort()
      requires Valid()
      modifies this, staging, outlet, transients
      ensures Valid() && Flushed() && Moved()
      ensures !sinkClosed ==> staging.queue == [] || outlet.IsFull()
      ensures !sinkClosed && old(staging.queue) != [] && outlet.sent == old(outlet.sent) ==> old(outlet.IsFull()) && outlet.IsFull()
    {
      if sinkClosed {
        return;
      }
      while staging.queue != []
        invariant Valid() && Flushed() && Moved() && !sinkClosed
        invariant outlet.sent == old(outlet.sent) ==> staging.queue == old(staging.queue) && outlet.IsFull() == old(outlet.IsFull())
        decreases |staging.queue|
      {
        var result := FlushFront();
        if !result.Sent? {
          return;
        }
      }
    }

    method PublishTransient(event: Event)
      requires Valid() && IsMergeable(event)
      modifies transients
      ensures Valid()
      ensures transients.Contents() == Coalescer.Published(old(transients.Contents()), transients.cap, event, OperationOf(), CallOf())
    {
      transients.Publish(event, OperationOf(), CallOf());
    }

    function OperationOf(): Option<OperationId>
      reads this
    {
      if active.Some? then Some(active.value.operationId) else None
    }

    function CallOf(): Option<ModelCallId>
      reads this
    {
      if active.Some? then active.value.lastCall else None
    }

    /** Offers one waiting transient; `false` ends the pass, with a refused one republished. */
    method TrySendOneTransient() returns (ok: bool)
      requires Valid()
      modifies this, staging, outlet, transients
      ensures Valid() && Flushed()
      ensures ok ==> sinkClosed == old(sinkClosed) && staging.queue == old(staging.queue)
      ensures ok && old(transients.order) == [] ==> outlet.sent == old(outlet.sent) && transients.order == []
      ensures ok && old(transients.order) != [] ==>
                |outlet.sent| == |old(outlet.sent)| + 1 && IsMergeable(outlet.sent[|outlet.sent| - 1])
                && outlet.sent == old(outlet.sent) + [outlet.sent[|outlet.sent| - 1]]
                && |transients.order| < |old(transients.order)|
      ensures !ok ==> outlet.sent == old(outlet.sent) && (old(transients.order) != [])
      ensures !ok && !sinkClosed ==> outlet.IsFull() && staging.queue == old(staging.queue)
    {
      hide SchedOk, ChannelOk, BooksOk, QueueOpen, Traced;
      var event := TakeTransient();
      if event.None? {
        return true;
      }
      var result := OfferTransient(event.value);
      match result
      case Sent =>
        return true;
      case Full =>
        PublishTransient(event.value);
        return false;
      case Closed =>
        OnEventSinkClosed();
        return false;
    }

    method TakeTransient() returns (event: Option<Event>)
      requires Valid()
      modifies transients
      ensures Valid()
      ensures event.None? <==> old(transients.order) == []
      ensures event.None? ==> transients.order == []
      ensures event.Some? ==> IsMergeable(event.value) && |transients.order| < |old(transients.order)|
    {
      hide Traced, SchedOk, ChannelOk, QueueOpen, BooksOk;
      event := transients.TakeOne();
    }

    method OfferTransient(event: Event) returns (result: SendResult)
      requires Valid() && IsMergeable(event)
      modifies this`steps, this`staged, outlet
      ensures Valid() && Kept()
      ensures outlet.closed == result.Closed?
      ensures outlet.sent == if result.Sent? then old(outlet.sent) + [event] else old(outlet.sent)
      ensures result.Full? ==> outlet.IsFull()
    {
      hide Traced, SchedOk, ChannelOk, QueueOpen, BooksOk;
      ghost var before := Now();
      result := outlet.TrySend(event);
      if result.Sent? {
        Record(SendTransient(event), before);
      } else if result.Closed? && before.open {
        Record(SinkCloses, before);
      }
    }

    method FlushTransientsBestEffort()
      requires Valid()
      modifies this, staging, outlet, transients
      ensures Valid() && Flushed()
      ensures !sinkClosed && old(staging.queue) == [] ==> transients.order == [] || outlet.IsFull()
      ensures !sinkClosed ==> staging.queue == old(staging.queue) && (old(outlet.IsFull()) && old(staging.queue) != [] ==> outlet.IsFull())
      ensures old(staging.queue) != [] ==> outlet.sent == old(outlet.sent) && staging.queue == old(staging.queue)
    {
      if sinkClosed || staging.queue != [] {
        return;
      }
      while transients.order != []
        invariant Valid() && Flushed() && (!sinkClosed ==> staging.queue == [])
        decreases |transients.order|
      {
        var ok := TrySendOneTransient();
        if !ok {
          return;
        }
      }
    }

    /** One outbound pass. No more than four reliable events are sent in a row while a
        transient waits: wherever five or more follow each other, none was waiting. */
    method FlushOutbound()
      requires Valid()
      modifies this, staging, outlet, transients
      ensures Valid() && Flushed()
      ensures Fair(outlet.sent[|old(outlet.sent)|..], transients.order != [])
      ensures !sinkClosed ==> staging.queue == [] || |staging.queue| + Shutdown.Min(|outlet.sent| - |old(outlet.sent)|, RELIABLE_BEFORE_TRANSIENT) <= old(|staging.queue|)
      ensures !sinkClosed ==> staging.queue == [] || outlet.IsFull()
    {
      hide Valid, SinkLost, Fair, Trailing, SchedNow, RestNow;
      ghost var out: seq<Event> := [];
      FairNothing();
      var reliableSinceTransient := 0;
      var blocked := sinkClosed;
      while !blocked && (staging.queue != [] || (reliableSinceTransient >= RELIABLE_BEFORE_TRANSIENT && transients.order != []))
        invariant Valid() && Flushed() && (!blocked ==> !sinkClosed)
        invariant blocked && !sinkClosed ==> outlet.IsFull()
        invariant outlet.sent == old(outlet.sent) + out
        invariant reliableSinceTransient == Trailing(out)
        invariant Fair(out, transients.order != [])
        invariant !sinkClosed ==> staging.queue == [] || |staging.queue| + Shutdown.Min(|out|, RELIABLE_BEFORE_TRANSIENT) <= old(|staging.queue|)
        invariant |out| < RELIABLE_BEFORE_TRANSIENT ==> reliableSinceTransient == |out|
        invariant reliableSinceTransient > RELIABLE_BEFORE_TRANSIENT ==> transients.order == []
        decreases !blocked, |staging.queue| + |transients.order|
      {
        ghost var waiting := transients.order != [];
        if reliableSinceTransient >= RELIABLE_BEFORE_TRANSIENT && transients.order != [] {
          ghost var event;
          blocked, event := SendWaitingTransient();
          if !blocked {
            FairTransient(out, event, transients.order != []);
            out := out + [event];
            reliableSinceTransient := 0;
          } else {
            FairWeakened(out, transients.order != []);
          }
        } else {
          StagedAreReliable();
          ghost var event := staging.queue[0];
          var result := FlushFront();
          blocked := !result.Sent?;
          if !blocked {
            FairReliable(out, event, waiting);
            out := out + [event];
            reliableSinceTransient := reliableSinceTransient + 1;
          } else {
            FairWeakened(out, transients.order != []);
          }
        }
      }
      if !blocked && transients.order != [] {
        ghost var event;
        blocked, event := SendWaitingTransient();
        if !blocked {
          FairTransient(out, event, transients.order != []);
          out := out + [event];
        } else {
          FairWeakened(out, transients.order != []);
        }
      }
      assert outlet.sent[|old(outlet.sent)|..] == out;
    }

    method SendWaitingTransient() returns (blocked: bool, ghost event: Event)
      requires Valid() && transients.order != []
      modifies this, staging, outlet, transients
      ensures Valid() && Flushed()
      ensures !blocked ==> IsMergeable(event) && sinkClosed == old(sinkClosed) && staging.queue == old(staging.queue)
      ensures outlet.sent == if blocked then old(outlet.sent) else old(outlet.sent) + [event]
      ensures !blocked ==> |transients.order| < |old(transients.order)|
      ensures blocked && !sinkClosed ==> outlet.IsFull() && staging.queue == old(staging.queue)
    {
      var ok := TrySendOneTransient();
      blocked := !ok;
      event := if blocked then RuntimeFault("") else outlet.sent[|outlet.sent| - 1];
    }

    // ---- staging and settlement ----

    /** Stages one reliable event; a settlement also leaves the ledger. */
    method StageReliable(event: Event) returns (ok: bool)
      requires Valid() && !IsMergeable(event)
      requires event.OperationSettled? && !sinkClosed && |staging.queue| < staging.cap ==>
                 Settleable(event.operationId, SchedNow(), driverEvents, driverSettled, ledger.states)
      modifies this`steps, this`staged, this`removing, staging, ledger
      ensures if ok && event.OperationSettled? then Unrecorded() else Valid()
      ensures ok == (!sinkClosed && old(|staging.queue|) < staging.cap)
      ensures !ok ==> staged == old(staged) && steps == old(steps) && staging.queue == old(staging.queue)
      ensures ok ==> staged == old(staged) + [event] && old(steps) <= steps && staging.queue == old(staging.queue) + [event]
      ensures ledger.states == if ok && event.OperationSettled? then old(ledger.states) - {event.operationId} else old(ledger.states)
      ensures ledger.Contents() == if ok && event.OperationSettled? then Drop(old(ledger.Contents()), {event.operationId}) else old(ledger.Contents())
    {
      hide Scheduled, SchedNow, RestNow;
      if sinkClosed {
        return false;
      }
      if event.OperationSettled? {
        if |staging.queue| >= staging.cap {
          return false;
        }
        ok := StageSettlement(event);
      } else {
        ok := StagePlain(event);
      }
    }

    method StagePlain(event: Event) returns (ok: bool)
      requires Valid() && !sinkClosed && !IsMergeable(event) && !event.OperationSettled?
      modifies this`steps, this`staged, staging
      ensures Valid()
      ensures ok == (old(|staging.queue|) < staging.cap)
      ensures staging.queue == if ok then old(staging.queue) + [event] else old(staging.queue)
      ensures staged == if ok then old(staged) + [event] else old(staged)
      ensures if ok then old(steps) <= steps else steps == old(steps)
    {
      hide SchedOk, ChannelOk, BooksOk, QueueOpen, Traced, SchedNow, RestNow;
      ghost var before := Now();
      ok := staging.Push(event);
      if ok {
        BooksPlain(lost, raced, winding, driverLive, driverJoin, lastSettled, staged, event);
        Record(Stage(event), before);
      }
    }

    method StageSettlement(event: Event) returns (ok: bool)
      requires Valid() && !sinkClosed && event.OperationSettled?
      requires Settleable(event.operationId, SchedNow(), driverEvents, driverSettled, ledger.states)
      modifies this`steps, this`staged, this`removing, staging, ledger
      ensures if ok then Unrecorded() else Valid()
      ensures ok == (old(|staging.queue|) < staging.cap)
      ensures !ok ==> staged == old(staged) && steps == old(steps) && staging.queue == old(staging.queue) && unchanged(ledger)
      ensures ok ==> staged == old(staged) + [event] && old(steps) <= steps && staging.queue == old(staging.queue) + [event]
      ensures ok ==> ledger.states == old(ledger.states) - {event.operationId}
      ensures ok ==> ledger.Contents() == Drop(old(ledger.Contents()), {event.operationId})
    {
      hide Wired, BooksOk, SchedOk, ChannelOk, QueueOpen, Settleable, RestNow;
      SettledChannel(event.operationId, SchedNow(), driverEvents, driverLive, driverSettled, ledger.states);
      ok := PushAndUnledger(event);
      if ok {
        assert staged[..|staged| - 1] == old(staged);
      }
    }

    method PushAndUnledger(event: Event) returns (ok: bool)
      requires Wired() && hand.None? && removing.None? && event.OperationSettled? && event.operationId in ledger.states
      modifies this`steps, this`staged, this`removing, staging, ledger
      ensures Wired() && removing.None?
      ensures ok == (old(|staging.queue|) < staging.cap)
      ensures !ok ==> staged == old(staged) && steps == old(steps) && staging.queue == old(staging.queue) && unchanged(ledger)
      ensures ok ==> staged == old(staged) + [event] && old(steps) <= steps && staging.queue == old(staging.queue) + [event]
      ensures ok ==> ledger.states == old(ledger.states) - {event.operationId}
      ensures ok ==> ledger.Contents() == Drop(old(ledger.Contents()), {event.operationId})
    {
      hide Traced;
      ok := PushSettlement(event);
      if ok {
        Unledgered(event.operationId);
      }
    }

    method PushSettlement(event: Event) returns (ok: bool)
      requires Wired() && hand.None? && removing.None? && event.OperationSettled? && event.operationId in ledger.states
      modifies this`steps, this`staged, this`removing, staging
      ensures Wired() && staging.queue == if ok then old(staging.queue) + [event] else old(staging.queue)
      ensures ok == (old(|staging.queue|) < staging.cap)
      ensures removing == if ok then Some(event.operationId) else None
      ensures if ok then steps == old(steps) + [Stage(event)] && staged == old(staged) + [event]
              else steps == old(steps) && staged == old(staged)
    {
      hide Traced;
      ghost var before := Now();
      ledger.HoldsIsMember(event.operationId);
      ok := staging.Push(event);
      if ok {
        removing := Some(event.operationId);
        Record(Stage(event), before);
      }
    }

    /** Removes the ledger entry of the settlement just staged. */
    method Unledgered(id: OperationId)
      requires Wired() && hand.None? && removing == Some(id)
      modifies this`steps, this`staged, this`removing, ledger
      ensures Wired() && removing.None?
      ensures steps == old(steps) + [Unledger] && staged == old(staged)
      ensures ledger.states == old(ledger.states) - {id}
      ensures ledger.Contents() == Drop(old(ledger.Contents()), {id})
    {
      hide Traced, Drop;
      ghost var before := Now();
      var _ := ledger.Remove(id);
      removing := None;
      Record(Unledger, before);
    }

    /** Settles an operation that is still in the ledger; a settled or unknown one is left alone. */
    method SettleOperation(id: OperationId, session: SessionId, status: OperationStatus,
                           durability: SettlementDurability, revision: SettlementRevision) returns (published: bool)
      requires Valid()
      requires id in ledger.states && !sinkClosed && |staging.queue| < staging.cap ==>
                 Settleable(id, SchedNow(), driverEvents, driverSettled, ledger.states)
      modifies this`steps, this`staged, this`removing, this`lastSettled, staging, ledger
      ensures Valid()
      ensures published == (id in old(ledger.states) && !sinkClosed && old(|staging.queue|) < staging.cap)
      ensures !published ==> staged == old(staged) && steps == old(steps) && staging.queue == old(staging.queue)
      ensures published ==>
                && staged == old(staged) + [OperationSettled(id, session, status, durability, revision)]
                && staging.queue == old(staging.queue) + [OperationSettled(id, session, status, durability, revision)]
                && old(steps) <= steps
      ensures ledger.states == if published then old(ledger.states) - {id} else old(ledger.states)
      ensures ledger.Contents() == if published then Drop(old(ledger.Contents()), {id}) else old(ledger.Contents())
      ensures lastSettled == if published then LastSettled(old(lastSettled), id) else old(lastSettled)
      ensures RestNow() == old(RestNow()).(lastSettled := lastSettled)
    {
      hide Valid, Unrecorded, Settleable;
      if ledger.SessionOf(id).None? {
        return false;
      }
      published := StageReliable(OperationSettled(id, session, status, durability, revision));
      if published {
        RecordSettled(id);
      }
    }

    method RecordSettled(id: OperationId)
      requires Unrecorded() && staged[|staged| - 1].operationId == id
      modifies this`lastSettled
      ensures Valid() && lastSettled == LastSettled(old(lastSettled), id)
      ensures RestNow() == old(RestNow()).(lastSettled := lastSettled)
    {
      hide SchedOk, BooksOk, Wired, ChannelOk, QueueOpen;
      BooksSettled(lost, raced, winding, driverLive, driverJoin, lastSettled, staged[..|staged| - 1], staged[|staged| - 1]);
      assert staged == staged[..|staged| - 1] + [staged[|staged| - 1]];
      lastSettled := lastSettled + [id];
      if |lastSettled| > LAST_SETTLED_MAX {
        lastSettled := lastSettled[1..];
      }
    }

    /** There was no room for an event and nothing was sent to make any. */
    twostate predicate NoRoom()
      reads this, staging, outlet
    {
      !sinkClosed && old(|staging.queue|) >= staging.cap && outlet.sent == old(outlet.sent)
    }

    /** What emitting a reliable event does besides flushing: the event is staged, and dropped
        exactly if the consumer is there, staging was full and nothing could be sent. Emitting
        into a closed sink does nothing. */
    twostate predicate Emitted(event: Event)
      reads this, staging, ledger, outlet, transients
    {
      && old(steps) <= steps && (old(sinkClosed) ==> sinkClosed)
      && SchedNow() == React(old(SchedNow()), old(sinkClosed), sinkClosed, now)
      && RestNow() == old(RestNow()).(lost := lost)
      && staged == (if sinkClosed || NoRoom() then old(staged) else old(staged) + [event])
      && lost == (if NoRoom() then old(lost) + [event] else old(lost))
      && |staging.queue| <= old(|staging.queue|) + 1 && old(outlet.sent) <= outlet.sent
    }

    /** An event that is not flushed before finds no room if staging is full, another one only if
        the outlet was full as well and stayed so. */
    method EmitReliable(event: Event)
      requires Valid() && !IsMergeable(event) && !event.OperationSettled?
      requires |staging.queue| < staging.cap || raced || event.RuntimeFault?
      modifies this, staging, outlet, transients
      ensures Valid() && Emitted(event)
      ensures IsPrefixReliable(event) ==> sinkClosed == old(sinkClosed) && outlet.sent == old(outlet.sent)
      ensures IsPrefixReliable(event) && !sinkClosed && old(|staging.queue|) < staging.cap ==> staging.queue == old(staging.queue) + [event]
      ensures !IsPrefixReliable(event) && !sinkClosed ==> |staging.queue| <= 1 || outlet.IsFull()
      ensures !IsPrefixReliable(event) && NoRoom() ==> old(outlet.IsFull()) && outlet.IsFull()
    {
      hide Valid, SinkLost, SchedNow;
      if sinkClosed {
        return;
      }
      if IsPrefixReliable(event) {
        StageOrLose(event);
      } else {
        FlushAndStage(event);
      }
    }

    method FlushAndStage(event: Event)
      requires Valid() && !sinkClosed && !IsMergeable(event) && !event.OperationSettled?
      requires |staging.queue| < staging.cap || raced || event.RuntimeFault?
      modifies this, staging, outlet, transients
      ensures Valid() && Emitted(event)
      ensures !sinkClosed ==> |staging.queue| <= 1 || outlet.IsFull()
      ensures NoRoom() ==> old(outlet.IsFull()) && outlet.IsFull()
    {
      hide Valid, SinkLost, SchedNow;
      RoomIsPositive();
      FlushBestEffort();
      if !sinkClosed {
        StageOrLose(event);
      }
    }

    method StageOrLose(event: Event)
      requires Valid() && !sinkClosed && !IsMergeable(event) && !event.OperationSettled?
      requires |staging.queue| < staging.cap || raced || event.RuntimeFault?
      modifies this`steps, this`staged, this`lost, staging
      ensures Valid() && old(steps) <= steps
      ensures staged == if old(|staging.queue|) < staging.cap then old(staged) + [event] else old(staged)
      ensures staging.queue == if old(|staging.queue|) < staging.cap then old(staging.queue) + [event] else old(staging.queue)
      ensures lost == if old(|staging.queue|) < staging.cap then old(lost) else old(lost) + [event]
    {
      hide Valid;
      var kept := StagePlain(event);
      if !kept {
        Lose(event);
      }
    }

    lemma RoomIsPositive()
      requires Valid()
      ensures |staging.queue| <= staging.cap && staging.cap >= PRODUCER_STAGING_RESERVE
    {
    }

    /** Sends what waits, reliable events first, as far as the outlet takes it. */
    method FlushBestEffort()
      requires Valid()
      modifies this, staging, outlet, transients
      ensures Valid() && Flushed() && Moved()
      ensures !sinkClosed ==> staging.queue == [] || outlet.IsFull()
      ensures !sinkClosed && old(staging.queue) != [] && outlet.sent == old(outlet.sent) ==> old(outlet.IsFull()) && outlet.IsFull()
    {
      hide Valid, SinkLost;
      FlushStagingBestEffort();
      FlushTransientsBestEffort();
    }

    /** Notes an event dropped for want of room. */
    ghost method Lose(event: Event)
      requires Valid() && (raced || event.RuntimeFault?)
      modifies this`lost
      ensures Valid() && lost == old(lost) + [event]
    {
      hide SchedOk, Wired, ChannelOk, QueueOpen;
      lost := lost + [event];
    }

    method EmitTransient(event: Event)
      requires Valid() && IsMergeable(event)
      modifies transients
      ensures Valid()
      ensures transients.Contents() == if sinkClosed then old(transients.Contents())
                                       else Coalescer.Published(old(transients.Contents()), transients.cap, event, OperationOf(), CallOf())
    {
      if !sinkClosed {
        PublishTransient(event);
      }
    }

    /** Publishes what the driver's own store of transients gave out. */
    method EmitTransientAgents(events: seq<AgentEvent>)
      requires Valid() && forall e :: e in events ==> IsTransientAgent(e)
      modifies this, staging, outlet, transients
      ensures Valid() && Flushed() && Moved()
    {
      hide Valid, SinkLost;
      for i := 0 to |events|
        invariant Valid() && Flushed() && Moved()
      {
        if events[i].TextDelta? || events[i].ReasoningDelta? {
          FlushBestEffort();
        }
        EmitTransient(Agent(events[i]));
      }
    }

    /** Some of the transients the driver coalesced so far are published. */
    method ReleaseTransients()
      requires Valid()
      modifies this, staging, outlet, transients
      ensures Valid() && Flushed() && Moved()
    {
      var events: seq<AgentEvent> := *;
      if forall e :: e in events ==> IsTransientAgent(e) {
        EmitTransientAgents(events);
      }
    }

    // ---- the driver channel ----

    ghost function SnapNow(): Snap
      reads this, ledger
    {
      Snap(SchedNow(), RestNow(), steps, staged, sinkClosed, ledger.states)
    }

    /** How many events the driver still has to send is up to it. */
    method Expect(count: nat)
      requires Valid()
      modifies this`driverQuota
      ensures Valid() && driverQuota == count
    {
      hide Wired, BooksOk, SchedOk, ChannelOk, QueueOpen;
      driverQuota := count;
    }

    /** The driver task sends some of its remaining events, a settlement at most once. */
    method DriverActs()
      requires Valid()
      modifies this`driverEvents, this`driverSettled, this`driverQuota
      ensures Valid() && DrainedTo(old(SnapNow()), SnapNow())
      ensures Left(RestNow()) == Left(old(RestNow())) && driverEvents.Some? == old(driverEvents).Some?
      ensures !driverLive || old(driverQuota) == 0 ==> RestNow() == old(RestNow())
      ensures old(driverEvents).Some? ==> driverEvents.Some? && old(driverEvents).value <= driverEvents.value
    {
      hide Wired, Traced, BooksOk, SchedOk, ChannelOk, QueueOpen, DrainedTo, MaySend, NoSettlement;
      DrainedNothing(SnapNow());
      LiveDriver(driverEvents, SchedNow(), accepted, driverLive, driverSettled, ledger.states);
      var more: seq<AgentEvent> := *;
      if driverLive && 0 < |more| <= driverQuota && |driverEvents.value| + |more| <= driverCap
         && MaySend(more, active.value.operationId, driverSettled) {
        Arrive(more);
      }
    }

    method Arrive(more: seq<AgentEvent>)
      requires Valid() && driverLive && driverEvents.Some? && active.Some? && |more| <= driverQuota
      requires MaySend(more, active.value.operationId, driverSettled)
      modifies this`driverEvents, this`driverSettled, this`driverQuota
      ensures Valid() && DrainedTo(old(SnapNow()), SnapNow())
      ensures Left(RestNow()) == Left(old(RestNow())) && driverEvents.Some?
      ensures old(driverEvents).value <= driverEvents.value
    {
      hide Valid, DrainedTo, Accounted, MaySend;
      ghost var a := SnapNow();
      Append(more);
      ArrivalsDrained(a, SnapNow(), more);
    }

    method Append(more: seq<AgentEvent>)
      requires Valid() && driverLive && driverEvents.Some? && active.Some? && |more| <= driverQuota
      requires MaySend(more, active.value.operationId, driverSettled)
      modifies this`driverEvents, this`driverSettled, this`driverQuota
      ensures Valid() && driverEvents == Some(old(driverEvents).value + more) && driverQuota == old(driverQuota) - |more|
      ensures driverSettled == (old(driverSettled) || !NoSettlement(more))
    {
      hide Valid, MaySend, NoSettlement;
      driverQuota := driverQuota - |more|;
      Deliver(more);
    }

    method Deliver(more: seq<AgentEvent>)
      requires Valid() && driverLive && driverEvents.Some? && active.Some?
      requires MaySend(more, active.value.operationId, driverSettled)
      modifies this`driverEvents, this`driverSettled
      ensures Valid() && driverEvents == Some(old(driverEvents).value + more)
      ensures driverSettled == (old(driverSettled) || !NoSettlement(more))
    {
      hide Wired, BooksOk, SchedOk, ChannelOk, QueueOpen, MaySend, NoSettlement;
      LiveDriver(driverEvents, SchedNow(), accepted, driverLive, driverSettled, ledger.states);
      ArrivalsOk(more, driverEvents.value, starts, active, driverSettled, ledger.states);
      driverEvents, driverSettled := Some(driverEvents.value + more), driverSettled || !NoSettlement(more);
    }

    /** An idle consumer takes all events that are ready. */
    method ServeConsumer()
      requires Valid()
      modifies this`helpings, outlet
      ensures Valid() && outlet.buffer == [] && outlet.sent == old(outlet.sent)
      ensures SnapNow() == old(SnapNow()).(rest := old(RestNow()).(helpings := helpings))
      ensures outlet.idle ==> helpings == |outlet.sent|
    {
      hide SchedOk, ChannelOk, QueueOpen, BooksOk, Traced, Scheduled;
      outlet.Take();
      helpings := |outlet.taken|;
    }

    method DriverEventsPending() returns (pending: bool)
      requires Valid()
      modifies this`driverEvents, this`driverSettled, this`driverQuota
      ensures Valid() && DrainedTo(old(SnapNow()), SnapNow())
      ensures Left(RestNow()) == Left(old(RestNow())) && driverEvents.Some? == old(driverEvents).Some?
      ensures pending == (driverEvents.Some? && driverEvents.value != [])
      ensures !driverLive ==> RestNow() == old(RestNow())
    {
      DriverActs();
      pending := driverEvents.Some? && driverEvents.value != [];
    }

    method TryRecvDriver() returns (event: Option<AgentEvent>)
      requires Valid()
      modifies this`driverEvents, this`received
      ensures Valid()
      ensures event.None? ==> driverEvents == old(driverEvents) && received == old(received) && (driverEvents.None? || driverEvents.value == [])
      ensures event.Some? ==>
                && old(driverEvents).Some? && driverEvents.Some? && old(driverEvents).value == [event.value] + driverEvents.value
                && received == old(received) + [event.value] && !IsTransientAgent(event.value)
                && (event.value.AgentSettled? ==> Settleable(event.value.operationId, SchedNow(), driverEvents, driverSettled, ledger.states))
    {
      hide Wired, BooksOk;
      if driverEvents.None? || driverEvents.value == [] {
        return None;
      }
      event := Some(driverEvents.value[0]);
      ReceivedOk(driverEvents.value, SchedNow(), accepted, driverLive, driverSettled, ledger.states);
      driverEvents := Some(driverEvents.value[1..]);
      received := received + [event.value];
    }

    /** Forwards one driver event: its own settlement settles the operation, everything else
        is emitted. */
    method ForwardDriverEvent(agent: AgentEvent)
      requires Valid() && !IsTransientAgent(agent)
      requires agent.AgentSettled? ==>
                 && agent.operationId in ledger.states
                 && Settleable(agent.operationId, SchedNow(), driverEvents, driverSettled, ledger.states)
      requires |staging.queue| < staging.cap || raced
      modifies this, staging, outlet, transients, ledger
      ensures Valid() && ForwardedOne(old(SnapNow()), SnapNow(), agent, old(|staging.queue|) < staging.cap)
      ensures |staging.queue| <= old(|staging.queue|) + 1
      ensures !agent.AgentSettled? ==> lost == old(lost) + if NoRoom() then [Agent(agent)] else []
    {
      hide Valid, Settleable, ForwardedOne;
      if agent.AgentSettled? {
        // a settlement belongs to the active operation or to one still in the ledger
        assert active.Some? || ledger.SessionOf(agent.operationId).Some?;
        ForwardSettlement(agent, if active.Some? then active.value.sessionId
                                 else ledger.SessionOf(agent.operationId).value);
      } else {
        ForwardOther(agent);
      }
    }

    method ForwardSettlement(agent: AgentEvent, session: SessionId)
      requires Valid() && agent.AgentSettled? && agent.operationId in ledger.states
      requires Settleable(agent.operationId, SchedNow(), driverEvents, driverSettled, ledger.states)
      requires Some(session) == SessionFor(SnapNow(), agent.operationId)
      modifies this, staging, outlet, transients, ledger
      ensures Valid() && ForwardedOne(old(SnapNow()), SnapNow(), agent, old(|staging.queue|) < staging.cap)
      ensures |staging.queue| <= old(|staging.queue|) + 1
    {
      hide Valid, React, Noted, SessionFor, Settleable, ForwardedOne, SchedNow, RestNow;
      ghost var a, room := SnapNow(), |staging.queue| < staging.cap;
      ReleaseBefore(agent.operationId);
      Clock();
      var published := SettleOperation(agent.operationId, session, agent.status, agent.durability, agent.revision);
      if !published && !sinkClosed {
        Clock();
        Abandon([agent]);
      }
      SettledIsForwarded(a, SnapNow(), agent, session, published, room);
    }

    /** Notes driver events that nobody will forward. */
    ghost method Abandon(events: seq<AgentEvent>)
      requires Valid()
      modifies this`abandoned
      ensures Valid() && RestNow() == old(RestNow()).(abandoned := old(abandoned) + events)
    {
      hide Wired, BooksOk, SchedOk, ChannelOk, QueueOpen;
      abandoned := abandoned + events;
    }

    /** Releasing transients does not get in the way of a settlement. */
    method ReleaseBefore(id: OperationId)
      requires Valid() && Settleable(id, SchedNow(), driverEvents, driverSettled, ledger.states)
      modifies this, staging, outlet, transients
      ensures Valid() && Flushed() && Settleable(id, SchedNow(), driverEvents, driverSettled, ledger.states)
    {
      hide Valid, React, Settleable;
      ghost var s, was := SchedNow(), sinkClosed;
      ReleaseTransients();
      SettleableAfterReact(id, s, was, sinkClosed, now, driverEvents, driverSettled, ledger.states);
    }

    method ForwardOther(agent: AgentEvent)
      requires Valid() && !IsTransientAgent(agent) && !agent.AgentSettled?
      requires |staging.queue| < staging.cap || raced
      modifies this, staging, outlet, transients
      ensures Valid() && ForwardedOne(old(SnapNow()), SnapNow(), agent, old(|staging.queue|) < staging.cap)
      ensures |staging.queue| <= old(|staging.queue|) + 1
      ensures !agent.AgentSettled? ==> lost == old(lost) + if NoRoom() then [Agent(agent)] else []
    {
      hide Valid, SinkLost, React, Noted, SchedNow;
      ghost var s, was := SchedNow(), sinkClosed;
      if agent.ModelCallStarted? {
        Note(agent);
      }
      Release(agent);
      NotedForwarding(s, agent, was, sinkClosed, now);
      UnnotedEvents(s, agent, was, sinkClosed, now);
      if agent.OperationStarted? {
        Note(agent);
      }
    }

    /** Publishes what the event releases, then the event itself. */
    method Release(agent: AgentEvent)
      requires Valid() && !IsTransientAgent(agent) && !agent.AgentSettled?
      requires |staging.queue| < staging.cap || raced
      modifies this, staging, outlet, transients
      ensures Valid() && Emitted(Agent(agent))
    {
      hide Valid, SinkLost;
      RoomIsPositive();
      ReleaseTransients();
      EmitReliable(Agent(agent));
    }

    method Note(agent: AgentEvent)
      requires Valid()
      modifies this`active
      ensures Valid() && SchedNow() == Noted(old(SchedNow()), agent)
    {
      hide Wired, BooksOk, QueueOpen;
      if active.Some? {
        if agent.ModelCallStarted? {
          active := Some(active.value.(lastCall := Some(agent.modelCallId)));
        } else if agent.OperationStarted? {
          active := Some(active.value.(started := true));
        }
      }
    }

    /** Receives and forwards the next driver event, if there is one. With no room left it is
        an event that slipped in behind an emptiness test. */
    method ForwardNext() returns (more: bool)
      requires Valid() && (|staging.queue| < staging.cap || winding || driverEvents.None? || driverEvents.value == [])
      modifies this, staging, outlet, transients, ledger
      ensures Valid() && DrainedTo(old(SnapNow()), SnapNow())
      ensures old(|staging.queue|) < staging.cap ==> raced == old(raced)
      ensures !more ==> RestNow() == old(RestNow()) && (driverEvents.None? || driverEvents.value == [])
      ensures !more ==> sinkClosed == old(sinkClosed) && staging.queue == old(staging.queue)
      ensures more ==> Left(RestNow()) < Left(old(RestNow())) && driverEvents.Some?
      ensures more ==> old(driverEvents).Some? && old(driverEvents).value != []
      ensures |staging.queue| <= old(|staging.queue|) + 1
      ensures |received| == |old(received)| + if more then 1 else 0
      ensures more && !old(driverEvents).value[0].AgentSettled? ==>
                lost == old(lost) + if NoRoom() then [Agent(old(driverEvents).value[0])] else []
      ensures more ==> received == old(received) + [old(driverEvents).value[0]]
      ensures driverSettled == old(driverSettled)
    {
      hide Valid, Settleable, ForwardedOne, DrainedTo, ReceivedOne;
      ghost var a := SnapNow();
      var event := ReceiveNext();
      if event.None? {
        DrainedNothing(a);
        return false;
      }
      ghost var b, room := SnapNow(), |staging.queue| < staging.cap;
      ReceivedIsAccepted(event.value);
      ForwardDriverEvent(event.value);
      ForwardedIsDrained(a, b, SnapNow(), event.value, room);
      ForwardedRest(a, b, SnapNow(), event.value, room);
      assert received == a.rest.received + [event.value];
      return true;
    }

    method ReceiveNext() returns (event: Option<AgentEvent>)
      requires Valid() && (|staging.queue| < staging.cap || winding || driverEvents.None? || driverEvents.value == [])
      modifies this`driverEvents, this`received, this`raced
      ensures Valid()
      ensures event.None? ==> RestNow() == old(RestNow()) && (driverEvents.None? || driverEvents.value == [])
      ensures event.Some? ==>
                && ReceivedOne(old(SnapNow()), SnapNow(), event.value) && !IsTransientAgent(event.value)
                && old(driverEvents).Some? && old(driverEvents).value != [] && driverEvents.Some?
                && event.value == old(driverEvents).value[0] && received == old(received) + [event.value] && lost == old(lost)
      ensures event.Some? && event.value.AgentSettled? ==>
                && starts != [] && event.value.operationId == starts[|starts| - 1]
                && event.value.operationId in ledger.states
                && Settleable(event.value.operationId, SchedNow(), driverEvents, driverSettled, ledger.states)
      ensures if event.Some? && |staging.queue| >= staging.cap then raced else raced == old(raced)
    {
      hide Valid, SchedNow, Settleable;
      event := ReceiveMarked();
    }

    method ReceiveMarked() returns (event: Option<AgentEvent>)
      requires Valid() && (|staging.queue| < staging.cap || winding || driverEvents.None? || driverEvents.value == [])
      modifies this`driverEvents, this`received, this`raced
      ensures Valid()
      ensures event.None? ==> driverEvents == old(driverEvents) && received == old(received) && (driverEvents.None? || driverEvents.value == [])
      ensures event.Some? ==>
                && old(driverEvents).Some? && driverEvents.Some? && old(driverEvents).value == [event.value] + driverEvents.value
                && received == old(received) + [event.value] && !IsTransientAgent(event.value)
      ensures event.Some? && event.value.AgentSettled? ==>
                && starts != [] && event.value.operationId == starts[|starts| - 1]
                && event.value.operationId in ledger.states
                && Settleable(event.value.operationId, SchedNow(), driverEvents, driverSettled, ledger.states)
      ensures if event.Some? && |staging.queue| >= staging.cap then raced else raced == old(raced)
    {
      hide Wired, BooksOk, Scheduled, Settleable, SchedNow;
      OwnerOfChannel();
      event := TryRecvDriver();
      if event.Some? && |staging.queue| >= staging.cap {
        MarkRaced();
      }
    }

    lemma ReceivedIsAccepted(agent: AgentEvent)
      requires Valid()
      ensures agent.AgentSettled? && agent.operationId in ledger.states ==> agent.operationId in accepted
      ensures raced ==> winding
    {
      hide SchedOk, ChannelOk, QueueOpen, Wired;
      if agent.AgentSettled? && agent.operationId in ledger.states {
        OpenAreAccepted(agent.operationId);
      }
    }

    ghost method MarkRaced()
      requires Valid() && winding
      modifies this`raced
      ensures Valid() && raced
    {
      hide Wired, SchedOk, ChannelOk, QueueOpen;
      raced := true;
    }

    lemma OwnerOfChannel()
      requires Valid()
      ensures driverEvents.Some? ==> starts != []
      ensures driverEvents.Some? && driverEvents.value != [] && driverEvents.value[0].AgentSettled? ==>
                && driverEvents.value[0].operationId == starts[|starts| - 1]
                && driverEvents.value[0].operationId in ledger.states
    {
      if driverEvents.Some? && driverEvents.value != [] {
        assert driverEvents.value[0] in driverEvents.value;
        assert Deliverable(driverEvents.value[0], starts[|starts| - 1], ledger.states);
      }
    }

    /** Staging grew by no more than was received. */
    twostate predicate Metered()
      reads this`received, staging
    {
      |staging.queue| + |old(received)| <= old(|staging.queue|) + |received|
    }

    /** Forwards driver events while two slots are free. */
    method DrainDriverEvents()
      requires Valid()
      modifies this, staging, outlet, transients, ledger
      ensures Valid() && DrainedTo(old(SnapNow()), SnapNow())
      ensures raced == old(raced)
      ensures !driverLive ==> driverEvents.None? || driverEvents.value == [] || !staging.CanAcceptProducer()
      ensures Metered()
    {
      hide Wired, SchedOk, ChannelOk, BooksOk, QueueOpen, DrainedTo;
      ghost var a := SnapNow();
      DrainedNothing(a);
      while staging.CanAcceptProducer()
        invariant Valid() && DrainedTo(a, SnapNow()) && raced == old(raced)
        invariant Metered()
        decreases Left(RestNow())
      {
        ghost var b := SnapNow();
        DriverActs();
        ghost var c := SnapNow();
        var more := ForwardNext();
        DrainedTrans(a, b, c);
        DrainedTrans(a, c, SnapNow());
        if !more {
          break;
        }
      }
      if !sinkClosed && staging.CanAcceptProducer() {
        ghost var b := SnapNow();
        PullCaughtUpTransients();
        DrainedTrans(a, b, SnapNow());
      }
    }

    /** Publishes the driver's transients if its channel is empty. */
    method PullCaughtUpTransients()
      requires Valid()
      modifies this, staging, outlet, transients
      ensures Valid() && DrainedTo(old(SnapNow()), SnapNow())
      ensures raced == old(raced) && driverEvents.Some? == old(driverEvents).Some?
      ensures |staging.queue| <= old(|staging.queue|)
      ensures !driverLive ==> driverEvents == old(driverEvents)
      ensures driverEvents.Some? && driverEvents.value != [] ==> staging.queue == old(staging.queue) && sinkClosed == old(sinkClosed)
      ensures received == old(received)
    {
      hide Wired, SchedOk, ChannelOk, BooksOk, QueueOpen, DrainedTo;
      ghost var a := SnapNow();
      var pending := DriverEventsPending();
      if !pending {
        ghost var b := SnapNow();
        ReleaseTransients();
        FlushedIsDrained(b, SnapNow());
        DrainedTrans(a, b, SnapNow());
      }
    }

    /** Forwards driver events while any slot is free, then lets go of a finished channel.
        Once the driver is gone, what is left in the channel found staging full. */
    method DrainDriverOpenSlots()
      requires Valid() && (driverLive ==> winding)
      modifies this, staging, outlet, transients, ledger
      ensures Valid() && DrainedTo(old(SnapNow()), SnapNow())
      ensures !driverLive ==> raced == old(raced)
      ensures !driverLive ==> driverEvents.None? || driverEvents.value == [] || |staging.queue| >= staging.cap
      ensures Metered()
    {
      hide Wired, SchedOk, ChannelOk, BooksOk, QueueOpen, DrainedTo;
      ghost var a := SnapNow();
      DrainDriverEvents();
      ForwardWhileRoom(a);
      ghost var d := SnapNow();
      DrainedFacts(a, d);
      if !sinkClosed && staging.Remaining() >= 1 {
        PullCaughtUpTransients();
        DrainedTrans(a, d, SnapNow());
      }
      ghost var e := SnapNow();
      DrainedFacts(a, e);
      DiscardDriverEventsIfIdle();
      DrainedTrans(a, e, SnapNow());
      DrainedFacts(a, SnapNow());
    }

    /** Forwards while any slot is free. */
    method ForwardWhileRoom(ghost a: Snap)
      requires Valid() && DrainedTo(a, SnapNow())
      modifies this, staging, outlet, transients, ledger
      ensures Valid() && DrainedTo(a, SnapNow()) && raced == old(raced)
      ensures driverEvents.None? || driverEvents.value == [] || |staging.queue| >= staging.cap
      ensures Metered()
    {
      hide Wired, SchedOk, ChannelOk, BooksOk, QueueOpen, DrainedTo;
      while staging.Remaining() >= 1
        invariant Valid() && DrainedTo(a, SnapNow()) && raced == old(raced)
        invariant Metered()
        decreases Left(RestNow())
      {
        ghost var b := SnapNow();
        DriverActs();
        ghost var c := SnapNow();
        var more := ForwardNext();
        DrainedTrans(a, b, c);
        DrainedTrans(a, c, SnapNow());
        if !more {
          break;
        }
      }
    }

    /** Lets go of a channel that is empty and whose senders are gone. Between the emptiness
        test and the receive a live driver may still send one event, which is then forwarded
        whether or not staging has room for it. */
    method DiscardDriverEventsIfIdle()
      requires Valid() && (driverLive ==> winding)
      modifies this, staging, outlet, transients, ledger
      ensures Valid() && DrainedTo(old(SnapNow()), SnapNow())
      ensures !driverLive && (old(driverEvents).None? || old(driverEvents).value == []) ==>
                driverEvents.None? || driverEvents.value == []
      ensures !driverLive ==> raced == old(raced)
      ensures !driverLive && old(driverEvents).Some? && old(driverEvents).value != [] ==>
                driverEvents == old(driverEvents) && staging.queue == old(staging.queue)
      ensures Metered()
    {
      hide Valid, DrainedTo;
      ghost var a := SnapNow();
      var pending := DriverEventsPending();
      if pending || driverEvents.None? {
        return;
      }
      ghost var b := SnapNow();
      ReceiveOrLetGo();
      DrainedTrans(a, b, SnapNow());
      DrainedFacts(b, SnapNow());
    }

    /** The channel was found empty: receives what has come in since, or lets a finished one go. */
    method ReceiveOrLetGo()
      requires Valid() && (driverLive ==> winding) && driverEvents == Some([])
      modifies this, staging, outlet, transients, ledger
      ensures Valid() && DrainedTo(old(SnapNow()), SnapNow())
      ensures !driverLive ==> raced == old(raced) && (driverEvents.None? || driverEvents.value == [])
      ensures Metered()
    {
      hide Valid, DrainedTo;
      ghost var a := SnapNow();
      DriverActs();
      ghost var c := SnapNow();
      var more := ForwardNext();
      ghost var d := SnapNow();
      DrainedTrans(a, c, d);
      DrainedFacts(a, d);
      if !more && active.None? && !driverLive {
        DropChannel();
        DrainedTrans(a, d, SnapNow());
      }
    }

    /** Lets go of an empty driver channel. */
    method DropChannel()
      requires Valid() && !driverLive && (driverEvents.Some? ==> driverEvents.value == [])
      modifies this`driverEvents
      ensures Valid() && driverEvents.None? && DrainedTo(old(SnapNow()), SnapNow())
    {
      hide Wired, SchedOk, BooksOk, QueueOpen, DrainedTo;
      ghost var a := SnapNow();
      driverEvents := None;
      LetGoEmpty(a, SnapNow());
    }

    method TryFreeOneStagingSlot() returns (free: bool)
      requires Valid()
      modifies this, staging, outlet, transients
      ensures Valid() && Flushed()
    {
      if staging.Remaining() >= 1 {
        return true;
      }
      FlushStagingBestEffort();
      free := staging.Remaining() >= 1;
    }

    // ---- starting operations ----

    /** Starts a driver for an unsettled operation, replacing whatever driver channel is left. */
    method SpawnDriver(next: Queued)
      requires Valid() && active.None? && next.operationId in ledger.states
      requires SchedOk(Spawned(SchedNow(), next), accepted)
      modifies this`active, this`driverEvents, this`driverJoin, this`driverLive, this`driverSettled, this`driverQuota, this`starts, this`abandoned
      ensures Valid() && SchedNow() == Spawned(old(SchedNow()), next)
      ensures driverEvents == Some([]) && driverLive && !driverSettled && abandoned == old(abandoned) + Waiting(old(RestNow()))
    {
      hide Valid;
      Abandon(Waiting(RestNow()));
      MakeActive(next);
      OpenChannel();
    }

    method MakeActive(next: Queued)
      requires Valid() && active.None? && next.operationId in ledger.states
      requires SchedOk(Spawned(SchedNow(), next), accepted)
      modifies this`active, this`driverEvents, this`driverJoin, this`driverLive, this`driverSettled, this`starts
      ensures Valid() && SchedNow() == Spawned(old(SchedNow()), next)
      ensures driverEvents.None? && driverJoin && !driverLive && !driverSettled
    {
      hide Valid, SchedOk;
      HangUp();
      Unsettle();
      Activate(next);
    }

    method Unsettle()
      requires Valid() && active.None? && driverEvents.None?
      modifies this`driverSettled
      ensures Valid() && !driverSettled
    {
      hide Wired, SchedOk, BooksOk, QueueOpen;
      driverSettled := false;
    }

    method Activate(next: Queued)
      requires Valid() && active.None? && driverEvents.None? && !driverLive && !driverSettled && next.operationId in ledger.states
      requires SchedOk(Spawned(SchedNow(), next), accepted)
      modifies this`active, this`driverJoin, this`starts
      ensures Valid() && SchedNow() == Spawned(old(SchedNow()), next) && driverJoin
    {
      hide Wired, SchedOk, ChannelOk, BooksOk, QueueOpen;
      BooksOfDriver(lost, raced, winding, driverLive, driverJoin, false, true, lastSettled, staged);
      NewActiveChannel(starts + [next.operationId], next, ledger.states);
      active := Some(Active(next.operationId, next.turnId, next.sessionId, None, None, false));
      driverJoin, starts := true, starts + [next.operationId];
    }

    /** The new driver may send any bounded number of events over its own channel. */
    method OpenChannel()
      requires Valid() && active.Some? && driverJoin && driverEvents.None? && !driverLive && !driverSettled
      modifies this`driverEvents, this`driverLive, this`driverQuota
      ensures Valid() && driverEvents == Some([]) && driverLive
    {
      hide Wired, SchedOk, ChannelOk, BooksOk, QueueOpen;
      ActiveHasStarted(SchedNow(), accepted);
      ChannelOpened(starts, active, ledger.states);
      BooksOfDriver(lost, raced, winding, driverLive, driverJoin, true, driverJoin, lastSettled, staged);
      var quota: int := *;
      driverEvents, driverLive, driverQuota := Some([]), true, if quota >= 0 then quota else 0;
    }

    method MaybeStartNext()
      requires Valid()
      modifies this`active, this`driverEvents, this`driverJoin, this`driverLive, this`driverSettled, this`driverQuota, this`starts, this`abandoned, this`queue
      ensures Valid() && StartedTo(old(SnapNow()), SnapNow())
    {
      hide Valid, StartedNext, StartedTo;
      ghost var a := SnapNow();
      NoStart(a.sched, driverEvents.Some?);
      NothingStarted(a);
      if !shutdown.Running? {
        return;
      }
      if active.Some? || maintenance.Some? {
        return;
      }
      if driverEvents.Some? || driverJoin {
        return;
      }
      if queue != [] {
        StartWaiting();
      }
    }

    method StartWaiting()
      requires Valid() && queue != [] && shutdown.Running? && active.None? && maintenance.None? && driverEvents.None? && !driverJoin
      modifies this`active, this`driverEvents, this`driverJoin, this`driverLive, this`driverSettled, this`driverQuota, this`starts, this`abandoned, this`queue
      ensures Valid() && StartedTo(old(SnapNow()), SnapNow())
    {
      hide Valid, StartedNext, StartedTo;
      ghost var a := SnapNow();
      StartFront();
      FrontStarted(a, SnapNow());
    }

    method StartFront()
      requires Valid() && queue != [] && shutdown.Running? && active.None? && maintenance.None? && driverEvents.None? && !driverJoin
      modifies this`active, this`driverEvents, this`driverJoin, this`driverLive, this`driverSettled, this`driverQuota, this`starts, this`abandoned, this`queue
      ensures Valid() && SchedNow() == StartedNext(old(SchedNow()), false)
      ensures driverEvents == Some([]) && driverLive && !driverSettled && SchedNow() != old(SchedNow()) && abandoned == old(abandoned)
    {
      hide Wired, SchedOk, BooksOk, ChannelOk, QueueOpen;
      StartNextKeepsOk(SchedNow(), false, accepted);
      var next := PopQueue();
      SpawnDriver(next);
    }

    method PopQueue() returns (next: Queued)
      requires Valid() && queue != []
      modifies this`queue
      ensures Valid() && SchedNow() == old(SchedNow()).(queue := old(queue)[1..])
      ensures next == old(queue)[0] && next.operationId in ledger.states
    {
      hide Wired, SchedOk, BooksOk, ChannelOk;
      PopFrontKeepsOk(SchedNow(), accepted);
      next := queue[0];
      assert next in queue;
      queue := queue[1..];
    }

    lemma OpenAreAccepted(id: OperationId)
      requires Valid() && id in ledger.states
      ensures id in accepted
    {
      RunInv(bounds, steps);
      ledger.HoldsIsMember(id);
      assert IdOk(Now(), id);
    }

    lemma ChannelIsOpen()
      requires Valid()
      ensures ChannelOpen(SnapNow())
    {
      hide Wired, SchedOk, BooksOk, QueueOpen;
      forall e | e in Waiting(RestNow()) && e.AgentSettled?
        ensures e.operationId in ledger.states && e.operationId in accepted
      {
        assert Deliverable(e, starts[|starts| - 1], ledger.states);
        OpenAreAccepted(e.operationId);
      }
    }

    /** Enters a fresh operation into the ledger, unless the ledger is full. */
    method LedgerInsert(entry: LedgerEntry) returns (ok: bool)
      requires Valid() && entry.operationId !in accepted
      modifies this`accepted, this`steps, this`staged, ledger
      ensures Valid()
      ensures ok == (old(|ledger.order|) < ledger.cap)
      ensures staged == old(staged)
      ensures !ok ==> accepted == old(accepted) && steps == old(steps) && ledger.states == old(ledger.states) && ledger.Contents() == old(ledger.Contents())
      ensures ok ==>
                && accepted == old(accepted) + [entry.operationId] && old(steps) <= steps
                && ledger.states == old(ledger.states)[entry.operationId := entry]
                && ledger.Contents() == old(ledger.Contents()) + [entry]
                && InsertedTo(old(SnapNow()), SnapNow(), entry)
    {
      hide Wired, BooksOk, Scheduled;
      ok := Accept(entry);
    }

    method Accept(entry: LedgerEntry) returns (ok: bool)
      requires Valid() && entry.operationId !in accepted
      modifies this`accepted, this`steps, this`staged, ledger
      ensures Valid()
      ensures ok == (old(|ledger.order|) < ledger.cap)
      ensures staged == old(staged)
      ensures !ok ==> accepted == old(accepted) && steps == old(steps) && ledger.states == old(ledger.states) && ledger.Contents() == old(ledger.Contents())
      ensures ok ==>
                && accepted == old(accepted) + [entry.operationId] && old(steps) <= steps
                && ledger.states == old(ledger.states)[entry.operationId := entry]
                && ledger.Contents() == old(ledger.Contents()) + [entry]
    {
      hide Wired, BooksOk, SchedOk, ChannelOk, QueueOpen, RestNow;
      if entry.operationId in ledger.states {
        OpenAreAccepted(entry.operationId);
      }
      AcceptKeepsOk(SchedNow(), accepted, entry.operationId);
      InsertKeepsChannel(driverEvents, SchedNow(), driverLive, driverSettled, ledger.states, entry);
      ok := InsertEntry(entry);
    }

    method InsertEntry(entry: LedgerEntry) returns (ok: bool)
      requires Wired() && hand.None? && removing.None?
      requires entry.operationId !in accepted && entry.operationId !in ledger.states
      modifies this`accepted, this`steps, this`staged, ledger
      ensures Wired() && ok == (old(|ledger.order|) < ledger.cap)
      ensures staged == old(staged)
      ensures !ok ==> accepted == old(accepted) && steps == old(steps) && ledger.states == old(ledger.states) && ledger.Contents() == old(ledger.Contents())
      ensures ok ==>
                && accepted == old(accepted) + [entry.operationId] && old(steps) <= steps
                && ledger.states == old(ledger.states)[entry.operationId := entry]
                && ledger.Contents() == old(ledger.Contents()) + [entry]
    {
      hide Traced;
      ghost var before := Now();
      ok := ledger.Insert(entry);
      if ok {
        accepted := accepted + [entry.operationId];
        Record(Insert(entry), before);
      }
    }

    // ---- admission ----

    method Enqueue(next: Queued)
      requires Valid() && next.operationId in ledger.states
      requires SchedOk(SchedNow().(queue := queue + [next]), accepted)
      modifies this`queue
      ensures Valid() && SchedNow() == old(SchedNow()).(queue := old(queue) + [next])
    {
      hide Wired, BooksOk, SchedOk, ChannelOk;
      queue := queue + [next];
    }

    /** Admits one operation. The idle test does not look at the driver channel: an idle
        admission replaces whatever a finished driver left in it. */
    method Admit(next: Queued) returns (result: AdmitResult)
      requires Valid() && shutdown.Running? && !sinkClosed && staging.CanAcceptProducer()
      requires next.operationId !in accepted
      modifies this, staging, ledger
      ensures Valid()
      ensures result == AdmissionResult(old(SchedNow()), queueMax, old(|ledger.order|), ledger.cap)
      ensures result.QueueFull? ==> SnapNow() == old(SnapNow()) && ledger.Contents() == old(ledger.Contents())
      ensures result.Admitted? ==>
                && AdmittedTo(old(SnapNow()), SnapNow(), next)
                && ledger.Contents() == old(ledger.Contents()) + [EntryOf(next)]
    {
      hide Valid, AdmittedTo;
      var idle := active.None? && maintenance.None? && queue == [];
      if !idle && |queue| >= queueMax {
        return QueueFull;
      }
      var ok := Enter(next);
      return if ok then Admitted else QueueFull;
    }

    /** Enters the operation into the ledger and, if there is room, announces it. */
    method Enter(next: Queued) returns (ok: bool)
      requires Valid() && shutdown.Running? && !sinkClosed && staging.CanAcceptProducer()
      requires next.operationId !in accepted
      modifies this, staging, ledger
      ensures Valid() && ok == (old(|ledger.order|) < ledger.cap)
      ensures !ok ==> SnapNow() == old(SnapNow()) && ledger.Contents() == old(ledger.Contents())
      ensures ok ==> AdmittedTo(old(SnapNow()), SnapNow(), next) && ledger.Contents() == old(ledger.Contents()) + [EntryOf(next)]
    {
      hide Valid, AdmittedTo, AnnouncedTo, InsertedTo, Spawned, SchedOk;
      ghost var a := SnapNow();
      ReadyToAdmit(next);
      ok := LedgerInsert(EntryOf(next));
      if ok {
        ghost var b := SnapNow();
        Announce(next);
        AnnouncedIsAdmitted(a, b, SnapNow(), next);
      }
    }

    lemma ReadyToAdmit(next: Queued)
      requires Valid() && shutdown.Running? && next.operationId !in accepted
      ensures if IsIdle(SchedNow()) then SchedOk(Spawned(SchedNow(), next), accepted + [next.operationId])
              else SchedOk(SchedNow().(queue := queue + [next]), accepted + [next.operationId])
    {
      hide SchedOk, Wired, ChannelOk, BooksOk, QueueOpen;
      SpawnOrEnqueueOk(SchedNow(), next, accepted);
    }

    method Announce(next: Queued)
      requires Valid() && !sinkClosed && staging.CanAcceptProducer() && next.operationId in ledger.states
      requires if IsIdle(SchedNow()) then SchedOk(Spawned(SchedNow(), next), accepted)
               else SchedOk(SchedNow().(queue := queue + [next]), accepted)
      modifies this, staging
      ensures Valid() && AnnouncedTo(old(SnapNow()), SnapNow(), next)
    {
      hide Wired, Traced, SchedOk, ChannelOk, BooksOk, QueueOpen, Spawned;
      if active.None? && maintenance.None? && queue == [] {
        AnnounceAndStart(next);
      } else {
        AnnounceAndQueue(next);
      }
    }

    method AnnounceAndStart(next: Queued)
      requires Valid() && !sinkClosed && |staging.queue| < staging.cap && active.None? && next.operationId in ledger.states
      requires SchedOk(Spawned(SchedNow(), next), accepted)
      modifies this, staging
      ensures Valid() && SchedNow() == Spawned(old(SchedNow()), next) && old(steps) <= steps && sinkClosed == old(sinkClosed)
      ensures staged == old(staged) + [OperationAccepted(next.operationId, next.sessionId, next.turnId)]
      ensures RestNow() == old(RestNow()).(driverEvents := Some([]), driverLive := true, driverSettled := false, driverQuota := driverQuota,
                                           abandoned := old(abandoned) + Waiting(old(RestNow())))
    {
      hide Valid, SchedOk;
      var _ := StagePlain(OperationAccepted(next.operationId, next.sessionId, next.turnId));
      SpawnDriver(next);
    }

    method AnnounceAndQueue(next: Queued)
      requires Valid() && !sinkClosed && |staging.queue| + 1 < staging.cap && next.operationId in ledger.states
      requires SchedOk(SchedNow().(queue := queue + [next]), accepted)
      modifies this`steps, this`staged, this`queue, staging
      ensures Valid() && SchedNow() == old(SchedNow()).(queue := old(queue) + [next]) && old(steps) <= steps
      ensures staged == old(staged) + [OperationAccepted(next.operationId, next.sessionId, next.turnId),
                                       Agent(OperationQueued(next.operationId))]
      ensures RestNow() == old(RestNow())
    {
      hide Valid, SchedOk;
      var _ := StagePlain(OperationAccepted(next.operationId, next.sessionId, next.turnId));
      var _ := StagePlain(Agent(OperationQueued(next.operationId)));
      Enqueue(next);
    }

    /** The command lane: submissions are refused while shutting down or while the
        producer reserve is not free. */
    method Submit(next: Queued) returns (result: AdmitResult)
      requires Valid() && next.operationId !in accepted
      modifies this, staging, ledger
      ensures Valid()
      ensures result == if !old(shutdown).Running? then ShuttingDown
                        else if old(sinkClosed) || !old(staging.CanAcceptProducer()) then AdmitResult.Backpressured
                        else AdmissionResult(old(SchedNow()), queueMax, old(|ledger.order|), ledger.cap)
      ensures !result.Admitted? ==> SnapNow() == old(SnapNow()) && ledger.Contents() == old(ledger.Contents())
      ensures result.Admitted? ==>
                && AdmittedTo(old(SnapNow()), SnapNow(), next)
                && ledger.Contents() == old(ledger.Contents()) + [EntryOf(next)]
    {
      if !shutdown.Running? {
        return ShuttingDown;
      }
      if sinkClosed || !staging.CanAcceptProducer() {
        return AdmitResult.Backpressured;
      }
      result := Admit(next);
    }

    method BeginMaintenance(task: Maintenance)
      requires Valid() && active.None? && maintenance.None? && queue == []
      modifies this`maintenance, this`maintenanceJoin
      ensures Valid() && SchedNow() == old(SchedNow()).(maintenance := Some(task), maintenanceJoin := true)
    {
      hide Wired, SchedOk, ChannelOk, BooksOk, QueueOpen;
      CompactionKeepsOk(SchedNow(), task, accepted);
      maintenance, maintenanceJoin := Some(task), true;
    }

    /** Starts a compaction; it needs an idle runtime. */
    method StartCompaction(id: MaintenanceId, session: SessionId) returns (result: CompactionResult)
      requires Valid()
      modifies this`maintenance, this`maintenanceJoin, this`steps, this`staged, staging
      ensures Valid() && RestNow() == old(RestNow()) && old(steps) <= steps
      ensures result == if !old(shutdown).Running? then CompactionShuttingDown
                        else if old(sinkClosed) || !old(staging.CanAcceptProducer()) then CompactionBackpressured
                        else if !IsIdle(old(SchedNow())) then Unavailable
                        else CompactionAccepted
      ensures !result.CompactionAccepted? ==> SchedNow() == old(SchedNow()) && staged == old(staged)
      ensures result.CompactionAccepted? ==>
                && SchedNow() == old(SchedNow()).(maintenance := Some(Maintenance(id, session, false)), maintenanceJoin := true)
                && staged == old(staged) + [MaintenanceAccepted(id, session), MaintenanceStarted(id)]
    {
      hide Valid, RestNow;
      if !shutdown.Running? {
        return CompactionShuttingDown;
      }
      if sinkClosed || !staging.CanAcceptProducer() {
        return CompactionBackpressured;
      }
      if active.Some? || maintenance.Some? || queue != [] {
        return Unavailable;
      }
      BeginMaintenance(Maintenance(id, session, false));
      var _ := StagePlain(MaintenanceAccepted(id, session));
      var _ := StagePlain(MaintenanceStarted(id));
      return CompactionAccepted;
    }

    // ---- cancellation ----

    method RemoveQueued(i: nat)
      requires Valid() && i < |queue|
      modifies this`queue
      ensures Valid() && SchedNow() == old(SchedNow()).(queue := Without(old(queue), i))
      ensures Settleable(old(queue)[i].operationId, SchedNow(), driverEvents, driverSettled, ledger.states)
    {
      hide Wired, SchedOk, BooksOk, ChannelOk, QueueOpen, Settleable;
      QueuedSettleable(SchedNow(), accepted, i, driverEvents, driverLive, driverSettled, ledger.states);
      queue := queue[..i] + queue[i + 1..];
    }

    /** Cancels an operation: a queued one is settled here and now, the active one is asked
        to stop, unless it is already finalizing. */
    method CancelOperation(id: OperationId, tooLate: bool) returns (result: CancelResult)
      requires Valid()
      modifies this, staging, outlet, transients, ledger
      ensures Valid()
      ensures result == CancelAnswer(old(SchedNow()), old(lastSettled), id, tooLate, old(staging.CanAcceptProducer()))
      ensures result.QueuedCancelled? ==> CancelledTo(old(SnapNow()), SnapNow(), PositionOf(old(queue), id))
      ensures result.Requested? ==> SnapNow() == old(SnapNow()).(sched := old(SchedNow()).(active := CancelActive(old(active), User)))
      ensures !result.QueuedCancelled? && !result.Requested? ==> SnapNow() == old(SnapNow())
    {
      hide Valid, Settleable, CancelledTo;
      if id in lastSettled {
        return AlreadySettled;
      }
      var i := PositionOf(queue, id);
      if i >= 0 {
        if !staging.CanAcceptProducer() {
          return CancelBackpressured;
        }
        CancelQueued(i);
        return QueuedCancelled;
      }
      if active.Some? && active.value.operationId == id {
        if tooLate {
          return TooLate;
        }
        RequestActiveCancel(User);
        return Requested;
      }
      return UnknownOperation;
    }

    method RequestActiveCancel(reason: CancelReason)
      requires Valid()
      modifies this`active
      ensures Valid() && SchedNow() == old(SchedNow()).(active := CancelActive(old(active), reason))
    {
      hide Wired, BooksOk, QueueOpen;
      active := CancelActive(active, reason);
    }

    method CancelQueued(i: nat)
      requires Valid() && i < |queue| && staging.CanAcceptProducer()
      modifies this, staging, outlet, transients, ledger
      ensures Valid() && CancelledTo(old(SnapNow()), SnapNow(), i)
    {
      hide Valid, Settleable, React, CancelledTo;
      ghost var a := SnapNow();
      var q := queue[i];
      AnnounceCancel(i);
      SettledIsOpen(q.operationId, SchedNow(), driverEvents, driverSettled, ledger.states);
      var published := SettleOperation(q.operationId, q.sessionId, Cancelled, Confirmed, Unchanged);
      SettledIsCancelled(a, SnapNow(), i, published);
    }

    /** Takes the operation out of the queue and announces its cancellation. */
    method AnnounceCancel(i: nat)
      requires Valid() && i < |queue| && staging.CanAcceptProducer()
      modifies this, staging, outlet, transients
      ensures Valid() && old(steps) <= steps && (old(sinkClosed) ==> sinkClosed) && RestNow() == old(RestNow())
      ensures SchedNow() == React(old(SchedNow()).(queue := Without(old(queue), i)), old(sinkClosed), sinkClosed, now)
      ensures staged == if sinkClosed then old(staged) else old(staged) + [Agent(CancellationRequested(old(queue)[i].operationId, User))]
      ensures |staging.queue| < staging.cap
      ensures Settleable(old(queue)[i].operationId, SchedNow(), driverEvents, driverSettled, ledger.states)
    {
      hide Valid, Settleable, React;
      var id := queue[i].operationId;
      RemoveQueued(i);
      ghost var s, was := SchedNow(), sinkClosed;
      EmitReliable(Agent(CancellationRequested(id, User)));
      SettleableAfterReact(id, s, was, sinkClosed, now, driverEvents, driverSettled, ledger.states);
    }

    /** Asks a maintenance task to stop. */
    method CancelMaintenance(id: MaintenanceId) returns (result: CancelResult)
      requires Valid()
      modifies this`maintenance
      ensures Valid()
      ensures result == if old(maintenance).None? then AlreadySettled
                        else if old(maintenance).value.id == id then Requested else UnknownOperation
      ensures maintenance == if result.Requested? then Some(old(maintenance).value.(cancelRequested := true)) else old(maintenance)
    {
      hide Wired, BooksOk, QueueOpen, ChannelOk;
      if maintenance.None? {
        return AlreadySettled;
      }
      if maintenance.value.id != id {
        return UnknownOperation;
      }
      maintenance := Some(maintenance.value.(cancelRequested := true));
      return Requested;
    }

    // ---- children that ended ----

    method TakeActive()
      requires Valid() && active.Some? && !driverLive
      modifies this`active, this`driverJoin, this`driverEvents, this`driverLive
      ensures Valid() && SchedNow() == old(SchedNow()).(active := None, driverJoin := false)
      ensures driverEvents == if old(driverEvents).Some? && old(driverEvents).value != [] then old(driverEvents) else None
      ensures driverEvents.None? && old(active).value.operationId in ledger.states ==>
                Settleable(old(active).value.operationId, SchedNow(), driverEvents, driverSettled, ledger.states)
      ensures !driverLive
    {
      hide Valid, Settleable;
      if driverEvents.Some? && driverEvents.value == [] {
        HangUp();
      }
      LastSettleable();
      LetGoActive();
    }

    lemma LastSettleable()
      requires Valid() && active.Some?
      ensures driverEvents.None? && active.value.operationId in ledger.states ==>
                Settleable(active.value.operationId, SchedNow().(active := None, driverJoin := false), driverEvents, driverSettled, ledger.states)
    {
      hide Wired, SchedOk, ChannelOk, BooksOk, QueueOpen, Settleable;
      if driverEvents.None? && active.value.operationId in ledger.states {
        JoinedSettleable(SchedNow(), accepted, driverEvents, driverSettled, ledger.states);
      }
    }

    method LetGoActive()
      requires Valid() && active.Some? && !driverLive && (driverEvents.Some? ==> driverEvents.value != [])
      modifies this`active, this`driverJoin
      ensures Valid() && SchedNow() == old(SchedNow()).(active := None, driverJoin := false)
    {
      hide Wired, SchedOk, ChannelOk, BooksOk, QueueOpen;
      ActiveTaken(SchedNow(), accepted, driverEvents, driverSettled, ledger.states);
      BooksOfDriver(lost, raced, winding, driverLive, driverJoin, driverLive, false, lastSettled, staged);
      active, driverJoin := None, false;
    }

    method SettleJoined(exit: DriverExit, committed: bool)
      requires Valid() && active.Some? && !driverLive
      requires driverEvents.None? || driverEvents.value == [] || |staging.queue| >= staging.cap
      modifies this, staging, outlet, transients, ledger
      ensures Valid() && JoinedTo(old(SnapNow()), SnapNow(), exit, committed, old(|staging.queue|) < staging.cap)
      ensures old(|staging.queue|) + 2 <= staging.cap ==> lost == old(lost)
    {
      hide Valid, Settleable, React, JoinedTo, ReportedTo;
      ghost var a, room := SnapNow(), |staging.queue| < staging.cap;
      var joined := active.value;
      TakeActive();
      ghost var b := SnapNow();
      if ledger.SessionOf(joined.operationId).None? || committed {
        NothingSettled(a, b, exit, committed, room);
      } else {
        SettleAndReport(joined, exit);
        SettledIsJoined(a, b, SnapNow(), exit, room);
      }
    }

    method SettleAndReport(joined: Active, exit: DriverExit)
      requires Valid() && joined.operationId in ledger.states
      requires |staging.queue| < staging.cap ==>
                 Settleable(joined.operationId, SchedNow(), driverEvents, driverSettled, ledger.states)
      modifies this, staging, outlet, transients, ledger
      ensures Valid() && ReportedTo(old(SnapNow()), SnapNow(), joined, exit, old(|staging.queue|) < staging.cap)
      ensures old(|staging.queue|) + 2 <= staging.cap ==> lost == old(lost)
    {
      hide Valid, Settleable, React, ReportedTo, SchedNow;
      ghost var b, room := SnapNow(), |staging.queue| < staging.cap;
      var published := SettleOperation(joined.operationId, joined.sessionId, JoinedStatus(exit), JoinedDurability(exit), Unchanged);
      ghost var c := SnapNow();
      if published && Faulty(exit) {
        EmitReliable(FAULT);
      }
      SettledIsReported(b, c, SnapNow(), joined, exit, room, published);
    }

    /** The driver task of the active operation ended. Whatever still fits is forwarded first,
        so that the driver's own settlement comes before one made up from its exit. The reserve is
        free at that time, so a fault report behind it is dropped only if driver events took it up. */
    method OnDriverJoin(exit: DriverExit, committed: bool) returns (ghost drained: Snap, ghost joined: Snap, ghost room: bool)
      requires Valid() && driverJoin && CanReapChildren() && !winding
      modifies this, staging, outlet, transients, ledger
      ensures Valid()
      ensures drained.sched.active.Some?
      ensures DrainedTo(Ended(old(SnapNow())), drained) && JoinedTo(drained, joined, exit, committed, room)
      ensures StartedTo(joined, SnapNow())
      ensures Traced(bounds, drained.steps, drained.staged, After(drained.steps)) && After(drained.steps).hand.None?
      ensures room == (|After(drained.steps).staging| < staging.cap)
      ensures Waiting(drained.rest) == [] || !room
      ensures |received| == |old(received)| || Left(old(RestNow())) == 0 ==> lost == old(lost)
    {
      hide Valid, DrainedTo, JoinedTo, StartedTo, StartedNext, Ended;
      ReserveIsFree();
      ghost var a := SnapNow();
      DrainFinishedDriver();
      NothingLost(a);
      drained, room := SnapNow(), |staging.queue| < staging.cap;
      StepsLeadHere();
      SettleJoined(exit, committed);
      joined := SnapNow();
      MaybeStartNext();
      AfterJoin(drained, joined, SnapNow(), exit, committed, room);
    }

    lemma ReserveIsFree()
      requires Valid() && CanReapChildren()
      ensures |staging.queue| + 2 <= staging.cap
    {
    }

    lemma NothingLost(a: Snap)
      requires Valid() && DrainedTo(Ended(a), SnapNow()) && !a.rest.winding
      ensures lost == a.rest.lost && !winding && (Left(a.rest) == 0 ==> |received| <= |a.rest.received|)
    {
      hide Wired, Scheduled, Accounted;
    }

    lemma StepsLeadHere()
      requires Valid()
      ensures After(steps) == Now() && Traced(bounds, steps, staged, Now()) && hand.None?
    {
      hide Traced, SchedOk, ChannelOk, QueueOpen, BooksOk;
      assert Traced(bounds, steps, staged, Now());
      TracedLeads(bounds, steps, staged, Now());
    }

    method DrainFinishedDriver()
      requires Valid() && driverJoin
      modifies this, staging, outlet, transients, ledger
      ensures Valid() && DrainedTo(Ended(old(SnapNow())), SnapNow())
      ensures active.Some? && !driverLive
      ensures driverEvents.None? || driverEvents.value == [] || |staging.queue| >= staging.cap
      ensures Metered()
    {
      hide Valid, DrainedTo, SinkLost;
      ghost var a := Ended(SnapNow());
      DriverEnds();
      ghost var b := SnapNow();
      var _ := TryFreeOneStagingSlot();
      ghost var c := SnapNow();
      FlushedIsDrained(b, c);
      DrainedTrans(a, b, c);
      DrainDriverOpenSlots();
      DrainedFacts(a, c);
      DrainedFacts(c, SnapNow());
      DrainedTrans(a, c, SnapNow());
    }

    method DriverGone()
      requires Valid()
      modifies this`driverLive
      ensures Valid() && !driverLive && RestNow() == old(RestNow()).(driverLive := false)
      ensures driverJoin ==> active.Some?
    {
      hide Wired, SchedOk, ChannelOk, BooksOk, QueueOpen;
      DriverForgotten(SchedNow(), accepted, driverEvents, driverLive, false, driverSettled, ledger.states);
      BooksOfDriver(lost, raced, winding, driverLive, driverJoin, false, driverJoin, lastSettled, staged);
      driverLive := false;
    }

    /** The driver task ran to its end, after sending what it still had room to send. */
    method DriverEnds()
      requires Valid()
      modifies this`driverEvents, this`driverSettled, this`driverQuota, this`driverLive
      ensures Valid() && !driverLive && DrainedTo(Ended(old(SnapNow())), SnapNow())
      ensures driverJoin ==> active.Some?
    {
      hide Wired, SchedOk, ChannelOk, BooksOk, QueueOpen, DrainedTo;
      ghost var a := SnapNow();
      DriverActs();
      EndedDrained(a, SnapNow());
      DriverGone();
    }

    method OnMaintenanceJoin(exit: MaintenanceExit) returns (ghost ended: Snap)
      requires Valid() && maintenanceJoin && maintenance.Some? && |staging.queue| < staging.cap
      modifies this, staging, outlet, transients
      ensures Valid() && MaintenanceEnded(old(SnapNow()), ended, exit) && StartedTo(ended, SnapNow())
    {
      hide Valid, StartedNext, SinkLost;
      var task := maintenance.value;
      EndMaintenance();
      EmitReliable(MaintenanceSettled(task.id, task.sessionId, MaintenanceOutcome(exit, task.cancelRequested)));
      ended := SnapNow();
      MaybeStartNext();
    }

    method EndMaintenance()
      requires Valid()
      modifies this`maintenance, this`maintenanceJoin
      ensures Valid() && SchedNow() == old(SchedNow()).(maintenance := None, maintenanceJoin := false)
    {
      hide Wired, BooksOk, QueueOpen, ChannelOk;
      maintenance, maintenanceJoin := None, false;
    }

    // ---- the run loop ----

    /** Time passes. */
    method Tick()
      requires Valid()
      modifies this`now
      ensures Valid() && now > old(now) && RestNow() == old(RestNow()).(now := now)
    {
      hide Wired, BooksOk, QueueOpen, ChannelOk, SchedOk;
      var d: int := *;
      now := now + if d > 0 then d else 1;
    }

    /** Looks whether the consumer is gone. */
    method NoticeSink()
      requires Valid()
      modifies this, staging, outlet, transients
      ensures Valid() && Flushed()
      ensures outlet.closed ==> sinkClosed
    {
      hide Wired, SchedOk, ChannelOk, BooksOk, QueueOpen, SinkLost;
      LookAtSink();
      if outlet.closed {
        OnEventSinkClosed();
      }
    }

    method LookAtSink()
      requires Valid()
      modifies this`steps, this`staged, outlet
      ensures Valid() && Kept() && outlet.sent == old(outlet.sent)
    {
      hide Traced, SchedOk, ChannelOk, QueueOpen, BooksOk;
      ghost var before := Now();
      outlet.Consumer();
      if outlet.closed && before.open {
        Record(SinkCloses, before);
      }
    }

    /** Sends the front of staging through a slot reserved in the outlet. If the consumer quits
        in between, the event is gone without the coordinator noticing. */
    method SendReserved()
      requires Valid() && !sinkClosed && staging.queue != [] && |outlet.buffer| < outlet.cap
      modifies this, staging, outlet
      ensures Valid() && Kept() && staging.queue == old(staging.queue)[1..] && old(outlet.sent) <= outlet.sent
    {
      hide Orderly, BooksOk, SchedNow, RestNow;
      TakeFront();
      var result := OfferHand();
      if result.Closed? {
        LoseHand();
      }
    }

    /** The outlet has room: the oldest reliable event goes out, or else one transient. */
    method SendOutbound()
      requires Valid()
      modifies this, staging, outlet, transients
      ensures Valid() && Flushed()
      ensures staging.queue == old(staging.queue) || (old(staging.queue) != [] && staging.queue == old(staging.queue)[1..])
      ensures old(!sinkClosed && staging.queue != [] && !outlet.IsFull()) ==> staging.queue == old(staging.queue)[1..] && transients.order == old(transients.order)
    {
      hide Valid, SinkLost;
      if sinkClosed || |outlet.buffer| >= outlet.cap {
        return;
      }
      if staging.queue != [] {
        SendReserved();
      } else {
        var event := TakeTransient();
        if event.Some? {
          var _ := OfferTransient(event.value);
        }
      }
    }

    /** Sends staged events as room appears, until none is left, the consumer is gone or the
        deadline has passed. */
    method FlushReliableUntil(until: int)
      requires Valid()
      modifies this, staging, outlet, transients
      ensures Valid() && WindsDown(old(SnapNow()), SnapNow()) && now >= old(now)
      ensures sinkClosed || staging.queue == [] || now >= until
    {
      hide Valid, WindsDown;
      ghost var a := SnapNow();
      WindsNothing(a);
      while !sinkClosed && staging.queue != [] && now < until
        invariant Valid() && WindsDown(a, SnapNow()) && now >= old(now)
        decreases until - now
      {
        ghost var b := SnapNow();
        WaitForRoom();
        ghost var c := SnapNow();
        WindsTrans(a, b, c);
        if !sinkClosed && staging.queue != [] && |outlet.buffer| < outlet.cap {
          SendReserved();
          StepsWind(c, SnapNow());
          WindsTrans(a, c, SnapNow());
        }
      }
    }

    /** Some time passes; the consumer makes room or turns out to be gone. */
    method WaitForRoom()
      requires Valid()
      modifies this, staging, outlet, transients
      ensures Valid() && WindsDown(old(SnapNow()), SnapNow()) && now > old(now)
    {
      hide Valid, SinkLost, Progress, WindsDown;
      ghost var b := SnapNow();
      NoticeSink();
      Tick();
      ReactClimbs(b.sched, b.closed, sinkClosed, b.rest.now);
      ReactKeepsTask(b.sched, b.closed, sinkClosed, b.rest.now);
      QuietIsProgress(b, SnapNow());
      QuietWinds(b, SnapNow());
    }

    /** Publishes the availability when it changed. */
    method EmitAvailabilityIfChanged()
      requires Valid()
      modifies this`lastAvailability, this`lastQueuedLen, transients
      ensures Valid()
      ensures lastQueuedLen == |queue| && lastAvailability == AvailabilityOf(active, maintenance)
      ensures transients.Contents()
           == if sinkClosed || (old(lastQueuedLen) == |queue| && old(lastAvailability) == lastAvailability) then old(transients.Contents())
              else Coalescer.Published(old(transients.Contents()), transients.cap, AvailabilityChanged(lastAvailability, |queue|), OperationOf(), CallOf())
    {
      hide Valid;
      var availability := AvailabilityOf(active, maintenance);
      if availability != lastAvailability || |queue| != lastQueuedLen {
        NoteAvailability(availability);
        EmitTransient(AvailabilityChanged(availability, |queue|));
      }
    }

    method NoteAvailability(availability: Availability)
      requires Valid()
      modifies this`lastAvailability, this`lastQueuedLen
      ensures Valid() && lastQueuedLen == |queue| && lastAvailability == availability
    {
      hide Wired, SchedOk, BooksOk, QueueOpen, ChannelOk;
      lastAvailability, lastQueuedLen := availability, |queue|;
    }

    predicate CanPollDriver()
      reads this, staging
    {
      !sinkClosed && staging.CanAcceptProducer()
    }

    predicate CanReapChildren()
      reads this, staging
    {
      sinkClosed || staging.CanAcceptProducer()
    }

    lemma RoomToReap()
      requires Valid() && CanReapChildren()
      ensures |staging.queue| < staging.cap
      ensures maintenanceJoin ==> maintenance.Some? && !driverJoin
    {
    }

    method BeginForcedShutdown()
      requires Valid()
      modifies this
      ensures Valid() && Progress(old(SnapNow()), SnapNow())
      ensures SnapNow() == old(SnapNow()).(sched := ShutdownStep(old(SchedNow()), ForcedNow(old(now))))
    {
      hide Valid, ShutdownStep, Progress;
      ghost var a := SnapNow();
      RequestShutdown(Shutdown.Request(Shutdown.ForcedMode, now + DEFAULT_SHUTDOWN_TICKS));
      ShutdownClimbs(a.sched, Shutdown.Request(Shutdown.ForcedMode, now + DEFAULT_SHUTDOWN_TICKS));
      QuietIsProgress(a, SnapNow());
    }

    method OnControl(control: Option<Control>)
      requires Valid()
      modifies this, staging, outlet, transients, ledger
      ensures Valid() && Progress(old(SnapNow()), SnapNow())
      ensures ControlTo(old(SnapNow()), SnapNow(), control, old(staging.CanAcceptProducer()))
    {
      hide Valid, Progress, CancelledTo, CancelAnswer, ShutdownStep;
      match control
      case None => BeginForcedShutdown();
      case Some(Cancel(id, tooLate)) => OnCancel(id, tooLate);
      case Some(CancelCompaction(id)) =>
        ghost var a := SnapNow();
        var _ := CancelMaintenance(id);
        QuietIsProgress(a, SnapNow());
    }

    method OnCancel(id: OperationId, tooLate: bool)
      requires Valid()
      modifies this, staging, outlet, transients, ledger
      ensures Valid() && Progress(old(SnapNow()), SnapNow())
      ensures ControlTo(old(SnapNow()), SnapNow(), Some(Cancel(id, tooLate)), old(staging.CanAcceptProducer()))
    {
      hide Valid, Progress, CancelledTo, CancelAnswer, ShutdownStep;
      ghost var a := SnapNow();
      ghost var i := PositionOf(queue, id);
      QueuedCancelHasPosition(a, id, tooLate);
      var answer := CancelOperation(id, tooLate);
      if answer.QueuedCancelled? {
        CancelledIsProgress(a, SnapNow(), i);
      } else {
        QuietIsProgress(a, SnapNow());
      }
    }

    lemma QueuedCancelHasPosition(a: Snap, id: OperationId, tooLate: bool)
      ensures forall room, settled :: CancelAnswer(a.sched, settled, id, tooLate, room).QueuedCancelled? ==> PositionOf(a.sched.queue, id) >= 0
    {
    }

    method OnCommand(command: Option<Command>)
      requires Valid()
      modifies this, staging, ledger
      ensures Valid() && Progress(old(SnapNow()), SnapNow())
      ensures CommandTo(old(SnapNow()), SnapNow(), command, old(staging.CanAcceptProducer()),
                        SubmitAnswer(old(SnapNow()), old(staging.CanAcceptProducer()), queueMax, old(|ledger.order|), ledger.cap))
    {
      hide Valid, Progress, AdmittedTo, ShutdownStep, AdmissionResult;
      ghost var a := SnapNow();
      ProgressNothing(a);
      ChannelIsOpen();
      match command
      case None =>
        if shutdown.Running? {
          BeginForcedShutdown();
        }
      case Some(Submission(next)) =>
        if next.operationId !in accepted {
          var result := Submit(next);
          if result.Admitted? {
            AdmittedIsProgress(a, SnapNow(), next);
          }
        }
      case Some(CompactionRequest(id, session)) =>
        var _ := StartCompaction(id, session);
        QuietIsProgress(a, SnapNow());
    }

    method ReapDriver(exit: DriverExit, committed: bool)
      requires Valid() && driverJoin && CanReapChildren() && !winding
      modifies this, staging, outlet, transients, ledger
      ensures Valid() && Progress(old(SnapNow()), SnapNow())
    {
      hide Valid, Progress, DrainedTo, JoinedTo, StartedTo;
      ghost var a := SnapNow();
      ghost var drained, joined, room := OnDriverJoin(exit, committed);
      EndedProgress(a, drained);
      JoinedIsProgress(drained, joined, exit, committed, room);
      StartedIsProgress(joined, SnapNow());
      ProgressTrans(a, drained, joined);
      ProgressTrans(a, joined, SnapNow());
    }

    method ReapMaintenance(exit: MaintenanceExit)
      requires Valid() && maintenanceJoin && CanReapChildren()
      modifies this, staging, outlet, transients
      ensures Valid() && Progress(old(SnapNow()), SnapNow())
    {
      hide Valid, Progress, MaintenanceEnded, StartedTo;
      RoomToReap();
      ghost var a := SnapNow();
      ghost var ended := OnMaintenanceJoin(exit);
      MaintenanceIsProgress(a, ended, exit);
      StartedIsProgress(ended, SnapNow());
      ProgressTrans(a, ended, SnapNow());
    }

    /** The channel closes when its driver and the active operation are gone. */
    method OnDriverEvent()
      requires Valid() && CanPollDriver()
      modifies this, staging, outlet, transients, ledger
      ensures Valid() && DrainedTo(old(SnapNow()), SnapNow())
      ensures old(driverEvents).Some? && old(driverEvents).value != [] ==> |received| == |old(received)| + 1
      ensures old(driverQuota) == 0 ==> driverSettled == old(driverSettled) && |received| <= |old(received)| + 1
    {
      hide Valid, DrainedTo;
      ghost var a := SnapNow();
      DriverActs();
      ghost var b := SnapNow();
      var more := ForwardNext();
      ghost var c := SnapNow();
      DrainedTrans(a, b, c);
      if !more && active.None? && !driverLive {
        DropChannel();
        DrainedTrans(a, c, SnapNow());
      }
    }

    /** Handles one lane; a lane that is not ready does nothing. */
    method OnLane(lane: Lane)
      requires Valid() && !winding
      modifies this, staging, outlet, transients, ledger
      ensures Valid() && Progress(old(SnapNow()), SnapNow())
      ensures lane.ControlLane? ==> ControlTo(old(SnapNow()), SnapNow(), lane.control, old(staging.CanAcceptProducer()))
      ensures lane.CommandLane? ==>
                CommandTo(old(SnapNow()), SnapNow(), lane.command, old(staging.CanAcceptProducer()),
                          SubmitAnswer(old(SnapNow()), old(staging.CanAcceptProducer()), queueMax, old(|ledger.order|), ledger.cap))
      ensures lane.ShutdownLane? ==> SnapNow() == old(SnapNow()).(sched := ShutdownStep(old(SchedNow()), lane.request))
      ensures lane.TimeoutLane? ==> SnapNow() == old(SnapNow()).(sched := old(SchedNow()).(active := CancelActive(old(active), Timeout)))
      ensures lane.DriverLane? || lane.TransientLane? ==>
                if old(CanPollDriver()) then DrainedTo(old(SnapNow()), SnapNow()) else SnapNow() == old(SnapNow())
    {
      hide Valid, Progress, SinkLost, ShutdownStep, DrainedTo, ControlTo, CommandTo, SubmitAnswer, RestNow;
      ghost var a := SnapNow();
      ProgressNothing(a);
      match lane
      case SinkLane => WatchSink();
      case ShutdownLane(request) =>
        RequestShutdown(request);
        ShutdownClimbs(a.sched, request);
        QuietIsProgress(a, SnapNow());
      case ControlLane(control) => OnControl(control);
      case CommandLane(command) => OnCommand(command);
      case DriverLane =>
        if CanPollDriver() {
          OnDriverEvent();
          DrainedIsProgress(a, SnapNow());
        }
      case DriverJoinLane(exit, committed) =>
        if driverJoin && CanReapChildren() {
          ReapDriver(exit, committed);
        }
      case MaintenanceJoinLane(exit) =>
        if maintenanceJoin && CanReapChildren() {
          ReapMaintenance(exit);
        }
      case OutletLane => SendWhenRoom();
      case TransientLane =>
        if CanPollDriver() {
          PullCaughtUpTransients();
          DrainedIsProgress(a, SnapNow());
        }
      case TimeoutLane =>
        RequestActiveCancel(Timeout);
        QuietIsProgress(a, SnapNow());
      case DeadlineLane =>
    }

    method WatchSink()
      requires Valid()
      modifies this, staging, outlet, transients
      ensures Valid() && Progress(old(SnapNow()), SnapNow())
    {
      hide Valid, Progress, SinkLost, DrainedTo;
      ghost var a := SnapNow();
      NoticeSink();
      FlushedIsDrained(a, SnapNow());
      DrainedIsProgress(a, SnapNow());
    }

    method SendWhenRoom()
      requires Valid()
      modifies this, staging, outlet, transients
      ensures Valid() && Progress(old(SnapNow()), SnapNow())
    {
      hide Valid, Progress, SinkLost, DrainedTo;
      ghost var a := SnapNow();
      SendOutbound();
      FlushedIsDrained(a, SnapNow());
      DrainedIsProgress(a, SnapNow());
    }

    /** What every turn does before it waits: look at the sink, let go of a finished driver's
        leftovers, publish transients, flush. */
    method Prepare()
      requires Valid()
      modifies this, staging, outlet, transients, ledger
      ensures Valid() && Progress(old(SnapNow()), SnapNow())
    {
      hide Valid, Progress, SinkLost, DrainedTo;
      ghost var a := SnapNow();
      NoticeSink();
      FlushedIsDrained(a, SnapNow());
      if !driverJoin && driverEvents.Some? {
        DrainLeftovers(a);
      }
      if CanPollDriver() {
        ghost var b := SnapNow();
        PullCaughtUpTransients();
        DrainedTrans(a, b, SnapNow());
      }
      ghost var c := SnapNow();
      FlushOutbound();
      FlushedIsDrained(c, SnapNow());
      DrainedTrans(a, c, SnapNow());
      DrainedIsProgress(a, SnapNow());
    }

    lemma FinishedOrWinding()
      requires Valid() && !driverJoin
      ensures driverLive ==> winding
    {
      hide Wired, SchedOk, ChannelOk, QueueOpen;
    }

    method DrainLeftovers(ghost a: Snap)
      requires Valid() && DrainedTo(a, SnapNow()) && !driverJoin
      modifies this, staging, outlet, transients, ledger
      ensures Valid() && DrainedTo(a, SnapNow())
    {
      hide Valid, SinkLost, DrainedTo;
      FinishedOrWinding();
      ghost var b := SnapNow();
      FlushStagingBestEffort();
      FlushedIsDrained(b, SnapNow());
      ghost var c := SnapNow();
      DrainDriverOpenSlots();
      DrainedTrans(b, c, SnapNow());
      DrainedTrans(a, b, SnapNow());
    }

    /** What every turn does last: start the next operation, publish the availability, flush. */
    method Conclude()
      requires Valid()
      modifies this, staging, outlet, transients
      ensures Valid() && Progress(old(SnapNow()), SnapNow()) && Rested()
    {
      hide Valid, Progress, StartedNext, StartedTo, React;
      ghost var a := SnapNow();
      MaybeStartNext();
      ghost var b := SnapNow();
      StartedIsProgress(a, b);
      PublishAndFlush();
      ProgressTrans(a, b, SnapNow());
      NothingToStart(a, b, SnapNow());
    }

    /** Nothing that could start still waits; while the consumer is there the availability last
        published is the current one, and what is still staged found the outlet full. */
    ghost predicate Rested()
      reads this, staging, outlet
    {
      && StartedNext(SchedNow(), driverEvents.Some?) == SchedNow()
      && Published()
    }

    predicate Published()
      reads this, staging, outlet
    {
      !sinkClosed ==>
        && (staging.queue == [] || outlet.IsFull())
        && lastQueuedLen == |queue| && lastAvailability == AvailabilityOf(active, maintenance)
    }

    method PublishAndFlush()
      requires Valid()
      modifies this, staging, outlet, transients
      ensures Valid() && Progress(old(SnapNow()), SnapNow()) && Published()
      ensures SchedNow() == React(old(SchedNow()), old(sinkClosed), sinkClosed, old(now)) && driverEvents == old(driverEvents)
    {
      hide Valid, Progress, React;
      ghost var a := SnapNow();
      EmitAvailabilityIfChanged();
      ghost var b := SnapNow();
      QuietIsProgress(a, b);
      FlushLast();
      ProgressTrans(a, b, SnapNow());
    }

    method FlushLast()
      requires Valid() && lastQueuedLen == |queue| && lastAvailability == AvailabilityOf(active, maintenance)
      modifies this, staging, outlet, transients
      ensures Valid() && Progress(old(SnapNow()), SnapNow()) && Published()
      ensures SchedNow() == React(old(SchedNow()), old(sinkClosed), sinkClosed, old(now)) && driverEvents == old(driverEvents)
    {
      hide Valid, Progress, SinkLost, DrainedTo, Fair;
      ghost var b := SnapNow();
      FlushOutbound();
      FlushedIsDrained(b, SnapNow());
      DrainedIsProgress(b, SnapNow());
    }

    method OnLanes(lanes: seq<Lane>)
      requires Valid() && !winding
      modifies this, staging, outlet, transients, ledger
      ensures Valid() && Progress(old(SnapNow()), SnapNow())
    {
      hide Valid, Progress;
      ghost var a := SnapNow();
      ProgressNothing(a);
      for i := 0 to |lanes|
        invariant Valid() && Progress(a, SnapNow()) && !winding
      {
        ghost var b := SnapNow();
        OnLane(lanes[i]);
        StillRunning(b, SnapNow());
        ProgressTrans(a, b, SnapNow());
      }
    }

    /** Forwards at most `budget` driver events, the one that woke the turn included, while two
        slots are free. */
    method ForwardWithin(budget: nat)
      requires Valid()
      modifies this, staging, outlet, transients, ledger
      ensures Valid() && DrainedTo(old(SnapNow()), SnapNow())
      ensures raced == old(raced)
      ensures |received| <= |old(received)| + Further(budget)
      ensures !driverLive ==> driverEvents.None? || driverEvents.value == [] || !CanPollDriver() || |received| == |old(received)| + Further(budget)
    {
      hide Valid, DrainedTo;
      ghost var a := SnapNow();
      ForwardUpTo(Further(budget));
      ghost var d := SnapNow();
      PullCaughtUpTransients();
      DrainedTrans(a, d, SnapNow());
      DrainedFacts(d, SnapNow());
    }

    function Further(budget: nat): nat {
      if budget >= 1 then budget - 1 else 0
    }

    method ForwardUpTo(count: nat)
      requires Valid()
      modifies this, staging, outlet, transients, ledger
      ensures Valid() && DrainedTo(old(SnapNow()), SnapNow())
      ensures raced == old(raced) && |received| <= |old(received)| + count
      ensures driverEvents.None? || driverEvents.value == [] || !CanPollDriver() || |received| == |old(received)| + count
    {
      hide Valid, DrainedTo;
      ghost var a := SnapNow();
      DrainedNothing(a);
      var i := 0;
      while i < count && CanPollDriver()
        invariant Valid() && DrainedTo(a, SnapNow()) && raced == old(raced)
        invariant i <= count && |received| == |old(received)| + i
      {
        ghost var b := SnapNow();
        DriverActs();
        ghost var c := SnapNow();
        DrainedTrans(a, b, c);
        var more := ForwardNext();
        DrainedTrans(a, c, SnapNow());
        if !more {
          break;
        }
        i := i + 1;
      }
    }

    /** One turn of the run loop. */
    method Turn(input: Input)
      requires Valid() && !winding
      modifies this, staging, outlet, transients, ledger
      ensures Valid() && Progress(old(SnapNow()), SnapNow()) && Rested()
    {
      hide Valid, Progress, Rested;
      ghost var a := SnapNow();
      Prepare();
      ghost var b := SnapNow();
      StillRunning(a, b);
      match input {
        case Reap(join, waiting) => OnLanes([join] + waiting);
        case Wait(lane, budget) => OnAwaited(lane, budget);
      }
      ProgressTrans(a, b, SnapNow());
      ghost var d := SnapNow();
      Conclude();
      ProgressTrans(a, d, SnapNow());
    }

    /** The lane that was awaited, and further driver events within the budget. */
    method OnAwaited(lane: Lane, budget: nat)
      requires Valid() && !winding
      modifies this, staging, outlet, transients, ledger
      ensures Valid() && Progress(old(SnapNow()), SnapNow())
    {
      hide Valid, Progress, DrainedTo;
      ghost var a := SnapNow();
      OnLane(lane);
      if CanPollDriver() {
        ghost var b := SnapNow();
        ForwardWithin(budget);
        DrainedIsProgress(b, SnapNow());
        ProgressTrans(a, b, SnapNow());
      }
    }

    // ---- the end ----

    predicate ShouldFinishEpoch()
      reads this
    {
      && (shutdown.Draining? || shutdown.Forced?)
      && ((deadline.Some? && now >= deadline.value) || (active.None? && maintenance.None? && queue == []))
    }

    /** Aborts the children and waits for them, perhaps not long enough. */
    method JoinChildren()
      requires Valid() && winding
      modifies this`driverJoin, this`maintenanceJoin, this`driverLive, this`driverEvents, this`driverSettled, this`driverQuota
      ensures Valid() && WindsDown(old(SnapNow()), SnapNow()) && winding
    {
      hide Valid, DrainedTo, Progress, WindsDown;
      ghost var a := SnapNow();
      DriverActs();
      ghost var b := SnapNow();
      DrainedWinds(a, b);
      ForgetHandles();
      QuietIsProgress(b, SnapNow());
      QuietWinds(b, SnapNow());
      WindsTrans(a, b, SnapNow());
    }

    method ForgetHandles()
      requires Valid() && winding
      modifies this`driverJoin, this`maintenanceJoin, this`driverLive
      ensures Valid() && SchedNow() == old(SchedNow()).(driverJoin := false, maintenanceJoin := false)
      ensures RestNow() == old(RestNow()).(driverLive := driverLive)
    {
      hide Valid;
      var late: bool := *;
      if !late {
        DriverGone();
      }
      DropHandles();
    }

    method DropHandles()
      requires Valid() && (driverLive ==> winding)
      modifies this`driverJoin, this`maintenanceJoin
      ensures Valid() && SchedNow() == old(SchedNow()).(driverJoin := false, maintenanceJoin := false)
    {
      hide Wired, SchedOk, ChannelOk, BooksOk, QueueOpen;
      DriverForgotten(SchedNow(), accepted, driverEvents, driverLive, driverLive, driverSettled, ledger.states);
      BooksOfDriver(lost, raced, winding, driverLive, driverJoin, driverLive, false, lastSettled, staged);
      driverJoin, maintenanceJoin := false, false;
    }

    method DrainForEnd(ghost a: Snap)
      requires Valid() && WindsDown(a, SnapNow()) && winding
      modifies this, staging, outlet, transients, ledger
      ensures Valid() && WindsDown(a, SnapNow()) && now == old(now) && winding
    {
      hide Valid, Progress, DrainedTo, WindsDown;
      ghost var b := SnapNow();
      DrainDriverOpenSlots();
      DrainedFacts(b, SnapNow());
      DrainedWinds(b, SnapNow());
      WindsTrans(a, b, SnapNow());
    }

    /** The epoch is being wound up: the children are told to stop. */
    method StopChildren()
      requires Valid()
      modifies this`active, this`maintenance, this`winding
      ensures Valid() && WindsDown(Winding(old(SnapNow())), SnapNow()) && winding
      ensures SnapNow() == Winding(old(SnapNow())).(sched := AbortChildren(old(SchedNow())))
    {
      hide Valid, WindsDown;
      AbortWinds(SnapNow());
      BeginWinding();
      AbortNow();
    }

    ghost method BeginWinding()
      requires Valid()
      modifies this`winding
      ensures Valid() && winding
    {
      hide Wired, SchedOk, ChannelOk, QueueOpen;
      winding := true;
    }

    method AbortNow()
      requires Valid()
      modifies this`active, this`maintenance
      ensures Valid() && SchedNow() == AbortChildren(old(SchedNow()))
    {
      hide Wired, QueueOpen, BooksOk;
      ForceAbortChildren();
    }

    /** Forwards and flushes in turns until the driver has nothing left, the deadline has
        passed, or a round moved nothing. Even after the deadline it forwards once. */
    method DrainUntil(until: int)
      requires Valid() && winding
      modifies this, staging, outlet, transients, ledger
      ensures Valid() && WindsDown(old(SnapNow()), SnapNow())
    {
      hide Valid, Progress, DrainedTo, WindsDown;
      ghost var a := SnapNow();
      WindsNothing(a);
      var moved := true;
      while moved
        invariant Valid() && WindsDown(a, SnapNow()) && winding
        decreases moved, until - now
      {
        DrainForEnd(a);
        if driverEvents.None? || driverEvents.value == [] || now >= until {
          break;
        }
        var driverBefore, stagingBefore := |driverEvents.value|, |staging.queue|;
        FlushAndTick(a, until);
        DrainForEnd(a);
        if driverEvents.None? || driverEvents.value == [] || now >= until {
          break;
        }
        moved := |staging.queue| < stagingBefore || |driverEvents.value| < driverBefore;
      }
    }

    method FlushAndTick(ghost a: Snap, until: int)
      requires Valid() && WindsDown(a, SnapNow()) && winding
      modifies this, staging, outlet, transients
      ensures Valid() && WindsDown(a, SnapNow()) && now > old(now) && winding
    {
      hide Valid;
      ghost var b := SnapNow();
      FlushReliableUntil(until);
      ghost var c := SnapNow();
      WindsTrans(a, b, c);
      Tick();
      WindsTrans(a, c, SnapNow());
    }

    /** Drops the children, the queue and the driver channel; the ledger stays. */
    method ReleaseAll()
      requires Valid()
      modifies this`active, this`maintenance, this`queue, this`driverEvents, this`driverLive, this`driverJoin, this`maintenanceJoin, this`abandoned
      ensures Valid() && SchedNow() == Released(old(SchedNow())) && driverEvents.None?
      ensures RestNow() == old(RestNow()).(driverEvents := None, driverLive := false, abandoned := old(abandoned) + Waiting(old(RestNow())))
    {
      hide Valid, SchedNow, RestNow;
      Abandon(Waiting(RestNow()));
      HangUp();
      EmptySlots();
    }

    method HangUp()
      requires Valid()
      modifies this`driverEvents, this`driverLive
      ensures Valid() && driverEvents.None? && !driverLive
      ensures RestNow() == old(RestNow()).(driverEvents := None, driverLive := false)
    {
      hide Wired, SchedOk, ChannelOk, BooksOk, QueueOpen;
      ChannelHungUp(driverEvents, starts, active, driverLive, driverSettled, ledger.states);
      BooksOfDriver(lost, raced, winding, driverLive, driverJoin, false, driverJoin, lastSettled, staged);
      driverEvents, driverLive := None, false;
    }

    method EmptySlots()
      requires Valid() && driverEvents.None? && !driverLive
      modifies this`active, this`maintenance, this`queue, this`driverJoin, this`maintenanceJoin
      ensures Valid() && SchedNow() == Released(old(SchedNow()))
    {
      hide Valid;
      DropHandles();
      DropAll();
    }

    method DropAll()
      requires Valid() && driverEvents.None? && !driverLive && !driverJoin && !maintenanceJoin
      modifies this`active, this`maintenance, this`queue
      ensures Valid() && SchedNow() == old(SchedNow()).(active := None, maintenance := None, queue := [])
    {
      hide Wired, SchedOk, ChannelOk, BooksOk, QueueOpen;
      ReleasedOk(SchedNow(), accepted, driverSettled, ledger.states);
      active, maintenance, queue := None, None, [];
    }

    /** Winds the epoch down. Nothing is settled here that the driver did not report: what is
        still in the ledger is left to the supervisor. */
    method FinishEpoch() returns (exit: Exit)
      requires Valid()
      modifies this, staging, outlet, transients, ledger
      ensures Valid() && Finished(old(SnapNow()), SnapNow())
      ensures exit == Exit(if sinkClosed then EventSinkClosed else EpochEndReason.Shutdown, [],
                           if old(maintenance).Some? then Some((old(maintenance).value.id, old(maintenance).value.sessionId)) else None)
      ensures active.None? && maintenance.None? && queue == [] && driverEvents.None?
    {
      hide Valid, Progress, Finished;
      ghost var s := SnapNow();
      ghost var a := Winding(s);
      WindUp();
      ghost var d := SnapNow();
      ChannelIsOpen();
      var task := if maintenance.Some? then Some((maintenance.value.id, maintenance.value.sessionId)) else None;
      ReleaseAll();
      ReleasedIsProgress(d, SnapNow());
      ProgressTrans(a, d, SnapNow());
      WoundUp(s, SnapNow());
      exit := Exit(if sinkClosed then EventSinkClosed else EpochEndReason.Shutdown, [], task);
    }

    /** Stops the children and forwards what they still had to say. */
    method WindUp()
      requires Valid()
      modifies this, staging, outlet, transients, ledger
      ensures Valid() && WindsDown(Winding(old(SnapNow())), SnapNow())
    {
      hide Valid, WindsDown;
      ghost var a := Winding(SnapNow());
      StopChildren();
      DrainForEnd(a);
      ghost var b := SnapNow();
      JoinChildren();
      WindsTrans(a, b, SnapNow());
      DrainForEnd(a);
      ghost var c := SnapNow();
      DrainUntil(if deadline.Some? then deadline.value else now + DEFAULT_SHUTDOWN_TICKS);
      WindsTrans(a, c, SnapNow());
    }

    /** Runs until the epoch is over or `inputs` are used up, which is where a run that is
        still going, or one that panics, has got to. */
    method Run(inputs: seq<Input>) returns (exit: Option<Exit>)
      requires Valid() && !winding
      modifies this, staging, outlet, transients, ledger
      ensures Valid() && if exit.Some? then Finished(old(SnapNow()), SnapNow()) else Progress(old(SnapNow()), SnapNow())
      ensures exit.Some? ==> active.None? && maintenance.None? && queue == [] && driverEvents.None?
      ensures exit.None? ==> !winding
    {
      hide Valid, Progress, Finished;
      ghost var a := SnapNow();
      ProgressNothing(a);
      for i := 0 to |inputs|
        invariant Valid() && Progress(a, SnapNow())
      {
        StillRunning(a, SnapNow());
        TickIn(a);
        ghost var b := SnapNow();
        if ShouldFinishEpoch() {
          var e := FinishEpoch();
          FinishedTrans(a, b, SnapNow());
          return Some(e);
        }
        Turn(inputs[i]);
        ProgressTrans(a, b, SnapNow());
      }
      StillRunning(a, SnapNow());
      return None;
    }

    method TickIn(ghost a: Snap)
      requires Valid() && Progress(a, SnapNow())
      modifies this`now
      ensures Valid() && Progress(a, SnapNow())
    {
      hide Valid, Progress;
      ghost var b := SnapNow();
      Tick();
      QuietIsProgress(b, SnapNow());
      ProgressTrans(a, b, SnapNow());
    }

    // ---- what holds of every run ----

    /** Stop the coordinator, by an orderly exit or a panic, after any of its writes to shared
        memory while the consumer is there: once the supervisor has delivered its epilogue every
        operation accepted so far is settled exactly once if and only if the stop did not fall
        between taking a settlement out of staging and giving it to the outlet. */
    lemma StoppedAnywhere(n: nat, exit: Exit)
      requires Valid() && n <= |steps| && After(steps[..n]).open
      ensures (forall id :: id in After(steps[..n]).accepted ==> Count(Delivered(steps[..n], exit), id) == 1)
         <==> !SettlementInHand(After(steps[..n]))
    {
      LegalPrefix(bounds, steps, n);
      ExactlyOnceIffNoSettlementInHand(bounds, steps[..n], exit);
    }

    /** Between handlers nothing is in hand, so an orderly exit settles everything exactly once,
        and nothing that was not accepted. */
    lemma OrderlyExit(exit: Exit, id: OperationId)
      requires Valid() && !outlet.closed
      ensures Count(outlet.sent + Epilogue(Now(), exit), id) == if id in accepted then 1 else 0
    {
      SettledExactlyOnce(bounds, steps, exit, id);
    }

    /** Which settlement is delivered: the one that was staged, with the status its driver or its
        cancellation gave it, and one made up as failed exactly for what is still in the ledger. */
    lemma DeliveredSettlement(exit: Exit, e: Event)
      requires Valid() && !outlet.closed && e.OperationSettled? && e in outlet.sent + Epilogue(Now(), exit)
      ensures if e.operationId in ledger.states then e == ForcedEvent(ledger.states[e.operationId]) else e in staged
    {
      hide SchedOk, ChannelOk, QueueOpen, BooksOk, Traced, Count, Reliable, Epilogue;
      var id, all := e.operationId, outlet.sent + staging.queue;
      AcceptedSplits(id);
      CountZero(all, id);
      if e in all {
        assert Settles(e, id);
        StagedReliably(e);
      } else {
        EpilogueSettlement(Now(), exit, e);
        var entry :| entry in ledger.Contents() && e == ForcedEvent(entry);
        ledger.EntryOfId(entry);
      }
    }

    /** What becomes of a settlement that a driver reported, in a run from `start`: what is delivered
        mirrors it, except that one is made up as failed exactly if the report was abandoned, or
        still waits in the channel. Reports are abandoned by an idle admission that replaces their
        channel, by the end of the epoch, and, raced, for want of room. */
    lemma ReportedSettlement(start: Snap, exit: Exit, agent: AgentEvent, e: Event)
      requires Valid() && !outlet.closed && Accounted(start, SnapNow()) && start.rest.received == [] && start.rest.abandoned == []
      requires agent.AgentSettled? && (agent in received || agent in abandoned || agent in Waiting(RestNow()))
      requires Settles(e, agent.operationId) && e in outlet.sent + Epilogue(Now(), exit)
      ensures if agent in abandoned || agent in Waiting(RestNow())
              then agent.operationId in ledger.states && e == ForcedEvent(ledger.states[agent.operationId])
              else Mirrors(e, agent)
    {
      hide Wired, SchedOk, ChannelOk, QueueOpen, BooksOk, Epilogue, Count, Stranded;
      var id := agent.operationId;
      DeliveredSettlement(exit, e);
      if agent in abandoned {
        assert abandoned[0..] == abandoned;
        StrandedIsOpen(SnapNow(), id);
      } else if agent in Waiting(RestNow()) {
        ChannelIsOpen();
      } else {
        assert received[0..] == received;
        assert AnsweredIn(agent, SnapNow());
        var s :| s in staged && Mirrors(s, agent);
        StagedOnce(id, s);
        if e in staged {
          SettledByOne(staged, id, s, e);
        }
      }
    }

    lemma ReportedSettlements(start: Snap, exit: Exit)
      requires Valid() && !outlet.closed && Accounted(start, SnapNow()) && start.rest.received == [] && start.rest.abandoned == []
      requires driverEvents.None?
      ensures DeliversReports(outlet.sent + Epilogue(Now(), exit), RestNow())
    {
      hide SchedOk, ChannelOk, QueueOpen, BooksOk, Traced, Accounted, Epilogue;
      forall agent, e | (agent in received || agent in abandoned) && agent.AgentSettled?
                        && e in outlet.sent + Epilogue(Now(), exit) && Settles(e, agent.operationId)
        ensures if agent in abandoned then MadeUp(e) else Mirrors(e, agent)
      {
        ReportedSettlement(start, exit, agent, e);
      }
    }

    lemma StagedOnce(id: OperationId, s: Event)
      requires Valid() && !outlet.closed && s in staged && Settles(s, id)
      ensures id !in ledger.states && Count(staged, id) <= 1
    {
      hide Valid;
      AcceptedSplits(id);
      StagedCounts(id);
      CountZero(staged, id);
    }

    /** A stranded operation is delivered as failed, whatever its driver did. */
    lemma StrandedIsForced(exit: Exit, id: OperationId, e: Event)
      requires Valid() && !outlet.closed && Stranded(SnapNow(), id)
      requires Settles(e, id) && e in outlet.sent + Epilogue(Now(), exit)
      ensures id in ledger.states && e == ForcedEvent(ledger.states[id])
    {
      hide Wired, SchedOk, ChannelOk, QueueOpen, BooksOk, Epilogue, Count;
      DeliveredSettlement(exit, e);
    }

    lemma StagedReliably(e: Event)
      requires Valid() && !outlet.closed && !IsMergeable(e) && e in outlet.sent + staging.queue
      ensures e in staged
    {
      hide SchedOk, ChannelOk, QueueOpen, BooksOk, Traced;
      NothingLostNothingReordered();
      ReliableMembers(outlet.sent, e);
    }

    /** While the consumer is there, the reliable events sent and staged are exactly those the
        handlers staged, in order. */
    lemma NothingLostNothingReordered()
      requires Valid() && !outlet.closed
      ensures Reliable(outlet.sent) + staging.queue == staged
    {
      hide SchedOk, ChannelOk, BooksOk, QueueOpen, Legal, After, StagedBy, Reliable;
      LosslessFifo(bounds, steps);
      assert Log(Now()) == Reliable(outlet.sent) + staging.queue;
    }

    /** While the consumer is there, the accepted operations are those in the ledger and those
        whose settlement was staged, and never both. */
    lemma AcceptedSplits(id: OperationId)
      requires Valid() && !outlet.closed
      ensures id in accepted <==> id in ledger.states || Count(outlet.sent + staging.queue, id) == 1
      ensures !(id in ledger.states && Count(outlet.sent + staging.queue, id) == 1)
      ensures Count(outlet.sent + staging.queue, id) <= 1
    {
      RunInv(bounds, steps);
      ledger.HoldsIsMember(id);
      assert IdOk(Now(), id);
      assert Total(Now()) == outlet.sent + staging.queue;
    }

    /** Nothing sent so far settles an operation twice, whatever became of the consumer. */
    lemma SettledOnceSoFar()
      requires Valid()
      ensures forall id :: Count(outlet.sent, id) <= 1
    {
      RunInv(bounds, steps);
      forall id ensures Count(outlet.sent, id) <= 1 {
        assert IdOk(Now(), id);
        CountTotal(Now(), id);
      }
    }

    /** Of what the handlers emit nothing is ever dropped for want of room but reports of driver
        faults, each behind the settlement it is about, and driver events that slipped in behind
        an emptiness test while the epoch was wound up. `Emitted` says when. A settlement that
        finds no room is not emitted: its operation stays in the ledger. What a driver channel
        still held when it was let go was never received, and is not counted here. */
    lemma OnlyFaultsAreDropped(e: Event)
      requires Valid() && e in lost && !e.RuntimeFault?
      ensures raced && winding
    {
      hide Wired, SchedOk, ChannelOk, QueueOpen;
    }

    /** One child at a time; waiting and unsettled running operations are in the ledger, which
        never outgrows the queue and the running operation. */
    lemma OneAtATime()
      requires Valid()
      ensures !(active.Some? && maintenance.Some?)
      ensures forall q :: q in queue ==> q.operationId in ledger.states
      ensures active.Some? && !driverSettled ==> active.value.operationId in ledger.states
      ensures active.Some? && !outlet.closed ==>
                (active.value.operationId in ledger.states <==> Count(staged, active.value.operationId) == 0)
      ensures |ledger.order| <= queueMax + 1
      ensures !shutdown.Running? ==> queue == []
    {
      hide Traced, BooksOk, Count;
      if active.Some? && !outlet.closed {
        ActiveUntilSettled();
      }
    }

    /** While the consumer is there, the running operation is in the ledger exactly until its
        settlement is staged. */
    lemma ActiveUntilSettled()
      requires Valid() && !outlet.closed && active.Some?
      ensures active.value.operationId in ledger.states <==> Count(staged, active.value.operationId) == 0
    {
      hide Wired, ChannelOk, QueueOpen, BooksOk;
      var id, all := active.value.operationId, starts + QueueIds(queue);
      assert all[|starts| - 1] == id;
      SubsequenceMembers(all, accepted, id);
      AcceptedSplits(id);
      StagedCounts(id);
    }

    lemma StagedCounts(id: OperationId)
      requires Valid() && !outlet.closed
      ensures Count(staged, id) == Count(outlet.sent + staging.queue, id)
      ensures id in SettledOrder(staged) <==> Count(staged, id) > 0
    {
      hide Valid, Count, SettledOrder, Reliable;
      NothingLostNothingReordered();
      CountConcat(outlet.sent, staging.queue, id);
      CountConcat(Reliable(outlet.sent), staging.queue, id);
      SettledOrderCounts(outlet.sent, id);
      SettledOrderCounts(staged, id);
    }

    lemma RemembersStaged()
      requires Valid()
      ensures lastSettled == Recent(SettledOrder(staged))
    {
      hide Wired, SchedOk, ChannelOk, QueueOpen;
    }

    /** A cancel is answered `AlreadySettled` exactly if the operation is settled and fewer than 32
        settlements were staged after its own. */
    lemma SettledAnswer(id: OperationId, tooLate: bool, room: bool)
      requires Valid()
      ensures CancelAnswer(SchedNow(), lastSettled, id, tooLate, room).AlreadySettled?
         <==> id in SettledOrder(staged) && SettledSince(staged, id) < LAST_SETTLED_MAX
    {
      hide Wired, SchedOk, ChannelOk, QueueOpen;
      RecentIff(staged, id);
    }

    /** While the consumer is there, every operation settled longer ago is answered as unknown,
        unless its driver has still to be joined. */
    lemma ForgottenAnswer(id: OperationId, tooLate: bool, room: bool)
      requires Valid() && !outlet.closed && id in SettledOrder(staged)
      requires active.Some? ==> active.value.operationId != id
      ensures CancelAnswer(SchedNow(), lastSettled, id, tooLate, room)
           == if SettledSince(staged, id) < LAST_SETTLED_MAX then AlreadySettled else UnknownOperation
    {
      hide Wired, SchedOk, ChannelOk, BooksOk;
      SettledAnswer(id, tooLate, room);
      StagedCounts(id);
      AcceptedSplits(id);
    }

    /** Operations start in the order in which they were accepted. */
    lemma StartedInOrder(i: nat, j: nat)
      requires Valid() && i < j < |starts|
      ensures exists m, n :: 0 <= m < n < |accepted| && accepted[m] == starts[i] && accepted[n] == starts[j]
    {
      SubsequenceTake(starts + QueueIds(queue), accepted, |starts|);
      assert (starts + QueueIds(queue))[..|starts|] == starts;
      AcceptedOnce(bounds, steps);
      StartsInAcceptanceOrder(starts, accepted, i, j);
    }
  }
}
