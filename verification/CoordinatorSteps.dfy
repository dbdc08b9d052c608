/** What one handler of the coordinator may do, as relations between values, with the facts
 that carry them from one handler to the next. */
module CoordinatorSteps {
  import opened Wrappers
  import opened Identifiers
  import opened RuntimeEvents
  import opened EpochProtocol
  import opened CoordinatorState
  import Shutdown

  /** The public event for a forwarded driver event. */
  predicate Mirrors(event: Event, agent: AgentEvent) {
    if agent.AgentSettled? then
      && event.OperationSettled? && event.operationId == agent.operationId && event.status == agent.status
      && event.durability == agent.durability && event.revision == agent.revision
    else event == Agent(agent)
  }

  ghost predicate MirrorsAll(events: seq<Event>, agents: seq<AgentEvent>) {
    |events| == |agents| && forall i :: 0 <= i < |events| ==> Mirrors(events[i], agents[i])
  }

  predicate AtMostOneSettlement(es: seq<AgentEvent>) {
    forall i, j :: 0 <= i < j < |es| ==> !(es[i].AgentSettled? && es[j].AgentSettled?)
  }

  predicate NoSettlement(es: seq<AgentEvent>) {
    forall e :: e in es ==> !e.AgentSettled?
  }

  predicate SameOperation(a: Option<Active>, b: Option<Active>) {
    && a.Some? == b.Some?
    && (a.Some? ==> a.value.operationId == b.value.operationId && a.value.sessionId == b.value.sessionId
                    && a.value.turnId == b.value.turnId)
  }

  /** Forwarding driver events leaves the schedule alone, except that the coordinator may
      have noticed a closed sink and takes notes on its active operation. */
  predicate Forwarding(s: Sched, t: Sched, was: bool, noticed: bool, now: int) {
    t.(active := s.active) == React(s, was, noticed, now).(active := s.active) && SameOperation(s.active, t.active)
  }

  /** The driver channel carries only events of the operation started last, and a settlement
      only while that operation is unsettled. */
  ghost predicate ChannelOk(channel: Option<seq<AgentEvent>>, starts: seq<OperationId>, active: Option<Active>,
                            live: bool, settled: bool, open: map<OperationId, LedgerEntry>) {
    && (channel.Some? ==>
          && starts != []
          && AtMostOneSettlement(channel.value)
          && forall e :: e in channel.value ==> Deliverable(e, starts[|starts| - 1], open))
    && (live ==> active.Some? && channel.Some?)
    && (active.Some? && !settled ==>
          && active.value.operationId in open
          && (channel.Some? ==> NoSettlement(channel.value)))
  }

  predicate Deliverable(e: AgentEvent, owner: OperationId, open: map<OperationId, LedgerEntry>) {
    !IsTransientAgent(e) && (e.AgentSettled? ==> e.operationId == owner && owner in open)
  }

  /** Queued operations are unsettled. */
  ghost predicate QueueOpen(queue: seq<Queued>, open: map<OperationId, LedgerEntry>) {
    forall q :: q in queue ==> q.operationId in open
  }

  /** Only a fault report is ever dropped for want of room, unless a driver event raced, which
      takes a driver that lives on without its join handle: the epoch is being wound up. And the
      settlements remembered are the newest ones staged. */
  ghost predicate BooksOk(lost: seq<Event>, raced: bool, winding: bool, live: bool, join: bool,
                          lastSettled: seq<OperationId>, staged: seq<Event>) {
    && (!raced ==> forall e :: e in lost ==> e.RuntimeFault?)
    && (raced ==> winding)
    && (live ==> join || winding)
    && lastSettled == Recent(SettledOrder(staged))
  }

  /** The recorded steps lead to the present shared state and staged exactly these events. */
  ghost predicate Traced(bounds: Bounds, steps: seq<Step>, staged: seq<Event>, now: Shared) {
    Legal(bounds, steps) && After(steps) == now && StagedBy(steps) == staged
  }

  lemma TracedLeads(bounds: Bounds, steps: seq<Step>, staged: seq<Event>, now: Shared)
    requires Traced(bounds, steps, staged, now)
    ensures After(steps) == now
  {
  }

  /** Settling `id` may not strand anything: it is no longer queued, its driver has said so
      if it is the active one, and no settlement of it waits in the driver channel. */
  ghost predicate Settleable(id: OperationId, s: Sched, channel: Option<seq<AgentEvent>>, settled: bool,
                             open: map<OperationId, LedgerEntry>) {
    && id in open
    && (forall q :: q in s.queue ==> q.operationId != id)
    && (s.active.Some? && s.active.value.operationId == id ==> settled)
    && (channel.Some? ==> forall e :: e in channel.value ==> !(e.AgentSettled? && e.operationId == id))
  }

  lemma SettledChannel(id: OperationId, s: Sched, channel: Option<seq<AgentEvent>>, live: bool, settled: bool,
                       open: map<OperationId, LedgerEntry>)
    requires Settleable(id, s, channel, settled, open) && QueueOpen(s.queue, open)
    requires ChannelOk(channel, s.starts, s.active, live, settled, open)
    ensures id in open && QueueOpen(s.queue, open - {id})
    ensures ChannelOk(channel, s.starts, s.active, live, settled, open - {id})
  {
    if channel.Some? {
      forall e | e in channel.value ensures Deliverable(e, s.starts[|s.starts| - 1], open - {id}) {
        assert Deliverable(e, s.starts[|s.starts| - 1], open);
      }
    }
  }

  const LAST_SETTLED_MAX: nat := 32

  /** The last of `ids`, as many as are remembered. */
  function Recent(ids: seq<OperationId>): seq<OperationId> {
    if |ids| > LAST_SETTLED_MAX then ids[|ids| - LAST_SETTLED_MAX..] else ids
  }

  /** One more id remembered, and the oldest forgotten if there are too many. */
  function LastSettled(ids: seq<OperationId>, id: OperationId): seq<OperationId> {
    var all := ids + [id];
    if |all| > LAST_SETTLED_MAX then all[1..] else all
  }

  lemma RecentSnoc(ids: seq<OperationId>, id: OperationId)
    ensures LastSettled(Recent(ids), id) == Recent(ids + [id])
  {
  }

  /** A settled operation is remembered exactly until as many others have been settled after it. */
  lemma {:induction false} RememberedIff(es: seq<Event>, id: OperationId, max: nat)
    ensures (exists k :: 0 <= k < |SettledOrder(es)| && k >= |SettledOrder(es)| - max && SettledOrder(es)[k] == id)
       <==> id in SettledOrder(es) && SettledSince(es, id) < max
  {
    if es != [] {
      var init, last := es[..|es| - 1], es[|es| - 1];
      assert es == init + [last];
      SettledOrderSnoc(init, last);
      var ids, more := SettledOrder(init), SettledOrder(es);
      if !last.OperationSettled? {
        RememberedIff(init, id, max);
      } else if last.operationId == id {
        assert more[|ids|] == id;
      } else {
        RememberedIff(init, id, if max > 0 then max - 1 else 0);
        assert forall k :: 0 <= k < |ids| ==> more[k] == ids[k];
      }
    }
  }

  lemma RecentIff(es: seq<Event>, id: OperationId)
    ensures id in Recent(SettledOrder(es)) <==> id in SettledOrder(es) && SettledSince(es, id) < LAST_SETTLED_MAX
  {
    RememberedIff(es, id, LAST_SETTLED_MAX);
    var ids := SettledOrder(es);
    var drop := if |ids| > LAST_SETTLED_MAX then |ids| - LAST_SETTLED_MAX else 0;
    assert Recent(ids) == ids[drop..];
    if id in Recent(ids) {
      var k :| 0 <= k < |Recent(ids)| && Recent(ids)[k] == id;
      assert ids[drop + k] == id;
    }
  }

  lemma BooksOfDriver(lost: seq<Event>, raced: bool, winding: bool, live: bool, join: bool, live': bool, join': bool,
                      lastSettled: seq<OperationId>, staged: seq<Event>)
    requires BooksOk(lost, raced, winding, live, join, lastSettled, staged) && (live' ==> join' || winding)
    ensures BooksOk(lost, raced, winding, live', join', lastSettled, staged)
  {
  }

  /** A driver that is gone, or whose handle is. */
  lemma DriverForgotten(s: Sched, accepted: seq<OperationId>, channel: Option<seq<AgentEvent>>, live: bool, live': bool,
                        settled: bool, open: map<OperationId, LedgerEntry>)
    requires SchedOk(s, accepted) && ChannelOk(channel, s.starts, s.active, live, settled, open) && (live' ==> live)
    ensures SchedOk(s.(driverJoin := false, maintenanceJoin := false), accepted)
    ensures ChannelOk(channel, s.starts, s.active, live', settled, open)
    ensures s.driverJoin ==> s.active.Some?
  {
  }

  lemma ActiveTaken(s: Sched, accepted: seq<OperationId>, channel: Option<seq<AgentEvent>>, settled: bool,
                    open: map<OperationId, LedgerEntry>)
    requires SchedOk(s, accepted) && ChannelOk(channel, s.starts, s.active, false, settled, open)
    ensures SchedOk(s.(active := None, driverJoin := false), accepted)
    ensures ChannelOk(Leftover(channel), s.starts, None, false, settled, open)
  {
  }

  lemma ChannelOpened(starts: seq<OperationId>, active: Option<Active>, open: map<OperationId, LedgerEntry>)
    requires ChannelOk(None, starts, active, false, false, open) && active.Some? && starts != []
    ensures ChannelOk(Some([]), starts, active, true, false, open)
  {
  }

  lemma ChannelHungUp(channel: Option<seq<AgentEvent>>, starts: seq<OperationId>, active: Option<Active>, live: bool,
                      settled: bool, open: map<OperationId, LedgerEntry>)
    requires ChannelOk(channel, starts, active, live, settled, open)
    ensures ChannelOk(None, starts, active, false, settled, open)
  {
  }

  lemma ActiveHasStarted(s: Sched, accepted: seq<OperationId>)
    requires SchedOk(s, accepted)
    ensures s.active.Some? ==> s.starts != []
  {
  }

  lemma BooksPlain(lost: seq<Event>, raced: bool, winding: bool, live: bool, join: bool,
                   lastSettled: seq<OperationId>, staged: seq<Event>, event: Event)
    requires BooksOk(lost, raced, winding, live, join, lastSettled, staged) && !event.OperationSettled?
    ensures BooksOk(lost, raced, winding, live, join, lastSettled, staged + [event])
  {
    SettledOrderSnoc(staged, event);
  }

  lemma BooksSettled(lost: seq<Event>, raced: bool, winding: bool, live: bool, join: bool,
                     lastSettled: seq<OperationId>, staged: seq<Event>, event: Event)
    requires BooksOk(lost, raced, winding, live, join, lastSettled, staged) && event.OperationSettled?
    ensures BooksOk(lost, raced, winding, live, join, LastSettled(lastSettled, event.operationId), staged + [event])
  {
    SettledOrderSnoc(staged, event);
    RecentSnoc(SettledOrder(staged), event.operationId);
  }

  const RELIABLE_BEFORE_TRANSIENT: nat := 4

  /** How many reliable events end a sequence of sent events. */
  function Trailing(out: seq<Event>): nat {
    if out == [] || IsMergeable(out[|out| - 1]) then 0 else Trailing(out[..|out| - 1]) + 1
  }

  /** Wherever more than four reliable events follow each other, no transient was waiting:
      none is sent later in the pass and none is left. */
  ghost predicate Fair(out: seq<Event>, waiting: bool) {
    forall i :: 0 <= i <= |out| && Trailing(out[..i]) > RELIABLE_BEFORE_TRANSIENT ==>
      !waiting && forall j :: i <= j < |out| ==> !IsMergeable(out[j])
  }

  lemma FairNothing()
    ensures Fair([], true) && Fair([], false) && Trailing([]) == 0
  {
  }

  lemma FairWeakened(out: seq<Event>, waiting: bool)
    requires Fair(out, true) || !waiting || Fair(out, waiting)
    requires Fair(out, true) || Fair(out, false)
    ensures Fair(out, waiting)
  {
  }

  lemma FairReliable(out: seq<Event>, e: Event, waiting: bool)
    requires Fair(out, waiting) && !IsMergeable(e)
    requires waiting ==> Trailing(out) < RELIABLE_BEFORE_TRANSIENT
    ensures Fair(out + [e], waiting)
    ensures Trailing(out + [e]) == Trailing(out) + 1
  {
    var more := out + [e];
    assert more[..|out|] == out;
    forall i | 0 <= i <= |more| && Trailing(more[..i]) > RELIABLE_BEFORE_TRANSIENT
      ensures !waiting && forall j :: i <= j < |more| ==> !IsMergeable(more[j])
    {
      if i <= |out| {
        assert more[..i] == out[..i];
      } else {
        assert more[..i] == more;
      }
    }
  }

  lemma FairTransient(out: seq<Event>, e: Event, waiting: bool)
    requires Fair(out, true) && IsMergeable(e)
    ensures Fair(out + [e], waiting)
    ensures Trailing(out + [e]) == 0
  {
    var more := out + [e];
    forall i | 0 <= i <= |more| ensures Trailing(more[..i]) <= RELIABLE_BEFORE_TRANSIENT {
      if i <= |out| {
        assert more[..i] == out[..i];
      } else {
        assert more[..i] == more;
      }
    }
  }

  function JoinedStatus(exit: DriverExit): OperationStatus {
    match exit
    case ExitSucceeded => Succeeded
    case CancelledConfirmed => Cancelled
    case _ => Failed
  }

  function JoinedDurability(exit: DriverExit): SettlementDurability {
    if exit.ExitSucceeded? || exit.FailedConfirmed? || exit.CancelledConfirmed? then Confirmed else Unconfirmed
  }

  const FAULT := RuntimeFault("operation driver ended without a confirmed settlement")

  datatype Rest = Rest(
    driverEvents: Option<seq<AgentEvent>>, driverLive: bool, driverSettled: bool, driverQuota: nat,
    received: seq<AgentEvent>, accepted: seq<OperationId>, lost: seq<Event>, raced: bool, now: int,
    lastSettled: seq<OperationId>, winding: bool, availability: Availability, queuedLen: nat,
    abandoned: seq<AgentEvent>, helpings: nat)

  /** Everything a handler may change, as one value. */
  datatype Snap = Snap(sched: Sched, rest: Rest, steps: seq<Step>, staged: seq<Event>, closed: bool,
                       open: map<OperationId, LedgerEntry>)

  // ---- settlements left behind ----

  /** The driver events still on their way. */
  function Waiting(rest: Rest): seq<AgentEvent> {
    if rest.driverEvents.Some? then rest.driverEvents.value else []
  }

  predicate Reports(e: AgentEvent, id: OperationId) { e.AgentSettled? && e.operationId == id }

  /** Unsettled, and nobody here will settle it any more: it does not wait, no settlement of it is
      on its way, and if it still counts as running its driver has spoken and the epoch ends. */
  ghost predicate Stranded(s: Snap, id: OperationId) {
    && id in s.open && id in s.rest.accepted
    && (s.sched.active.Some? && s.sched.active.value.operationId == id ==> s.rest.winding && s.rest.driverSettled)
    && (forall q :: q in s.sched.queue ==> q.operationId != id)
    && (forall e :: e in Waiting(s.rest) ==> !Reports(e, id))
  }

  lemma StrandedIsOpen(s: Snap, id: OperationId)
    requires Stranded(s, id)
    ensures id in s.open
  {
  }

  /** Whatever is received is accounted for. A settlement is staged with what its driver reported,
      unless the consumer is gone or it is abandoned; and what is abandoned stays stranded. */
  ghost predicate Accounted(a: Snap, b: Snap) {
    && a.rest.abandoned <= b.rest.abandoned && a.rest.received <= b.rest.received
    && (forall id :: Stranded(a, id) ==> Stranded(b, id))
    && (forall e :: e in b.rest.abandoned[|a.rest.abandoned|..] && e.AgentSettled? ==> Stranded(b, e.operationId))
    && (forall e :: e in b.rest.received[|a.rest.received|..] && e.AgentSettled? ==> AnsweredIn(e, b))
  }

  ghost predicate AnsweredIn(e: AgentEvent, b: Snap) {
    b.closed || e in b.rest.abandoned || exists s :: s in b.staged && Mirrors(s, e)
  }

  lemma AnsweredStays(e: AgentEvent, b: Snap, c: Snap)
    requires AnsweredIn(e, b) && b.staged <= c.staged && b.rest.abandoned <= c.rest.abandoned && (b.closed ==> c.closed)
    ensures AnsweredIn(e, c)
  {
    if s :| s in b.staged && Mirrors(s, e) {
      assert s in c.staged;
    }
  }

  lemma AccountedTrans(a: Snap, b: Snap, c: Snap)
    requires Accounted(a, b) && Accounted(b, c) && b.staged <= c.staged && (b.closed ==> c.closed)
    ensures Accounted(a, c)
  {
    hide Stranded, AnsweredIn;
    assert c.rest.abandoned[|a.rest.abandoned|..] == b.rest.abandoned[|a.rest.abandoned|..] + c.rest.abandoned[|b.rest.abandoned|..];
    assert c.rest.received[|a.rest.received|..] == b.rest.received[|a.rest.received|..] + c.rest.received[|b.rest.received|..];
    forall e | e in c.rest.received[|a.rest.received|..] && e.AgentSettled? ensures AnsweredIn(e, c) {
      if e in b.rest.received[|a.rest.received|..] {
        AnsweredStays(e, b, c);
      }
    }
  }

  /** Nothing received, settled or let go; nothing new runs or waits. */
  ghost predicate Calm(a: Snap, b: Snap) {
    && b.open == a.open && b.rest.abandoned == a.rest.abandoned && b.rest.received == a.rest.received
    && a.rest.accepted <= b.rest.accepted && (a.rest.winding ==> b.rest.winding) && (a.rest.driverSettled ==> b.rest.driverSettled)
    && (forall e :: e in Waiting(b.rest) ==> e in Waiting(a.rest))
    && Fewer(a.sched, b.sched)
  }

  /** Who runs and who waits in `t` did so in `s`. */
  ghost predicate Fewer(s: Sched, t: Sched) {
    && (t.active.Some? ==> s.active.Some? && t.active.value.operationId == s.active.value.operationId)
    && (forall q :: q in t.queue ==> q in s.queue)
  }

  lemma CalmIsAccounted(a: Snap, b: Snap)
    requires Calm(a, b)
    ensures Accounted(a, b)
  {
    assert b.rest.abandoned[|a.rest.abandoned|..] == [] && b.rest.received[|a.rest.received|..] == [];
  }

  lemma AccountedNothing(a: Snap)
    ensures Accounted(a, a)
  {
    CalmIsAccounted(a, a);
  }

  /** How many events the driver of the last start can still deliver. */
  function Left(rest: Rest): nat {
    rest.driverQuota + if rest.driverEvents.Some? then |rest.driverEvents.value| else 0
  }

  predicate MaySend(more: seq<AgentEvent>, owner: OperationId, settled: bool) {
    && AtMostOneSettlement(more)
    && forall e :: e in more ==> !IsTransientAgent(e) && (e.AgentSettled? ==> e.operationId == owner && !settled)
  }

  /** The session a driver's settlement is reported for. */
  function SessionFor(a: Snap, id: OperationId): Option<SessionId> {
    if a.sched.active.Some? then Some(a.sched.active.value.sessionId)
    else if id in a.open then Some(a.open[id].sessionId) else None
  }

  /** One driver event forwarded: it is staged, or there was no room for it; a settlement
      that finds no room leaves its operation in the ledger. */
  ghost predicate ForwardedOne(a: Snap, b: Snap, agent: AgentEvent, room: bool) {
    && a.steps <= b.steps && (a.closed ==> b.closed)
    && b.sched == Noted(React(a.sched, a.closed, b.closed, a.rest.now), agent)
    && b.rest == a.rest.(lost := b.rest.lost, lastSettled := b.rest.lastSettled, abandoned := b.rest.abandoned)
    && b.rest.abandoned == a.rest.abandoned + (if agent.AgentSettled? && !b.closed && b.staged == a.staged then [agent] else [])
    && (b.closed ==> b.staged == a.staged && b.rest.lost == a.rest.lost)
    && (!b.closed ==>
          || (|b.staged| == |a.staged| + 1 && a.staged <= b.staged && Mirrors(b.staged[|a.staged|], agent) && b.rest.lost == a.rest.lost
              && (agent.AgentSettled? ==> Some(b.staged[|a.staged|].sessionId) == SessionFor(a, agent.operationId)))
          || (!room && b.staged == a.staged && b.rest.lost == a.rest.lost + if agent.AgentSettled? then [] else [Agent(agent)]))
    && b.open == if agent.AgentSettled? && b.staged != a.staged then a.open - {agent.operationId} else a.open
  }

  /** Any number of driver events forwarded: unless one raced, everything received was staged
      in order and nothing was dropped. */
  ghost predicate DrainedTo(a: Snap, b: Snap) {
    && a.steps <= b.steps && (a.closed ==> b.closed) && (a.rest.raced ==> b.rest.raced)
    && Forwarding(a.sched, b.sched, a.closed, b.closed, a.rest.now)
    && b.rest.now == a.rest.now && b.rest.accepted == a.rest.accepted && b.rest.driverLive == a.rest.driverLive
    && b.rest.winding == a.rest.winding
    && a.rest.received <= b.rest.received && a.staged <= b.staged && a.rest.lost <= b.rest.lost
    && (!b.rest.raced ==> b.rest.lost == a.rest.lost && b.rest.abandoned == a.rest.abandoned)
    && (!b.rest.raced && !b.closed ==> MirrorsAll(b.staged[|a.staged|..], b.rest.received[|a.rest.received|..]))
    && |b.staged| + |a.rest.received| <= |a.staged| + |b.rest.received| && (b.staged == a.staged ==> b.open == a.open)
    && (NoSettlement(b.rest.received[|a.rest.received|..]) ==> b.open == a.open)
    && (b.open == a.open || (a.sched.starts != [] && b.open == a.open - {a.sched.starts[|a.sched.starts| - 1]}))
    && |b.rest.received| + Left(b.rest) <= |a.rest.received| + Left(a.rest)
    && a.rest.received + Waiting(a.rest) <= b.rest.received + Waiting(b.rest)
    && Accounted(a, b) && b.rest.helpings == a.rest.helpings
  }

  lemma MirrorsBoth(events: seq<Event>, agents: seq<AgentEvent>, events': seq<Event>, agents': seq<AgentEvent>)
    requires MirrorsAll(events, agents) && MirrorsAll(events', agents')
    ensures MirrorsAll(events + events', agents + agents')
  {
  }

  lemma NoSettlementBoth(es: seq<AgentEvent>, es': seq<AgentEvent>)
    ensures NoSettlement(es + es') <==> NoSettlement(es) && NoSettlement(es')
  {
    assert forall e :: e in es ==> e in es + es';
    assert forall e :: e in es' ==> e in es + es';
  }

  lemma DrainedTrans(a: Snap, b: Snap, c: Snap)
    requires DrainedTo(a, b) && DrainedTo(b, c)
    ensures DrainedTo(a, c)
  {
    hide Accounted, MirrorsAll, NoSettlement;
    AccountedTrans(a, b, c);
    var heard, more := b.rest.received[|a.rest.received|..], c.rest.received[|b.rest.received|..];
    assert c.rest.received[|a.rest.received|..] == heard + more;
    NoSettlementBoth(heard, more);
    if !c.rest.raced && !c.closed {
      assert c.staged[|a.staged|..] == b.staged[|a.staged|..] + c.staged[|b.staged|..];
      MirrorsBoth(b.staged[|a.staged|..], heard, c.staged[|b.staged|..], more);
    }
  }

  lemma DrainedFacts(a: Snap, b: Snap)
    requires DrainedTo(a, b)
    ensures b.rest.driverLive == a.rest.driverLive && b.rest.accepted == a.rest.accepted && a.steps <= b.steps
    ensures SameOperation(a.sched.active, b.sched.active) && (a.closed ==> b.closed)
    ensures b.sched.(active := a.sched.active) == React(a.sched, a.closed, b.closed, a.rest.now).(active := a.sched.active)
    ensures b.rest.now == a.rest.now && b.rest.winding == a.rest.winding && b.rest.helpings == a.rest.helpings
  {
    hide Accounted;
  }

  lemma DrainedNothing(a: Snap)
    ensures DrainedTo(a, a)
  {
    hide Accounted;
    AccountedNothing(a);
  }

  /** Flushing forwards nothing. */
  lemma FlushedIsDrained(a: Snap, b: Snap)
    requires a.steps <= b.steps && b.staged == a.staged && b.rest == a.rest && b.open == a.open
    requires (a.closed ==> b.closed) && b.sched == React(a.sched, a.closed, b.closed, a.rest.now)
    ensures DrainedTo(a, b)
  {
    hide Accounted;
    ReactIsFewer(a.sched, a.closed, b.closed, a.rest.now);
    CalmIsAccounted(a, b);
  }

  lemma ReactIsFewer(s: Sched, was: bool, noticed: bool, now: int)
    ensures Fewer(s, React(s, was, noticed, now))
  {
  }

  lemma ForwardedRest(a: Snap, b: Snap, c: Snap, agent: AgentEvent, room: bool)
    requires ReceivedOne(a, b, agent) && ForwardedOne(b, c, agent, room)
    ensures c.rest.raced == b.rest.raced && c.rest.driverEvents.Some?
    ensures c.rest.received == a.rest.received + [agent] && c.rest.driverSettled == a.rest.driverSettled
  {
  }

  lemma ArrivalsDrained(a: Snap, b: Snap, more: seq<AgentEvent>)
    requires a.rest.driverEvents.Some? && a.sched.active.Some? && MaySend(more, a.sched.active.value.operationId, a.rest.driverSettled)
    requires b == a.(rest := a.rest.(driverEvents := Some(a.rest.driverEvents.value + more), driverSettled := b.rest.driverSettled,
                                     driverQuota := b.rest.driverQuota))
    requires Left(b.rest) == Left(a.rest) && (a.rest.driverSettled ==> b.rest.driverSettled)
    ensures DrainedTo(a, b)
  {
    ArrivalsAccounted(a, b, more);
  }

  lemma ArrivalsAccounted(a: Snap, b: Snap, more: seq<AgentEvent>)
    requires a.rest.driverEvents.Some? && a.sched.active.Some? && MaySend(more, a.sched.active.value.operationId, a.rest.driverSettled)
    requires b == a.(rest := a.rest.(driverEvents := Some(a.rest.driverEvents.value + more), driverSettled := b.rest.driverSettled,
                                     driverQuota := b.rest.driverQuota))
    requires a.rest.driverSettled ==> b.rest.driverSettled
    ensures Accounted(a, b)
  {
    forall id | Stranded(a, id) ensures Stranded(b, id) {
      forall e | e in Waiting(b.rest) ensures !Reports(e, id) {
        assert e in Waiting(a.rest) || e in more;
      }
    }
  }

  /** An empty channel is let go. */
  lemma LetGoEmpty(a: Snap, b: Snap)
    requires Waiting(a.rest) == [] && b == a.(rest := a.rest.(driverEvents := None))
    ensures DrainedTo(a, b)
  {
    hide Accounted;
    CalmIsAccounted(a, b);
  }

  lemma ShutdownKeepsChannel(s: Sched, request: Shutdown.Request, channel: Option<seq<AgentEvent>>, live: bool,
                             settled: bool, open: map<OperationId, LedgerEntry>)
    requires ChannelOk(channel, s.starts, s.active, live, settled, open) && QueueOpen(s.queue, open)
    ensures ShutdownStep(s, request).starts == s.starts
    ensures ChannelOk(channel, s.starts, ShutdownStep(s, request).active, live, settled, open)
    ensures QueueOpen(ShutdownStep(s, request).queue, open)
  {
  }

  lemma LiveDriver(channel: Option<seq<AgentEvent>>, s: Sched, accepted: seq<OperationId>, live: bool, settled: bool,
                   open: map<OperationId, LedgerEntry>)
    requires SchedOk(s, accepted) && ChannelOk(channel, s.starts, s.active, live, settled, open)
    ensures live ==> channel.Some? && s.active.Some? && s.starts != [] && s.starts[|s.starts| - 1] == s.active.value.operationId
  {
  }

  /** What receiving an event from the channel changes. */
  predicate ReceivedOne(a: Snap, b: Snap, agent: AgentEvent) {
    && a.rest.driverEvents.Some? && a.rest.driverEvents.value != [] && agent == a.rest.driverEvents.value[0]
    && b == a.(rest := a.rest.(driverEvents := Some(a.rest.driverEvents.value[1..]),
                               received := a.rest.received + [agent],
                               raced := b.rest.raced))
    && (a.rest.raced ==> b.rest.raced)
  }

  lemma ForwardedIsAccounted(a: Snap, b: Snap, c: Snap, agent: AgentEvent, room: bool)
    requires ReceivedOne(a, b, agent) && ForwardedOne(b, c, agent, room)
    requires !room ==> b.rest.winding
    requires agent.AgentSettled? ==>
               && Settleable(agent.operationId, b.sched, b.rest.driverEvents, b.rest.driverSettled, b.open)
               && agent.operationId in b.rest.accepted
    ensures Accounted(a, c)
  {
    hide AnsweredIn, Noted, React, Stranded;
    NotedIsFewer(b.sched, agent, b.closed, c.closed, b.rest.now);
    forall id | Stranded(a, id) ensures Stranded(c, id) {
      StrandedPast(a, b, c, agent, room, id);
    }
    assert c.rest.received[|a.rest.received|..] == [agent];
    if agent.AgentSettled? {
      ForwardedAnswered(b, c, agent, room);
      if c.rest.abandoned != a.rest.abandoned {
        assert c.rest.abandoned[|a.rest.abandoned|..] == [agent];
        RefusedIsStranded(b, c, agent, room);
      }
    }
  }

  lemma NotedIsFewer(s: Sched, agent: AgentEvent, was: bool, noticed: bool, now: int)
    ensures Fewer(s, Noted(React(s, was, noticed, now), agent))
  {
  }

  lemma StrandedPast(a: Snap, b: Snap, c: Snap, agent: AgentEvent, room: bool, id: OperationId)
    requires ReceivedOne(a, b, agent) && ForwardedOne(b, c, agent, room) && Fewer(b.sched, c.sched) && Stranded(a, id)
    ensures Stranded(c, id)
  {
    hide Noted, React;
    assert a.rest.driverEvents.value == [agent] + c.rest.driverEvents.value;
    assert agent in Waiting(a.rest) && forall e :: e in Waiting(c.rest) ==> e in Waiting(a.rest);
  }

  lemma ForwardedAnswered(b: Snap, c: Snap, agent: AgentEvent, room: bool)
    requires ForwardedOne(b, c, agent, room) && agent.AgentSettled?
    ensures AnsweredIn(agent, c)
  {
    hide Noted, React;
    if !c.closed && c.staged != b.staged {
      assert c.staged[|b.staged|] in c.staged;
    }
  }

  lemma RefusedIsStranded(b: Snap, c: Snap, agent: AgentEvent, room: bool)
    requires ForwardedOne(b, c, agent, room) && agent.AgentSettled? && !c.closed && c.staged == b.staged
    requires !room ==> b.rest.winding
    requires Settleable(agent.operationId, b.sched, b.rest.driverEvents, b.rest.driverSettled, b.open)
    requires agent.operationId in b.rest.accepted && Fewer(b.sched, c.sched)
    ensures Stranded(c, agent.operationId)
  {
    hide Noted, React;
  }

  lemma ForwardedIsDrained(a: Snap, b: Snap, c: Snap, agent: AgentEvent, room: bool)
    requires ReceivedOne(a, b, agent) && ForwardedOne(b, c, agent, room)
    requires !room ==> b.rest.raced && b.rest.winding
    requires agent.AgentSettled? ==> a.sched.starts != [] && agent.operationId == a.sched.starts[|a.sched.starts| - 1]
    requires agent.AgentSettled? ==>
               && Settleable(agent.operationId, b.sched, b.rest.driverEvents, b.rest.driverSettled, b.open)
               && agent.operationId in b.rest.accepted
    ensures DrainedTo(a, c) && Left(c.rest) < Left(a.rest)
  {
    hide Accounted;
    ForwardedIsAccounted(a, b, c, agent, room);
    NotedForwarding(b.sched, agent, b.closed, c.closed, b.rest.now);
    assert c.rest.received[|a.rest.received|..] == [agent];
    if !c.rest.raced && !c.closed {
      assert c.staged[|a.staged|..] == [c.staged[|a.staged|]];
      assert c.rest.received[|a.rest.received|..] == [agent];
    }
    assert a.rest.driverEvents.value == [agent] + b.rest.driverEvents.value;
  }

  /** New arrivals keep the channel sound. */
  lemma ArrivalsOk(more: seq<AgentEvent>, channel: seq<AgentEvent>, starts: seq<OperationId>, active: Option<Active>,
                   settled: bool, open: map<OperationId, LedgerEntry>)
    requires active.Some? && MaySend(more, active.value.operationId, settled)
    requires starts != [] && starts[|starts| - 1] == active.value.operationId
    requires ChannelOk(Some(channel), starts, active, true, settled, open)
    ensures ChannelOk(Some(channel + more), starts, active, true, settled || !NoSettlement(more), open)
  {
    forall e | e in channel + more ensures Deliverable(e, starts[|starts| - 1], open) {
      if e in channel {
        assert Deliverable(e, starts[|starts| - 1], open);
      }
    }
    forall i, j | 0 <= i < j < |channel + more| ensures !((channel + more)[i].AgentSettled? && (channel + more)[j].AgentSettled?) {
      if i < |channel| <= j && more[j - |channel|].AgentSettled? {
        assert more[j - |channel|] in more && channel[i] in channel;
      }
    }
  }

  /** The front of a sound channel can be forwarded: a settlement belongs to an admitted,
      unsettled and no longer queued operation. */
  lemma ReceivedOk(channel: seq<AgentEvent>, s: Sched, accepted: seq<OperationId>, live: bool, settled: bool,
                   open: map<OperationId, LedgerEntry>)
    requires channel != [] && SchedOk(s, accepted) && ChannelOk(Some(channel), s.starts, s.active, live, settled, open)
    ensures ChannelOk(Some(channel[1..]), s.starts, s.active, live, settled, open)
    ensures !IsTransientAgent(channel[0])
    ensures channel[0].AgentSettled? ==> s.starts != [] && channel[0].operationId == s.starts[|s.starts| - 1]
    ensures channel[0].AgentSettled? ==> Settleable(channel[0].operationId, s, Some(channel[1..]), settled, open)
  {
    var e := channel[0];
    assert e in channel;
    assert Deliverable(e, s.starts[|s.starts| - 1], open);
    forall x | x in channel[1..] ensures Deliverable(x, s.starts[|s.starts| - 1], open) {
      assert x in channel;
    }
    assert NoSettlement(channel) ==> NoSettlement(channel[1..]);
    if e.AgentSettled? {
      var all := s.starts + QueueIds(s.queue);
      forall q | q in s.queue ensures q.operationId != e.operationId {
        var i :| 0 <= i < |s.queue| && s.queue[i] == q;
        assert all[|s.starts| - 1] == e.operationId && all[|s.starts| + i] == q.operationId;
      }
      forall x | x in channel[1..] ensures !x.AgentSettled? {
        var i :| 0 <= i < |channel[1..]| && channel[1..][i] == x;
        assert channel[i + 1] == x;
      }
    }
  }

  lemma SettleableAfterReact(id: OperationId, s: Sched, was: bool, noticed: bool, now: int,
                             channel: Option<seq<AgentEvent>>, settled: bool, open: map<OperationId, LedgerEntry>)
    requires Settleable(id, s, channel, settled, open)
    ensures Settleable(id, React(s, was, noticed, now), channel, settled, open)
  {
  }

  /** Taking notes on the active operation does not disturb the schedule, and it does not matter
      whether a closed sink is noticed before or after. */
  lemma NotedForwarding(s: Sched, agent: AgentEvent, was: bool, noticed: bool, now: int)
    ensures Forwarding(s, Noted(React(s, was, noticed, now), agent), was, noticed, now)
    ensures React(Noted(s, agent), was, noticed, now) == Noted(React(s, was, noticed, now), agent)
  {
  }

  /** Only the start of an operation or of a model call is noted. */
  lemma UnnotedEvents(s: Sched, agent: AgentEvent, was: bool, noticed: bool, now: int)
    ensures !agent.ModelCallStarted? && !agent.OperationStarted? ==>
              Noted(React(s, was, noticed, now), agent) == React(s, was, noticed, now)
  {
  }

  lemma SettledIsForwarded(a: Snap, b: Snap, agent: AgentEvent, session: SessionId, published: bool, room: bool)
    requires agent.AgentSettled? && Some(session) == SessionFor(a, agent.operationId)
    requires a.steps <= b.steps && (a.closed ==> b.closed)
    requires b.sched == React(a.sched, a.closed, b.closed, a.rest.now)
    requires b.rest == a.rest.(lastSettled := b.rest.lastSettled, abandoned := b.rest.abandoned)
    requires b.rest.abandoned == a.rest.abandoned + if published || b.closed then [] else [agent]
    requires published ==> !b.closed
    requires published ==>
               b.staged == a.staged + [OperationSettled(agent.operationId, session, agent.status, agent.durability, agent.revision)]
    requires !published ==> b.staged == a.staged && (room ==> b.closed)
    requires b.open == if published then a.open - {agent.operationId} else a.open
    ensures ForwardedOne(a, b, agent, room)
  {
  }

  function EntryOf(next: Queued): LedgerEntry {
    LedgerEntry(next.operationId, next.turnId, next.sessionId)
  }

  /** A driver that has just started. */
  predicate FreshChannel(rest: Rest) { rest.driverEvents == Some([]) && rest.driverLive && !rest.driverSettled }

  /** One operation admitted: entered, announced, and started or queued. */
  ghost predicate AdmittedTo(a: Snap, b: Snap, next: Queued) {
    && a.steps <= b.steps && b.closed == a.closed
    && b.sched == (if IsIdle(a.sched) then Spawned(a.sched, next) else a.sched.(queue := a.sched.queue + [next]))
    && b.staged == a.staged + [OperationAccepted(next.operationId, next.sessionId, next.turnId)]
                   + (if IsIdle(a.sched) then [] else [Agent(OperationQueued(next.operationId))])
    && b.rest.accepted == a.rest.accepted + [next.operationId]
    && b.rest.lost == a.rest.lost && b.rest.raced == a.rest.raced && b.rest.received == a.rest.received
    && b.rest.now == a.rest.now && b.rest.winding == a.rest.winding
    && b.rest.helpings == a.rest.helpings
    && b.rest.abandoned == a.rest.abandoned + (if IsIdle(a.sched) then Waiting(a.rest) else [])
    && (if IsIdle(a.sched) then FreshChannel(b.rest)
        else b.rest.driverEvents == a.rest.driverEvents && b.rest.driverLive == a.rest.driverLive
             && b.rest.driverSettled == a.rest.driverSettled)
    && b.open == a.open[next.operationId := EntryOf(next)]
  }

  /** A fresh operation entered into the ledger. */
  ghost predicate InsertedTo(a: Snap, b: Snap, entry: LedgerEntry) {
    && a.steps <= b.steps
    && b == a.(rest := a.rest.(accepted := a.rest.accepted + [entry.operationId]), steps := b.steps,
               open := a.open[entry.operationId := entry])
  }

  /** A fresh operation announced and started or queued. */
  ghost predicate AnnouncedTo(b: Snap, c: Snap, next: Queued) {
    && b.steps <= c.steps && c.closed == b.closed && c.open == b.open
    && c.sched == (if IsIdle(b.sched) then Spawned(b.sched, next) else b.sched.(queue := b.sched.queue + [next]))
    && c.staged == b.staged + [OperationAccepted(next.operationId, next.sessionId, next.turnId)]
                   + (if IsIdle(b.sched) then [] else [Agent(OperationQueued(next.operationId))])
    && (if IsIdle(b.sched)
        then c.rest == b.rest.(driverEvents := Some([]), driverLive := true, driverSettled := false,
                               driverQuota := c.rest.driverQuota, abandoned := b.rest.abandoned + Waiting(b.rest))
        else c.rest == b.rest)
  }

  lemma AnnouncedIsAdmitted(a: Snap, b: Snap, c: Snap, next: Queued)
    requires InsertedTo(a, b, EntryOf(next)) && AnnouncedTo(b, c, next)
    ensures AdmittedTo(a, c, next)
  {
  }

  lemma SpawnOrEnqueueOk(s: Sched, next: Queued, accepted: seq<OperationId>)
    requires SchedOk(s, accepted) && s.level.state.Running? && next.operationId !in accepted
    ensures if IsIdle(s) then SchedOk(Spawned(s, next), accepted + [next.operationId])
            else SchedOk(s.(queue := s.queue + [next]), accepted + [next.operationId])
  {
    if IsIdle(s) {
      SpawnKeepsOk(s, next, accepted);
    } else {
      EnqueueKeepsOk(s, next, accepted);
    }
  }

  lemma InsertKeepsChannel(channel: Option<seq<AgentEvent>>, s: Sched, live: bool, settled: bool,
                           open: map<OperationId, LedgerEntry>, entry: LedgerEntry)
    requires ChannelOk(channel, s.starts, s.active, live, settled, open) && QueueOpen(s.queue, open)
    ensures ChannelOk(channel, s.starts, s.active, live, settled, open[entry.operationId := entry])
    ensures QueueOpen(s.queue, open[entry.operationId := entry])
  {
    if channel.Some? {
      forall e | e in channel.value ensures Deliverable(e, s.starts[|s.starts| - 1], open[entry.operationId := entry]) {
        assert Deliverable(e, s.starts[|s.starts| - 1], open);
      }
    }
  }

  lemma SettledIsOpen(id: OperationId, s: Sched, channel: Option<seq<AgentEvent>>, settled: bool,
                      open: map<OperationId, LedgerEntry>)
    requires Settleable(id, s, channel, settled, open)
    ensures id in open
  {
  }

  /** The answer to a cancel request. Only recent settlements are remembered as such. */
  function CancelAnswer(s: Sched, settled: seq<OperationId>, id: OperationId, tooLate: bool, room: bool): CancelResult {
    if id in settled then AlreadySettled
    else if PositionOf(s.queue, id) >= 0 then (if room then QueuedCancelled else CancelBackpressured)
    else if s.active.Some? && s.active.value.operationId == id then (if tooLate then TooLate else Requested)
    else UnknownOperation
  }

  function Without(queue: seq<Queued>, i: nat): seq<Queued>
    requires i < |queue|
  {
    queue[..i] + queue[i + 1..]
  }

  /** A queued operation cancelled: out of the queue, announced and settled, unless the sink
      turned out to be closed. */
  ghost predicate CancelledTo(a: Snap, b: Snap, i: nat)
    requires i < |a.sched.queue|
  {
    var q := a.sched.queue[i];
    && a.steps <= b.steps && (a.closed ==> b.closed)
    && b.sched == React(a.sched.(queue := Without(a.sched.queue, i)), a.closed, b.closed, a.rest.now)
    && b.rest == a.rest.(lastSettled := b.rest.lastSettled)
    && b.staged == a.staged + (if b.closed then [] else
         [Agent(CancellationRequested(q.operationId, User)),
          OperationSettled(q.operationId, q.sessionId, Cancelled, Confirmed, Unchanged)])
    && b.open == (if b.closed then a.open else a.open - {q.operationId})
  }

  lemma SettledIsCancelled(a: Snap, b: Snap, i: nat, published: bool)
    requires i < |a.sched.queue|
    requires a.steps <= b.steps && (a.closed ==> b.closed) && published == !b.closed
    requires b.sched == React(a.sched.(queue := Without(a.sched.queue, i)), a.closed, b.closed, a.rest.now)
    requires b.rest == a.rest.(lastSettled := b.rest.lastSettled)
    requires published ==>
               b.staged == (a.staged + [Agent(CancellationRequested(a.sched.queue[i].operationId, User))])
                           + [OperationSettled(a.sched.queue[i].operationId, a.sched.queue[i].sessionId, Cancelled, Confirmed, Unchanged)]
    requires !published ==> b.staged == a.staged
    requires b.open == if published then a.open - {a.sched.queue[i].operationId} else a.open
    ensures CancelledTo(a, b, i)
  {
  }

  /** The active operation is let go. */
  predicate LetGo(a: Snap, b: Snap) {
    && b.sched == a.sched.(active := None, driverJoin := false)
    && b.rest == a.rest.(driverEvents := Leftover(a.rest.driverEvents))
    && b.steps == a.steps && b.staged == a.staged && b.closed == a.closed && b.open == a.open
  }

  /** A finished channel is kept only for what is still in it. */
  function Leftover(channel: Option<seq<AgentEvent>>): Option<seq<AgentEvent>> {
    if channel.Some? && channel.value != [] then channel else None
  }

  lemma NothingSettled(a: Snap, b: Snap, exit: DriverExit, committed: bool, room: bool)
    requires LetGo(a, b) && a.sched.active.Some?
    requires a.sched.active.value.operationId !in a.open || committed
    ensures JoinedTo(a, b, exit, committed, room)
  {
  }

  function JoinSettlement(x: Active, exit: DriverExit): Event {
    OperationSettled(x.operationId, x.sessionId, JoinedStatus(exit), JoinedDurability(exit), Unchanged)
  }

  /** An operation settled by its driver's exit, if there is room, and a fault reported after it. */
  ghost predicate ReportedTo(b: Snap, d: Snap, x: Active, exit: DriverExit, room: bool) {
    var settles := !b.closed && room;
    var base := b.staged + [JoinSettlement(x, exit)];
    && b.steps <= d.steps && (b.closed ==> d.closed)
    && d.sched == React(b.sched, b.closed, d.closed, b.rest.now)
    && d.open == (if settles then b.open - {x.operationId} else b.open)
    && d.rest == b.rest.(lost := d.rest.lost, lastSettled := d.rest.lastSettled)
    && (!settles ==> d.staged == b.staged && d.rest.lost == b.rest.lost && d.closed == b.closed)
    && (settles && !Faulty(exit) ==> d.staged == base && d.rest.lost == b.rest.lost && !d.closed)
    && (settles && Faulty(exit) ==>
          || (d.closed && d.staged == base && d.rest.lost == b.rest.lost)
          || (!d.closed && d.staged == base + [FAULT] && d.rest.lost == b.rest.lost)
          || (!d.closed && d.staged == base && d.rest.lost == b.rest.lost + [FAULT]))
  }

  lemma SettledIsReported(b: Snap, c: Snap, d: Snap, x: Active, exit: DriverExit, room: bool, published: bool)
    requires published == (!b.closed && room) && b.steps <= c.steps
    requires c == b.(rest := b.rest.(lastSettled := c.rest.lastSettled), steps := c.steps, staged := c.staged, open := c.open)
    requires c.staged == if published then b.staged + [JoinSettlement(x, exit)] else b.staged
    requires c.open == if published then b.open - {x.operationId} else b.open
    requires !(published && Faulty(exit)) ==> d == c
    requires published && Faulty(exit) ==>
      && c.steps <= d.steps && d.sched == React(c.sched, c.closed, d.closed, c.rest.now) && d.open == c.open
      && d.rest == c.rest.(lost := d.rest.lost)
      && (d.closed ==> d.staged == c.staged && d.rest.lost == c.rest.lost)
      && (!d.closed ==>
            || (d.staged == c.staged + [FAULT] && d.rest.lost == c.rest.lost)
            || (d.staged == c.staged && d.rest.lost == c.rest.lost + [FAULT]))
    ensures ReportedTo(b, d, x, exit, room)
  {
  }

  lemma SettledIsJoined(a: Snap, b: Snap, d: Snap, exit: DriverExit, room: bool)
    requires LetGo(a, b) && a.sched.active.Some? && a.sched.active.value.operationId in a.open
    requires ReportedTo(b, d, a.sched.active.value, exit, room)
    ensures JoinedTo(a, d, exit, false, room)
  {
  }

  lemma NewActiveChannel(starts: seq<OperationId>, next: Queued, open: map<OperationId, LedgerEntry>)
    requires next.operationId in open
    ensures ChannelOk(None, starts, Some(Active(next.operationId, next.turnId, next.sessionId, None, None, false)), false, false, open)
  {
  }

  lemma QueuedSettleable(s: Sched, accepted: seq<OperationId>, i: nat, channel: Option<seq<AgentEvent>>, live: bool,
                         settled: bool, open: map<OperationId, LedgerEntry>)
    requires SchedOk(s, accepted) && i < |s.queue| && QueueOpen(s.queue, open)
    requires ChannelOk(channel, s.starts, s.active, live, settled, open)
    ensures SchedOk(s.(queue := Without(s.queue, i)), accepted)
    ensures QueueOpen(Without(s.queue, i), open)
    ensures Settleable(s.queue[i].operationId, s.(queue := Without(s.queue, i)), channel, settled, open)
  {
    DequeueKeepsOk(s, i, accepted);
    var id, rest := s.queue[i].operationId, Without(s.queue, i);
    assert s.queue[i] in s.queue;
    forall q | q in rest ensures q.operationId != id {
      var j :| 0 <= j < |rest| && rest[j] == q;
      assert QueueIds(rest)[j] == q.operationId;
    }
    if channel.Some? {
      var all := s.starts + QueueIds(s.queue);
      assert all[|s.starts| - 1] == s.starts[|s.starts| - 1] && all[|s.starts| + i] == id;
      forall e | e in channel.value ensures !(e.AgentSettled? && e.operationId == id) {
        assert Deliverable(e, s.starts[|s.starts| - 1], open);
      }
    }
  }

  predicate Faulty(exit: DriverExit) {
    exit.Panicked? || exit.Aborted?
  }

  /** The driver of the active operation joined. Its operation is settled by the exit unless
      it is settled already, has committed its own settlement, or finds no room; a fault is
      reported after it if there is room. */
  ghost predicate JoinedTo(a: Snap, b: Snap, exit: DriverExit, committed: bool, room: bool)
    requires a.sched.active.Some?
  {
    var x := a.sched.active.value;
    var settles := x.operationId in a.open && !committed && !a.closed && room;
    var base := a.staged + [JoinSettlement(x, exit)];
    && a.steps <= b.steps && (a.closed ==> b.closed)
    && b.sched == React(a.sched.(active := None, driverJoin := false), a.closed, b.closed, a.rest.now)
    && b.open == (if settles then a.open - {x.operationId} else a.open)
    && b.rest == a.rest.(lost := b.rest.lost, lastSettled := b.rest.lastSettled, driverEvents := Leftover(a.rest.driverEvents))
    && (!settles ==> b.staged == a.staged && b.rest.lost == a.rest.lost && b.closed == a.closed)
    && (settles && !Faulty(exit) ==> b.staged == base && b.rest.lost == a.rest.lost && !b.closed)
    && (settles && Faulty(exit) ==>
          || (b.closed && b.staged == base && b.rest.lost == a.rest.lost)
          || (!b.closed && b.staged == base + [FAULT] && b.rest.lost == a.rest.lost)
          || (!b.closed && b.staged == base && b.rest.lost == a.rest.lost + [FAULT]))
  }

  lemma JoinedSettleable(s: Sched, accepted: seq<OperationId>, channel: Option<seq<AgentEvent>>, settled: bool,
                         open: map<OperationId, LedgerEntry>)
    requires SchedOk(s, accepted) && s.active.Some? && (channel.None? || channel.value == [])
    requires s.active.value.operationId in open
    ensures Settleable(s.active.value.operationId, s.(active := None, driverJoin := false), None, settled, open)
  {
    var all := s.starts + QueueIds(s.queue);
    forall q | q in s.queue ensures q.operationId != s.active.value.operationId {
      var i :| 0 <= i < |s.queue| && s.queue[i] == q;
      assert all[|s.starts| - 1] == s.active.value.operationId && all[|s.starts| + i] == q.operationId;
    }
  }

  // ---- whole runs ----

  /** A control message; `tooLate` says whether the active operation is already finalizing. */
  datatype Control = Cancel(id: OperationId, tooLate: bool) | CancelCompaction(task: MaintenanceId)
  datatype Command = Submission(next: Queued) | CompactionRequest(id: MaintenanceId, session: SessionId)

  /** What one wait of the coordinator woke up for; `None` is a lane whose senders are gone. */
  datatype Lane =
    | SinkLane
    | ShutdownLane(request: Shutdown.Request)
    | ControlLane(control: Option<Control>)
    | CommandLane(command: Option<Command>)
    | DriverLane
    | DriverJoinLane(driverExit: DriverExit, committed: bool)
    | MaintenanceJoinLane(maintenanceExit: MaintenanceExit)
    | OutletLane
    | TransientLane
    | TimeoutLane
    | DeadlineLane

  /** Either finished children were found and the waiting messages handled after them, or one
      lane was awaited. */
  datatype Input = Reap(join: Lane, waiting: seq<Lane>) | Wait(lane: Lane, budget: nat)

  /** What every stretch of a run keeps: histories only grow, shutdown only climbs, and
      nothing is accepted or started once it has left Running. */
  ghost predicate Grows(a: Snap, b: Snap) {
    && a.steps <= b.steps && a.staged <= b.staged && a.rest.lost <= b.rest.lost
    && a.rest.received <= b.rest.received && a.rest.accepted <= b.rest.accepted
    && a.sched.starts <= b.sched.starts && a.rest.now <= b.rest.now
    && (a.closed ==> b.closed) && (a.rest.raced ==> b.rest.raced) && b.rest.winding == a.rest.winding
    && Shutdown.AtLeast(b.sched.level, a.sched.level)
    && (!a.sched.level.state.Running? ==> b.sched.starts == a.sched.starts && b.rest.accepted == a.rest.accepted)
    && b.rest.helpings == a.rest.helpings
  }

  /** And whatever drivers report is accounted for. */
  ghost predicate Progress(a: Snap, b: Snap) {
    Grows(a, b) && Accounted(a, b)
  }

  lemma ProgressTrans(a: Snap, b: Snap, c: Snap)
    requires Progress(a, b) && Progress(b, c)
    ensures Progress(a, c)
  {
    hide Accounted;
    AccountedTrans(a, b, c);
  }

  lemma ProgressNothing(a: Snap)
    ensures Progress(a, a)
  {
    hide Accounted;
    AccountedNothing(a);
  }

  lemma DrainedIsProgress(a: Snap, b: Snap)
    requires DrainedTo(a, b)
    ensures Progress(a, b)
  {
    hide Accounted;
  }

  /** Nothing moved but the schedule, at most by a shutdown request. */
  lemma QuietIsProgress(a: Snap, b: Snap)
    requires a.steps <= b.steps && a.staged <= b.staged && a.rest.lost <= b.rest.lost && (a.closed ==> b.closed)
    requires b.rest.received == a.rest.received && b.rest.accepted == a.rest.accepted && b.rest.raced == a.rest.raced
    requires a.rest.now <= b.rest.now && b.rest.winding == a.rest.winding && b.rest.helpings == a.rest.helpings
    requires b.sched.starts == a.sched.starts && Shutdown.AtLeast(b.sched.level, a.sched.level)
    requires Calm(a, b)
    ensures Progress(a, b)
  {
    hide Accounted;
    CalmIsAccounted(a, b);
  }

  lemma ShutdownClimbs(s: Sched, request: Shutdown.Request)
    ensures Shutdown.AtLeast(ShutdownStep(s, request).level, s.level) && ShutdownStep(s, request).starts == s.starts
    ensures Fewer(s, ShutdownStep(s, request))
  {
  }

  lemma ReactClimbs(s: Sched, was: bool, noticed: bool, now: int)
    ensures Shutdown.AtLeast(React(s, was, noticed, now).level, s.level) && React(s, was, noticed, now).starts == s.starts
    ensures Fewer(s, React(s, was, noticed, now))
  {
  }

  /** The winding up of the epoch has begun. */
  function Winding(a: Snap): Snap {
    a.(rest := a.rest.(winding := true))
  }

  lemma WindingGrows(a: Snap, b: Snap)
    requires Grows(a, b)
    ensures Grows(Winding(a), Winding(b))
  {
  }

  lemma WindingIsAccounted(a: Snap)
    ensures Accounted(a, Winding(a))
  {
    CalmIsAccounted(a, Winding(a));
  }

  /** A stretch of a run in which the epoch was wound up. */
  ghost predicate Finished(a: Snap, b: Snap) {
    Grows(Winding(a), b) && Accounted(a, b)
  }

  lemma WoundUp(a: Snap, b: Snap)
    requires Progress(Winding(a), b)
    ensures Finished(a, b)
  {
    hide Accounted;
    WindingIsAccounted(a);
    AccountedTrans(a, Winding(a), b);
  }

  lemma FinishedTrans(a: Snap, b: Snap, c: Snap)
    requires Progress(a, b) && Finished(b, c)
    ensures Finished(a, c)
  {
    hide Accounted;
    WindingGrows(a, b);
    AccountedTrans(a, b, c);
  }

  predicate SameTask(x: Option<Maintenance>, y: Option<Maintenance>) {
    && x.Some? == y.Some?
    && (x.Some? ==> x.value.id == y.value.id && x.value.sessionId == y.value.sessionId)
  }

  /** Progress that also leaves the maintenance task where it is. */
  ghost predicate WindsDown(a: Snap, b: Snap) {
    Progress(a, b) && SameTask(a.sched.maintenance, b.sched.maintenance)
  }

  lemma WindsTrans(a: Snap, b: Snap, c: Snap)
    requires WindsDown(a, b) && WindsDown(b, c)
    ensures WindsDown(a, c)
  {
    ProgressTrans(a, b, c);
  }

  /** Only shared writes were made. */
  lemma StepsWind(a: Snap, b: Snap)
    requires b == a.(steps := b.steps) && a.steps <= b.steps
    ensures WindsDown(a, b)
  {
    hide Accounted;
    CalmIsAccounted(a, b);
  }

  lemma AbortWinds(a: Snap)
    ensures WindsDown(Winding(a), Winding(a).(sched := AbortChildren(a.sched)))
  {
    hide Accounted;
    CalmIsAccounted(Winding(a), Winding(a).(sched := AbortChildren(a.sched)));
  }

  lemma WindsNothing(a: Snap)
    ensures WindsDown(a, a)
  {
    hide Accounted;
    AccountedNothing(a);
  }

  lemma StillRunning(a: Snap, b: Snap)
    requires Progress(a, b)
    ensures b.rest.winding == a.rest.winding
  {
    hide Accounted;
  }

  lemma DrainedWinds(a: Snap, b: Snap)
    requires DrainedTo(a, b)
    ensures WindsDown(a, b)
  {
    hide Accounted;
  }

  lemma QuietWinds(a: Snap, b: Snap)
    requires Progress(a, b) && SameTask(a.sched.maintenance, b.sched.maintenance)
    ensures WindsDown(a, b)
  {
  }

  lemma ReactKeepsTask(s: Sched, was: bool, noticed: bool, now: int)
    ensures SameTask(s.maintenance, React(s, was, noticed, now).maintenance)
  {
  }

  /** What waits in the channel is open and accepted. */
  ghost predicate ChannelOpen(a: Snap) {
    forall e :: e in Waiting(a.rest) && e.AgentSettled? ==> e.operationId in a.open && e.operationId in a.rest.accepted
  }

  /** An idle admission strands exactly what is still unsettled, also an operation whose settlement
      was waiting in the channel that is let go. */
  lemma IdleAdmissionStrands(a: Snap, b: Snap, next: Queued, id: OperationId)
    requires AdmittedTo(a, b, next) && IsIdle(a.sched) && next.operationId !in a.rest.accepted && id in a.rest.accepted
    ensures Stranded(b, id) <==> id in a.open
  {
  }

  lemma AdmittedIsProgress(a: Snap, b: Snap, next: Queued)
    requires AdmittedTo(a, b, next) && a.sched.level.state.Running?
    requires next.operationId !in a.rest.accepted && ChannelOpen(a)
    ensures Progress(a, b)
  {
    hide Accounted;
    AdmittedIsAccounted(a, b, next);
  }

  lemma AdmittedIsAccounted(a: Snap, b: Snap, next: Queued)
    requires AdmittedTo(a, b, next) && next.operationId !in a.rest.accepted && ChannelOpen(a)
    ensures Accounted(a, b)
  {
    if IsIdle(a.sched) {
      forall id | id in a.rest.accepted ensures Stranded(b, id) <==> id in a.open {
        IdleAdmissionStrands(a, b, next, id);
      }
      assert b.rest.abandoned[|a.rest.abandoned|..] == Waiting(a.rest);
    } else {
      assert b.rest.abandoned[|a.rest.abandoned|..] == [];
    }
    assert b.rest.received[|a.rest.received|..] == [];
  }

  lemma CancelledIsProgress(a: Snap, b: Snap, i: nat)
    requires i < |a.sched.queue| && CancelledTo(a, b, i)
    ensures Progress(a, b)
  {
    hide Accounted;
    ReactClimbs(a.sched.(queue := Without(a.sched.queue, i)), a.closed, b.closed, a.rest.now);
    CancelledIsAccounted(a, b, i);
  }

  lemma CancelledIsAccounted(a: Snap, b: Snap, i: nat)
    requires i < |a.sched.queue| && CancelledTo(a, b, i)
    ensures Accounted(a, b)
  {
    hide React;
    ReactClimbs(a.sched.(queue := Without(a.sched.queue, i)), a.closed, b.closed, a.rest.now);
    assert a.sched.queue[i] in a.sched.queue;
    assert b.rest.abandoned[|a.rest.abandoned|..] == [] && b.rest.received[|a.rest.received|..] == [];
  }

  lemma JoinedIsProgress(a: Snap, b: Snap, exit: DriverExit, committed: bool, room: bool)
    requires a.sched.active.Some? && JoinedTo(a, b, exit, committed, room) && !a.rest.winding
    ensures Progress(a, b)
  {
    hide Accounted;
    ReactClimbs(a.sched.(active := None, driverJoin := false), a.closed, b.closed, a.rest.now);
    JoinedIsAccounted(a, b, exit, committed, room);
  }

  lemma JoinedIsAccounted(a: Snap, b: Snap, exit: DriverExit, committed: bool, room: bool)
    requires a.sched.active.Some? && JoinedTo(a, b, exit, committed, room) && !a.rest.winding
    ensures Accounted(a, b)
  {
    hide React;
    ReactClimbs(a.sched.(active := None, driverJoin := false), a.closed, b.closed, a.rest.now);
    assert b.rest.abandoned[|a.rest.abandoned|..] == [] && b.rest.received[|a.rest.received|..] == [];
  }

  /** The request behind a lane whose senders are gone. */
  function ForcedNow(now: int): Shutdown.Request {
    Shutdown.Request(Shutdown.ForcedMode, now + DEFAULT_SHUTDOWN_TICKS)
  }

  /** What a control message does. */
  ghost predicate ControlTo(a: Snap, b: Snap, control: Option<Control>, room: bool) {
    match control
    case None => b == a.(sched := ShutdownStep(a.sched, ForcedNow(a.rest.now)))
    case Some(Cancel(id, tooLate)) =>
      (match CancelAnswer(a.sched, a.rest.lastSettled, id, tooLate, room)
       case QueuedCancelled => PositionOf(a.sched.queue, id) >= 0 && CancelledTo(a, b, PositionOf(a.sched.queue, id))
       case Requested => b == a.(sched := a.sched.(active := CancelActive(a.sched.active, User)))
       case _ => b == a)
    case Some(CancelCompaction(task)) =>
      b == a.(sched := a.sched.(maintenance :=
        if a.sched.maintenance.Some? && a.sched.maintenance.value.id == task
        then Some(a.sched.maintenance.value.(cancelRequested := true)) else a.sched.maintenance))
  }

  /** The answer to a submission. */
  function SubmitAnswer(a: Snap, room: bool, queueMax: nat, unsettled: nat, ledgerCap: nat): AdmitResult {
    if !a.sched.level.state.Running? then ShuttingDown
    else if a.closed || !room then AdmitResult.Backpressured
    else AdmissionResult(a.sched, queueMax, unsettled, ledgerCap)
  }

  /** What a command does; `answer` is the answer to a submission. */
  ghost predicate CommandTo(a: Snap, b: Snap, command: Option<Command>, room: bool, answer: AdmitResult) {
    match command
    case None => b == if a.sched.level.state.Running? then a.(sched := ShutdownStep(a.sched, ForcedNow(a.rest.now))) else a
    case Some(Submission(next)) =>
      if next.operationId !in a.rest.accepted && answer.Admitted? then AdmittedTo(a, b, next) else b == a
    case Some(CompactionRequest(id, session)) =>
      && a.steps <= b.steps
      && b == (if a.sched.level.state.Running? && !a.closed && room && IsIdle(a.sched)
               then a.(sched := a.sched.(maintenance := Some(Maintenance(id, session, false)), maintenanceJoin := true),
                       staged := a.staged + [MaintenanceAccepted(id, session), MaintenanceStarted(id)], steps := b.steps)
               else a.(steps := b.steps))
  }

  /** The driver task is over: it sends nothing more. */
  function Ended(a: Snap): Snap {
    a.(rest := a.rest.(driverLive := false))
  }

  lemma EndedIsAccounted(a: Snap)
    ensures Accounted(a, Ended(a)) && Accounted(Ended(a), a)
  {
    CalmIsAccounted(a, Ended(a));
    CalmIsAccounted(Ended(a), a);
  }

  lemma EndedDrained(a: Snap, b: Snap)
    requires DrainedTo(a, b)
    ensures DrainedTo(Ended(a), Ended(b))
  {
    hide Accounted;
    EndedIsAccounted(a);
    EndedIsAccounted(b);
    AccountedTrans(Ended(a), a, b);
    AccountedTrans(Ended(a), b, Ended(b));
  }

  lemma EndedProgress(a: Snap, b: Snap)
    requires DrainedTo(Ended(a), b)
    ensures Progress(a, b) && b.rest.winding == a.rest.winding
  {
    hide Accounted;
    EndedIsAccounted(a);
    AccountedTrans(a, Ended(a), b);
  }

  /** The next operation started, if one could. */
  ghost predicate StartedTo(a: Snap, b: Snap) {
    && b.sched == StartedNext(a.sched, a.rest.driverEvents.Some?)
    && b.steps == a.steps && b.staged == a.staged && b.closed == a.closed && b.open == a.open
    && b.rest == (if b.sched == a.sched then a.rest
                  else a.rest.(driverEvents := Some([]), driverLive := true, driverSettled := false, driverQuota := b.rest.driverQuota))
  }

  lemma NoStart(s: Sched, channelOpen: bool)
    ensures StartedNext(s, channelOpen) == s <==>
              !s.level.state.Running? || s.active.Some? || s.maintenance.Some? || channelOpen || s.driverJoin || s.queue == []
  {
  }

  lemma NothingStarted(a: Snap)
    ensures StartedNext(a.sched, a.rest.driverEvents.Some?) == a.sched ==> StartedTo(a, a)
  {
  }

  lemma FrontStarted(a: Snap, b: Snap)
    requires b.sched == StartedNext(a.sched, a.rest.driverEvents.Some?) && b.sched != a.sched
    requires b == a.(sched := b.sched, rest := a.rest.(driverEvents := Some([]), driverLive := true, driverSettled := false,
                                                       driverQuota := b.rest.driverQuota))
    ensures StartedTo(a, b)
  {
  }

  lemma AfterJoin(d: Snap, j: Snap, f: Snap, exit: DriverExit, committed: bool, room: bool)
    requires d.sched.active.Some? && JoinedTo(d, j, exit, committed, room) && StartedTo(j, f)
    ensures f.rest.received == d.rest.received && f.rest.lost == j.rest.lost
  {
  }

  /** Afterwards nothing is left that could start. */
  lemma NothingToStart(a: Snap, b: Snap, c: Snap)
    requires StartedTo(a, b) && c.rest.driverEvents == b.rest.driverEvents && c.sched == React(b.sched, b.closed, c.closed, b.rest.now)
    ensures StartedNext(c.sched, c.rest.driverEvents.Some?) == c.sched
  {
  }

  /** Everything let go at the end of the epoch. */
  function Released(s: Sched): Sched {
    s.(active := None, maintenance := None, queue := [], driverJoin := false, maintenanceJoin := false)
  }

  lemma ReleasedOk(s: Sched, accepted: seq<OperationId>, settled: bool, open: map<OperationId, LedgerEntry>)
    requires SchedOk(s, accepted)
    ensures SchedOk(Released(s), accepted) && QueueOpen([], open)
    ensures ChannelOk(None, s.starts, None, false, settled, open)
  {
    var all := s.starts + QueueIds(s.queue);
    SubsequenceTake(all, accepted, |s.starts|);
    assert all[..|s.starts|] == s.starts == s.starts + QueueIds([]);
  }

  /** The channel is let go with everything else; what it still held is abandoned. */
  lemma ReleasedIsProgress(a: Snap, b: Snap)
    requires ChannelOpen(a)
    requires b == a.(sched := Released(a.sched),
                     rest := a.rest.(driverEvents := None, driverLive := false, abandoned := a.rest.abandoned + Waiting(a.rest)))
    ensures Progress(a, b)
  {
    assert b.rest.abandoned[|a.rest.abandoned|..] == Waiting(a.rest) && b.rest.received[|a.rest.received|..] == [];
  }

  lemma StartedIsProgress(a: Snap, b: Snap)
    requires StartedTo(a, b)
    ensures Progress(a, b)
  {
    hide Accounted;
    StartedIsAccounted(a, b);
  }

  lemma StartedIsAccounted(a: Snap, b: Snap)
    requires StartedTo(a, b)
    ensures Accounted(a, b)
  {
    if b.sched == a.sched {
      AccountedNothing(a);
    } else {
      assert a.sched.queue[0] in a.sched.queue && forall q :: q in b.sched.queue ==> q in a.sched.queue;
      assert b.rest.abandoned[|a.rest.abandoned|..] == [] && b.rest.received[|a.rest.received|..] == [];
    }
  }

  /** The maintenance task ended: its settlement is staged, unless the consumer is gone. */
  ghost predicate MaintenanceEnded(a: Snap, b: Snap, exit: MaintenanceExit)
    requires a.sched.maintenance.Some?
  {
    var task := a.sched.maintenance.value;
    && a.steps <= b.steps && (a.closed ==> b.closed)
    && b.sched == React(a.sched.(maintenance := None, maintenanceJoin := false), a.closed, b.closed, a.rest.now)
    && b.rest == a.rest && b.open == a.open
    && b.staged == a.staged + (if b.closed then [] else
                     [MaintenanceSettled(task.id, task.sessionId, MaintenanceOutcome(exit, task.cancelRequested))])
  }

  lemma MaintenanceIsProgress(a: Snap, b: Snap, exit: MaintenanceExit)
    requires a.sched.maintenance.Some? && MaintenanceEnded(a, b, exit)
    ensures Progress(a, b)
  {
    hide Accounted;
    CalmIsAccounted(a, b);
    ReactClimbs(a.sched.(maintenance := None, maintenanceJoin := false), a.closed, b.closed, a.rest.now);
  }

  /** A settlement made up for an operation that was left unsettled. */
  predicate MadeUp(e: Event) {
    e.OperationSettled? && e.status == Failed && e.durability == Unconfirmed && e.revision == Unchanged
  }

  /** Every settlement a driver reported is delivered as reported, or made up if it was abandoned. */
  ghost predicate DeliversReports(sent: seq<Event>, rest: Rest) {
    forall agent, e :: (agent in rest.received || agent in rest.abandoned) && agent.AgentSettled? && e in sent && Settles(e, agent.operationId) ==>
      if agent in rest.abandoned then MadeUp(e) else Mirrors(e, agent)
  }
}
