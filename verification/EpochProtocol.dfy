/**
 One runtime epoch as the coordinator and its supervisor see it through shared
 memory: the accepted ledger, the reliable staging queue and the event outlet.

 Every write to those three objects is one step, so "the coordinator panics between
 any two shared writes" means: it stops after some prefix of a step sequence. `hand`
 is an event taken out of staging and not yet given to the outlet, and `removing` a
 settlement already staged whose ledger entry is still there.
 */
module EpochProtocol {
  import opened Wrappers
  import opened Identifiers
  import opened RuntimeEvents

  datatype LedgerEntry = LedgerEntry(operationId: OperationId, turnId: TurnId, sessionId: SessionId)

  datatype Bounds = Bounds(ledgerCap: nat, stagingCap: nat)

  datatype Shared = Shared(
    ledger: seq<LedgerEntry>,
    staging: seq<Event>,
    sent: seq<Event>,
    hand: Option<Event>,
    removing: Option<OperationId>,
    accepted: seq<OperationId>,
    open: bool)

  const INITIAL := Shared([], [], [], None, None, [], true)

  datatype Step =
    | Insert(entry: LedgerEntry)      // admission enters the ledger
    | Stage(event: Event)             // push at the back of staging
    | Unledger                        // drop the entry of the settlement just staged
    | Pop                             // take the front of staging
    | Send                            // give the event in hand to the outlet
    | PutBack                         // outlet full: push the event in hand to the front
    | SendTransient(event: Event)     // a coalesced event goes straight to the outlet
    | SinkCloses                      // the consumer drops its receiver
    | LoseHand                        // outlet closed: the event in hand is dropped
    | ClearStaging                    // the coordinator reacts to a closed sink

  predicate Holds(ledger: seq<LedgerEntry>, id: OperationId) {
    exists i :: 0 <= i < |ledger| && ledger[i].operationId == id
  }

  predicate Distinct(ledger: seq<LedgerEntry>) {
    forall i, j :: 0 <= i < j < |ledger| ==> ledger[i].operationId != ledger[j].operationId
  }

  /** The entries whose id is not in `gone`, in order. */
  function Drop(ledger: seq<LedgerEntry>, gone: set<OperationId>): seq<LedgerEntry> {
    if ledger == [] then []
    else
      var init := Drop(ledger[..|ledger| - 1], gone);
      var last := ledger[|ledger| - 1];
      if last.operationId in gone then init else init + [last]
  }

  function Ids(ledger: seq<LedgerEntry>): (ids: seq<OperationId>)
    ensures |ids| == |ledger|
    ensures forall i :: 0 <= i < |ledger| ==> ids[i] == ledger[i].operationId
  {
    seq(|ledger|, i requires 0 <= i < |ledger| => ledger[i].operationId)
  }

  /** The operations settled by the events of `es`. */
  function SettledIds(es: seq<Event>): set<OperationId> {
    set e | e in es && e.OperationSettled? :: e.operationId
  }

  predicate Enabled(b: Bounds, s: Shared, step: Step) {
    match step
    case Insert(entry) =>
      s.hand.None? && s.removing.None? && entry.operationId !in s.accepted && |s.ledger| < b.ledgerCap
    case Stage(event) =>
      && s.hand.None? && s.removing.None? && !IsMergeable(event) && |s.staging| < b.stagingCap
      && (event.OperationSettled? ==> Holds(s.ledger, event.operationId))
    case Unledger => s.removing.Some?
    case Pop => s.hand.None? && s.removing.None? && s.staging != []
    case Send => s.open && s.hand.Some?
    case PutBack => s.hand.Some?
    case SendTransient(event) => s.open && s.hand.None? && s.removing.None? && IsMergeable(event)
    case SinkCloses => s.open
    case LoseHand => !s.open && s.hand.Some?
    case ClearStaging => !s.open && s.hand.None? && s.removing.None?
  }

  function Next(s: Shared, step: Step): Shared {
    match step
    case Insert(entry) => s.(ledger := s.ledger + [entry], accepted := s.accepted + [entry.operationId])
    case Stage(event) =>
      s.(staging := s.staging + [event],
         removing := if event.OperationSettled? then Some(event.operationId) else None)
    case Unledger =>
      if s.removing.Some? then s.(ledger := Drop(s.ledger, {s.removing.value}), removing := None) else s
    case Pop => if s.staging == [] then s else s.(hand := Some(s.staging[0]), staging := s.staging[1..])
    case Send => if s.hand.Some? then s.(sent := s.sent + [s.hand.value], hand := None) else s
    case PutBack => if s.hand.Some? then s.(staging := [s.hand.value] + s.staging, hand := None) else s
    case SendTransient(event) => s.(sent := s.sent + [event])
    case SinkCloses => s.(open := false)
    case LoseHand => s.(hand := None)
    case ClearStaging => s.(staging := [])
  }

  /** The shared state after `steps`, from the start of the epoch. */
  function After(steps: seq<Step>): Shared {
    if steps == [] then INITIAL else Next(After(steps[..|steps| - 1]), steps[|steps| - 1])
  }

  /** Every step was enabled when it was taken. */
  predicate Legal(b: Bounds, steps: seq<Step>) {
    steps == []
    || (Legal(b, steps[..|steps| - 1]) && Enabled(b, After(steps[..|steps| - 1]), steps[|steps| - 1]))
  }

  lemma Extend(b: Bounds, steps: seq<Step>, step: Step)
    requires Legal(b, steps) && Enabled(b, After(steps), step)
    ensures Legal(b, steps + [step]) && After(steps + [step]) == Next(After(steps), step)
  {
    assert (steps + [step])[..|steps|] == steps;
  }

  lemma {:induction false} LegalPrefix(b: Bounds, steps: seq<Step>, n: nat)
    requires Legal(b, steps) && n <= |steps|
    ensures Legal(b, steps[..n])
    decreases |steps|
  {
    if n < |steps| {
      LegalPrefix(b, steps[..|steps| - 1], n);
      assert steps[..|steps| - 1][..n] == steps[..n];
    } else {
      assert steps[..n] == steps;
    }
  }

  // ---- the invariant ----

  /** Everything that has entered staging and was not lost, oldest first. */
  function Total(s: Shared): seq<Event> {
    s.sent + (if s.hand.Some? then [s.hand.value] else []) + s.staging
  }

  /** `xs` can be obtained from `ys` by deleting elements. */
  predicate Subsequence(xs: seq<OperationId>, ys: seq<OperationId>) {
    || xs == []
    || (ys != [] && (Subsequence(xs, ys[..|ys| - 1])
                     || (xs[|xs| - 1] == ys[|ys| - 1] && Subsequence(xs[..|xs| - 1], ys[..|ys| - 1]))))
  }

  /** What one id may look like: it is settled at most once, never before it was accepted,
      and only in the window between staging and ledger removal is it both settled and open. */
  predicate IdOk(s: Shared, id: OperationId) {
    && Count(Total(s), id) <= 1
    && (Holds(s.ledger, id) || Count(Total(s), id) == 1 ==> id in s.accepted)
    && (s.open && id in s.accepted ==> Holds(s.ledger, id) || Count(Total(s), id) == 1)
    && (Holds(s.ledger, id) && Count(Total(s), id) == 1 ==> s.removing == Some(id))
  }

  ghost predicate Inv(b: Bounds, s: Shared) {
    && (forall id :: IdOk(s, id))
    && Distinct(s.ledger)
    && |s.ledger| <= b.ledgerCap
    && |s.staging| + (if s.hand.Some? then 1 else 0) <= b.stagingCap
    && (s.hand.Some? ==> s.removing.None? && !IsMergeable(s.hand.value))
    && (s.removing.Some? ==> s.staging != [] && Settles(s.staging[|s.staging| - 1], s.removing.value))
    && Subsequence(Ids(s.ledger), s.accepted)
    && (forall e :: e in s.staging ==> !IsMergeable(e))
  }

  lemma {:induction false} DropHolds(ledger: seq<LedgerEntry>, gone: set<OperationId>, id: OperationId)
    ensures Holds(Drop(ledger, gone), id) <==> Holds(ledger, id) && id !in gone
    ensures |Drop(ledger, gone)| <= |ledger|
  {
    if ledger != [] {
      var init, last := ledger[..|ledger| - 1], ledger[|ledger| - 1];
      DropHolds(init, gone, id);
      assert ledger == init + [last];
      HoldsSnoc(init, last, id);
      HoldsSnoc(Drop(init, gone), last, id);
    }
  }

  lemma {:induction false} DropDistinct(ledger: seq<LedgerEntry>, gone: set<OperationId>)
    requires Distinct(ledger)
    ensures Distinct(Drop(ledger, gone))
  {
    if ledger != [] {
      var init, last := ledger[..|ledger| - 1], ledger[|ledger| - 1];
      DropDistinct(init, gone);
      DropHolds(init, gone, last.operationId);
    }
  }

  /** Dropping entries keeps the admission order of those that stay. */
  lemma {:induction false} DropSubsequence(ledger: seq<LedgerEntry>, gone: set<OperationId>, ys: seq<OperationId>)
    requires Subsequence(Ids(ledger), ys)
    ensures Subsequence(Ids(Drop(ledger, gone)), ys)
    decreases |ys|
  {
    if ledger != [] {
      var init, last, zs := ledger[..|ledger| - 1], ledger[|ledger| - 1], ys[..|ys| - 1];
      assert Ids(ledger)[..|ledger| - 1] == Ids(init);
      if Subsequence(Ids(ledger), zs) {
        DropSubsequence(ledger, gone, zs);
      } else {
        DropSubsequence(init, gone, zs);
        var kept := Drop(init, gone);
        assert Ids(kept + [last])[..|kept|] == Ids(kept);
      }
    }
  }

  lemma HoldsSnoc(ledger: seq<LedgerEntry>, last: LedgerEntry, id: OperationId)
    ensures Holds(ledger + [last], id) <==> Holds(ledger, id) || last.operationId == id
  {
    if Holds(ledger, id) {
      var i :| 0 <= i < |ledger| && ledger[i].operationId == id;
      assert (ledger + [last])[i].operationId == id;
    }
    assert (ledger + [last])[|ledger|] == last;
    if Holds(ledger + [last], id) && last.operationId != id {
      var i :| 0 <= i < |ledger + [last]| && (ledger + [last])[i].operationId == id;
      assert ledger[i].operationId == id;
    }
  }

  lemma CountTotal(s: Shared, id: OperationId)
    ensures Count(Total(s), id) == Count(s.sent, id)
              + (if s.hand.Some? && Settles(s.hand.value, id) then 1 else 0) + Count(s.staging, id)
  {
    var hand := if s.hand.Some? then [s.hand.value] else [];
    CountConcat(s.sent + hand, s.staging, id);
    CountConcat(s.sent, hand, id);
    if s.hand.Some? {
      CountSnoc([], s.hand.value, id);
      assert [] + hand == hand;
    }
  }

  lemma InvStep(b: Bounds, s: Shared, step: Step)
    requires Inv(b, s) && Enabled(b, s, step)
    ensures Inv(b, Next(s, step))
  {
    var t := Next(s, step);
    match step
    case Insert(entry) => InvInsert(b, s, entry);
    case Stage(event) => InvStage(b, s, event);
    case Unledger =>
      DropDistinct(s.ledger, {s.removing.value});
      DropSubsequence(s.ledger, {s.removing.value}, s.accepted);
      DropHolds(s.ledger, {s.removing.value}, s.removing.value);
      assert Total(t) == Total(s);
      forall id ensures IdOk(t, id) {
        assert IdOk(s, id);
        DropHolds(s.ledger, {s.removing.value}, id);
        UnledgerCounts(b, s);
      }
    case Pop =>
      assert s.staging == [s.staging[0]] + t.staging;
      assert Total(t) == Total(s);
      forall id ensures IdOk(t, id) { assert IdOk(s, id); }
    case Send =>
      assert Total(t) == Total(s);
      forall id ensures IdOk(t, id) { assert IdOk(s, id); }
    case PutBack =>
      assert Total(t) == Total(s);
      forall id ensures IdOk(t, id) { assert IdOk(s, id); }
    case SendTransient(event) =>
      forall id ensures IdOk(t, id) {
        assert IdOk(s, id);
        CountTotal(s, id); CountTotal(t, id); CountSnoc(s.sent, event, id);
      }
    case SinkCloses =>
      assert Total(t) == Total(s);
      forall id ensures IdOk(t, id) { assert IdOk(s, id); }
    case LoseHand =>
      forall id ensures IdOk(t, id) { assert IdOk(s, id); CountTotal(s, id); CountTotal(t, id); }
    case ClearStaging =>
      forall id ensures IdOk(t, id) { assert IdOk(s, id); CountTotal(s, id); CountTotal(t, id); }
  }

  lemma UnledgerCounts(b: Bounds, s: Shared)
    requires Inv(b, s) && s.removing.Some?
    ensures Count(Total(s), s.removing.value) == 1
  {
    var id, init, last := s.removing.value, s.staging[..|s.staging| - 1], s.staging[|s.staging| - 1];
    assert IdOk(s, id);
    CountTotal(s, id);
    assert s.staging == init + [last];
    CountSnoc(init, last, id);
  }

  lemma InvInsert(b: Bounds, s: Shared, entry: LedgerEntry)
    requires Inv(b, s) && Enabled(b, s, Insert(entry))
    ensures Inv(b, Next(s, Insert(entry)))
  {
    var t := Next(s, Insert(entry));
    assert Total(t) == Total(s);
    forall id ensures IdOk(t, id) {
      assert IdOk(s, id);
      HoldsSnoc(s.ledger, entry, id);
    }
    assert IdOk(s, entry.operationId);
    assert forall i :: 0 <= i < |s.ledger| ==> Holds(s.ledger, s.ledger[i].operationId);
    assert Ids(t.ledger)[..|s.ledger|] == Ids(s.ledger);
    assert t.accepted[..|s.accepted|] == s.accepted;
  }

  lemma InvStage(b: Bounds, s: Shared, event: Event)
    requires Inv(b, s) && Enabled(b, s, Stage(event))
    ensures Inv(b, Next(s, Stage(event)))
  {
    var t := Next(s, Stage(event));
    assert Total(t) == Total(s) + [event];
    forall id ensures IdOk(t, id) {
      assert IdOk(s, id);
      CountSnoc(Total(s), event, id);
    }
  }

  /** Every state of every run keeps the invariant. */
  lemma {:induction false} RunInv(b: Bounds, steps: seq<Step>)
    requires Legal(b, steps)
    ensures Inv(b, After(steps))
  {
    if steps == [] {
      forall id ensures IdOk(INITIAL, id) {
        assert Total(INITIAL) == [];
      }
    } else {
      RunInv(b, steps[..|steps| - 1]);
      InvStep(b, After(steps[..|steps| - 1]), steps[|steps| - 1]);
    }
  }

  /** What was sent stays sent, and a closed outlet stays closed. */
  lemma {:induction false} SentOnlyGrows(steps: seq<Step>, n: nat)
    requires n <= |steps|
    ensures After(steps[..n]).sent <= After(steps).sent
    ensures After(steps).open ==> After(steps[..n]).open
    decreases |steps|
  {
    if n < |steps| {
      SentOnlyGrows(steps[..|steps| - 1], n);
      assert steps[..|steps| - 1][..n] == steps[..n];
    } else {
      assert steps[..n] == steps;
    }
  }

  // ---- the end of the epoch ----

  /** The operations the supervisor settles by force: still in the ledger, and not
      already settled by an event left in staging. */
  function Forced(s: Shared): seq<LedgerEntry> {
    Drop(s.ledger, SettledIds(s.staging))
  }

  function ForcedEvent(entry: LedgerEntry): Event {
    OperationSettled(entry.operationId, entry.sessionId, Failed, Unconfirmed, Unchanged)
  }

  function ForcedEvents(entries: seq<LedgerEntry>): (es: seq<Event>)
    ensures |es| == |entries|
    ensures forall i :: 0 <= i < |entries| ==> es[i] == ForcedEvent(entries[i])
  {
    seq(|entries|, i requires 0 <= i < |entries| => ForcedEvent(entries[i]))
  }

  function FaultEvents(messages: seq<string>): (es: seq<Event>)
    ensures |es| == |messages|
    ensures forall i :: 0 <= i < |messages| ==> es[i] == RuntimeFault(messages[i])
  {
    seq(|messages|, i requires 0 <= i < |messages| => RuntimeFault(messages[i]))
  }

  lemma {:induction false} DropMembers(ledger: seq<LedgerEntry>, gone: set<OperationId>)
    ensures forall entry :: entry in Drop(ledger, gone) ==> entry in ledger
  {
    if ledger != [] {
      DropMembers(ledger[..|ledger| - 1], gone);
    }
  }

  datatype Exit = Exit(reason: EpochEndReason, faults: seq<string>,
                       maintenance: Option<(MaintenanceId, SessionId)>)

  function MaintenanceEvents(exit: Exit): seq<Event> {
    if exit.maintenance.Some?
    then [MaintenanceSettled(exit.maintenance.value.0, exit.maintenance.value.1, MaintenanceCancelled)]
    else []
  }

  /** What the supervisor sends once the coordinator is gone. */
  function Epilogue(s: Shared, exit: Exit): seq<Event> {
    s.staging + MaintenanceEvents(exit) + ForcedEvents(Forced(s)) + FaultEvents(exit.faults)
    + [EpochEnded(exit.reason, |Forced(s)|)]
  }

  /** A settlement in the epilogue is a staged one, or forced on an open entry. */
  lemma EpilogueSettlement(s: Shared, exit: Exit, e: Event)
    requires e.OperationSettled? && e in Epilogue(s, exit)
    ensures e in s.staging || exists entry :: entry in s.ledger && e == ForcedEvent(entry)
  {
    DropMembers(s.ledger, SettledIds(s.staging));
    if e !in s.staging {
      assert e in ForcedEvents(Forced(s));
      var i :| 0 <= i < |Forced(s)| && ForcedEvents(Forced(s))[i] == e;
      assert Forced(s)[i] in s.ledger;
    }
  }

  lemma {:induction false} CountForced(entries: seq<LedgerEntry>, id: OperationId)
    requires Distinct(entries)
    ensures Count(ForcedEvents(entries), id) == if Holds(entries, id) then 1 else 0
  {
    if entries != [] {
      var init, last := entries[..|entries| - 1], entries[|entries| - 1];
      assert ForcedEvents(entries) == ForcedEvents(init) + [ForcedEvent(last)];
      assert entries == init + [last];
      hide Count, ForcedEvents;
      CountForced(init, id);
      HoldsSnoc(init, last, id);
      CountSnoc(ForcedEvents(init), ForcedEvent(last), id);
      if Holds(init, id) {
        var i :| 0 <= i < |init| && init[i].operationId == id;
        assert entries[i] == init[i];
      }
    }
  }

  lemma CountEpilogue(s: Shared, exit: Exit, id: OperationId)
    requires Distinct(s.ledger)
    ensures Count(Epilogue(s, exit), id)
         == Count(s.staging, id) + if Holds(s.ledger, id) && Count(s.staging, id) == 0 then 1 else 0
  {
    var ended := [EpochEnded(exit.reason, |Forced(s)|)];
    var forced, faults := ForcedEvents(Forced(s)), FaultEvents(exit.faults);
    CountConcat(s.staging + MaintenanceEvents(exit) + forced + faults, ended, id);
    CountConcat(s.staging + MaintenanceEvents(exit) + forced, faults, id);
    CountConcat(s.staging + MaintenanceEvents(exit), forced, id);
    CountConcat(s.staging, MaintenanceEvents(exit), id);
    CountZero(ended, id);
    CountZero(faults, id);
    CountZero(MaintenanceEvents(exit), id);
    DropHolds(s.ledger, SettledIds(s.staging), id);
    DropDistinct(s.ledger, SettledIds(s.staging));
    CountForced(Forced(s), id);
    CountZero(s.staging, id);
    assert id in SettledIds(s.staging) <==> exists e :: e in s.staging && Settles(e, id);
  }

  /** Everything the consumer receives when the coordinator stops after `steps` and the
      outlet takes the whole epilogue. */
  function Delivered(steps: seq<Step>, exit: Exit): seq<Event> {
    After(steps).sent + Epilogue(After(steps), exit)
  }

  /** A settlement popped from staging and not yet sent. */
  predicate SettlementInHand(s: Shared) {
    s.hand.Some? && s.hand.value.OperationSettled?
  }

  lemma CountDelivered(b: Bounds, steps: seq<Step>, exit: Exit, id: OperationId)
    requires Legal(b, steps)
    ensures Inv(b, After(steps))
    ensures Count(Delivered(steps, exit), id)
         == Count(After(steps).sent, id) + if Holds(After(steps).ledger, id) || Count(After(steps).staging, id) == 1 then 1 else 0
  {
    var s := After(steps);
    RunInv(b, steps);
    assert IdOk(s, id);
    CountConcat(s.sent, Epilogue(s, exit), id);
    CountEpilogue(s, exit, id);
    CountTotal(s, id);
  }

  /**
   Exactly-once settlement. Stop the coordinator after any legal step sequence, with the
   sink still open: once the supervisor has sent its epilogue, every accepted operation has
   been settled exactly once, except one whose settlement was in hand, popped from staging
   and not yet sent; and nothing else was ever settled.
   */
  lemma SettledExactlyOnce(b: Bounds, steps: seq<Step>, exit: Exit, id: OperationId)
    requires Legal(b, steps) && After(steps).open
    ensures Count(Delivered(steps, exit), id)
         == if id in After(steps).accepted && !(SettlementInHand(After(steps)) && After(steps).hand.value.operationId == id)
            then 1 else 0
  {
    var s := After(steps);
    CountDelivered(b, steps, exit, id);
    assert IdOk(s, id);
    CountTotal(s, id);
    if s.removing == Some(id) {
      UnledgerCounts(b, s);
      LastStaged(b, s);
    }
  }

  lemma LastStaged(b: Bounds, s: Shared)
    requires Inv(b, s) && s.removing.Some?
    ensures Count(s.staging, s.removing.value) == 1 && Count(s.sent, s.removing.value) == 0
  {
    var id, init, last := s.removing.value, s.staging[..|s.staging| - 1], s.staging[|s.staging| - 1];
    assert IdOk(s, id);
    CountTotal(s, id);
    assert s.staging == init + [last];
    CountSnoc(init, last, id);
  }

  /** The exact condition: stopping there loses a settlement if and only if one was in hand. */
  lemma ExactlyOnceIffNoSettlementInHand(b: Bounds, steps: seq<Step>, exit: Exit)
    requires Legal(b, steps) && After(steps).open
    ensures (forall id :: id in After(steps).accepted ==> Count(Delivered(steps, exit), id) == 1)
       <==> !SettlementInHand(After(steps))
  {
    var s := After(steps);
    forall id | id in s.accepted
      ensures Count(Delivered(steps, exit), id)
           == if SettlementInHand(s) && s.hand.value.operationId == id then 0 else 1
    {
      SettledExactlyOnce(b, steps, exit, id);
    }
    if SettlementInHand(s) {
      var id := s.hand.value.operationId;
      RunInv(b, steps);
      assert IdOk(s, id);
      CountTotal(s, id);
    }
  }

  /** An operation that is accepted, announced and settled, up to the pop of its settlement. */
  function PoppedSettlement(entry: LedgerEntry, settled: Event): seq<Step> {
    [Insert(entry), Stage(OperationAccepted(entry.operationId, entry.sessionId, entry.turnId)), Pop, Send,
     Stage(settled), Unledger, Pop]
  }

  /** The failing case is real, with the smallest capacities allowed: a panic between popping a
      settlement and sending it. */
  lemma LostSettlement(entry: LedgerEntry, settled: Event, exit: Exit)
    requires Settles(settled, entry.operationId)
    ensures Legal(Bounds(2, 2), PoppedSettlement(entry, settled))
    ensures After(PoppedSettlement(entry, settled)).open
    ensures entry.operationId in After(PoppedSettlement(entry, settled)).accepted
    ensures Count(Delivered(PoppedSettlement(entry, settled), exit), entry.operationId) == 0
  {
    var b, steps := Bounds(2, 2), PoppedSettlement(entry, settled);
    AfterAnnouncement(entry, steps);
    hide Legal, After;
    var announced := After(steps[..4]);
    assert announced.ledger[0] == entry;
    OneMore(b, steps, 4);
    OneMore(b, steps, 5);
    OneMore(b, steps, 6);
    assert steps[..7] == steps;
    SettledExactlyOnce(b, steps, exit, entry.operationId);
  }

  lemma OneMore(b: Bounds, steps: seq<Step>, n: nat)
    requires n < |steps| && Legal(b, steps[..n]) && Enabled(b, After(steps[..n]), steps[n])
    ensures Legal(b, steps[..n + 1]) && After(steps[..n + 1]) == Next(After(steps[..n]), steps[n])
  {
    assert steps[..n + 1][..n] == steps[..n];
  }

  lemma AfterAnnouncement(entry: LedgerEntry, steps: seq<Step>)
    requires |steps| >= 4 && steps[0] == Insert(entry) && steps[2] == Pop && steps[3] == Send
    requires steps[1] == Stage(OperationAccepted(entry.operationId, entry.sessionId, entry.turnId))
    ensures Legal(Bounds(2, 2), steps[..4])
    ensures var s := After(steps[..4]);
            && s.ledger == [entry] && s.staging == [] && s.hand.None? && s.removing.None? && s.open
            && s.accepted == [entry.operationId]
  {
    var b := Bounds(2, 2);
    assert Legal(b, steps[..0]) && After(steps[..0]) == INITIAL;
    hide Legal, After;
    OneMore(b, steps, 0);
    OneMore(b, steps, 1);
    OneMore(b, steps, 2);
    OneMore(b, steps, 3);
  }

  /** Whatever the sink does and however many of the epilogue's events get through,
      no operation is ever reported settled twice. */
  lemma SettledAtMostOnce(b: Bounds, steps: seq<Step>, exit: Exit, n: nat, id: OperationId)
    requires Legal(b, steps) && n <= |Epilogue(After(steps), exit)|
    ensures Count(After(steps).sent + Epilogue(After(steps), exit)[..n], id) <= 1
  {
    var s := After(steps);
    var e := Epilogue(s, exit);
    assert e == e[..n] + e[n..];
    CountConcat(e[..n], e[n..], id);
    CountConcat(s.sent, e[..n], id);
    CountConcat(s.sent, e, id);
    CountDelivered(b, steps, exit, id);
    assert IdOk(s, id);
    CountTotal(s, id);
    if s.removing == Some(id) {
      LastStaged(b, s);
    }
  }

  /** Forced settlements come out in admission order, and there are at most `ledgerCap` of them. */
  lemma ForcedInAdmissionOrder(b: Bounds, steps: seq<Step>)
    requires Legal(b, steps)
    ensures Subsequence(Ids(Forced(After(steps))), After(steps).accepted)
    ensures |Forced(After(steps))| <= b.ledgerCap
  {
    RunInv(b, steps);
    DropSubsequence(After(steps).ledger, SettledIds(After(steps).staging), After(steps).accepted);
    DropHolds(After(steps).ledger, SettledIds(After(steps).staging), OperationId(""));
  }

  /** The reliable events staged along a run. */
  function StagedBy(steps: seq<Step>): seq<Event> {
    if steps == [] then []
    else
      var init := StagedBy(steps[..|steps| - 1]);
      match steps[|steps| - 1]
      case Stage(event) => init + [event]
      case _ => init
  }

  /** What was sent, what is in hand and what is staged, oldest first and transients left out. */
  function Log(s: Shared): seq<Event> {
    Reliable(s.sent) + (if s.hand.Some? then [s.hand.value] else []) + s.staging
  }

  lemma LogStep(b: Bounds, s: Shared, step: Step)
    requires Inv(b, s) && Enabled(b, s, step) && Next(s, step).open
    ensures Log(Next(s, step)) == if step.Stage? then Log(s) + [step.event] else Log(s)
  {
    match step
    case Send => ReliableSnoc(s.sent, s.hand.value);
    case SendTransient(event) => ReliableSnoc(s.sent, event);
    case _ =>
  }

  /** Lossless and in order: while the sink is open, the log of a run is exactly the sequence
      of reliable events staged along it. */
  lemma {:induction false} LosslessFifo(b: Bounds, steps: seq<Step>)
    requires Legal(b, steps) && After(steps).open
    ensures Log(After(steps)) == StagedBy(steps)
  {
    if steps != [] {
      var prefix := steps[..|steps| - 1];
      LosslessFifo(b, prefix);
      RunInv(b, prefix);
      LogStep(b, After(prefix), steps[|steps| - 1]);
    }
  }
}
