/**
 The keyed store of outbound transients: one slot per key, in order of first
 publication, text and reasoning concatenated up to a byte limit, every other kind
 latest-wins.
 */
module Coalescer {
  import opened Wrappers
  import opened Identifiers
  import opened RuntimeEvents

  const DELTA_MERGE_CHUNK_MAX: nat := 4096

  datatype Key =
    | TextKey(operationId: OperationId, call: Option<ModelCallId>)
    | ReasoningKey(operationId: OperationId, modelCallId: ModelCallId)
    | UsageKey(operationId: OperationId, modelCallId: ModelCallId)
    | ToolProgressKey(operationId: OperationId)
    | AvailabilityKey
    | MaintenanceKey(id: MaintenanceId)

  /** The slot of an event; without a current operation, agent transients have none. */
  function KeyOf(event: Event, op: Option<OperationId>, call: Option<ModelCallId>): Option<Key> {
    match event
    case Agent(agent) =>
      if op.None? then None
      else (match agent
            case TextDelta(_) => Some(TextKey(op.value, call))
            case ReasoningDelta(id, _) => Some(ReasoningKey(op.value, id))
            case ModelUsageUpdated(id, _) => Some(UsageKey(op.value, id))
            case ToolExecutionProgress(_, _) => Some(ToolProgressKey(op.value))
            case _ => None)
    case AvailabilityChanged(_, _) => Some(AvailabilityKey)
    case MaintenanceProgress(id, _) => Some(MaintenanceKey(id))
    case _ => None
  }

  /** At most the first DELTA_MERGE_CHUNK_MAX bytes. */
  function Truncate(text: Text): Text {
    if |text| > DELTA_MERGE_CHUNK_MAX then text[..DELTA_MERGE_CHUNK_MAX] else text
  }

  function MergeEvents(held: Event, next: Event): Option<Event> {
    match (held, next)
    case (Agent(TextDelta(left)), Agent(TextDelta(right))) =>
      Some(Agent(TextDelta(Truncate(left + right))))
    case (Agent(ReasoningDelta(leftId, left)), Agent(ReasoningDelta(rightId, right))) =>
      if leftId == rightId then Some(Agent(ReasoningDelta(leftId, Truncate(left + right)))) else None
    case (Agent(ToolExecutionProgress(left, _)), Agent(ToolExecutionProgress(right, _))) =>
      if left == right then Some(next) else None
    case (Agent(ModelUsageUpdated(left, _)), Agent(ModelUsageUpdated(right, _))) =>
      if left == right then Some(next) else None
    case (AvailabilityChanged(_, _), AvailabilityChanged(_, _)) => Some(next)
    case (MaintenanceProgress(left, _), MaintenanceProgress(right, _)) =>
      if left == right then Some(next) else None
    case _ => None
  }

  /** What a slot holds after `next` is published over `held`. */
  function Overwrite(held: Event, next: Event): Event {
    var merged := MergeEvents(held, next);
    if merged.Some? then merged.value else next
  }

  class TransientCoalescer {
    const cap: nat
    var slots: map<Key, Event>
    var order: seq<Key>

    ghost predicate Valid()
      reads this
    {
      && (forall i, j :: 0 <= i < j < |order| ==> order[i] != order[j])
      && (forall k :: k in slots <==> k in order)
      && (forall k :: k in slots ==> IsMergeable(slots[k]) && SlotFits(k, slots[k]))
      && (cap >= 1 ==> |order| <= cap)
    }

    constructor (cap: nat)
      ensures Valid() && this.cap == cap && order == [] && slots == map[]
    {
      this.cap := cap;
      slots, order := map[], [];
    }

    /** The held slots in first-publication order. */
    ghost function Contents(): seq<(Key, Event)>
      reads this
      requires Valid()
    {
      var o, s := order, slots;
      seq(|o|, i requires 0 <= i < |o| && o[i] in s => (o[i], s[o[i]]))
    }

    method Publish(event: Event, op: Option<OperationId>, call: Option<ModelCallId>)
      requires Valid() && IsMergeable(event)
      modifies this
      ensures Valid()
      ensures Contents() == Published(old(Contents()), cap, event, op, call)
    {
      var key := KeyOf(event, op, call);
      if key.None? {
        return;
      }
      if key.value in slots {
        Replace(key.value, Overwrite(slots[key.value], event));
        return;
      }
      AbsentKey(Contents(), key.value);
      SlotCount();
      Insert(key.value, event);
    }

    /** A key that has no slot yet gets one, the oldest slot making room for it. */
    method Insert(key: Key, event: Event)
      requires Valid() && key !in slots && IsMergeable(event) && SlotFits(key, event)
      modifies this
      ensures Valid()
      ensures Contents() == (if |old(slots)| >= cap && old(order) != [] then old(Contents())[1..] else old(Contents())) + [(key, event)]
    {
      SlotCount();
      if |slots| >= cap && order != [] {
        var _ := TakeOne();
      }
      Append(key, event);
    }

    method Replace(key: Key, event: Event)
      requires Valid() && key in slots && IsMergeable(event) && SlotFits(key, event)
      modifies this`slots
      ensures Valid()
      ensures IndexOf(old(Contents()), key) >= 0
      ensures Contents() == old(Contents())[IndexOf(old(Contents()), key) := (key, event)]
    {
      hide SlotFits, IsMergeable, IndexOf;
      ghost var i :| 0 <= i < |order| && order[i] == key;
      IndexOfUnique(Contents(), key, i);
      slots := slots[key := event];
    }

    method Append(key: Key, event: Event)
      requires Valid() && key !in slots && IsMergeable(event) && SlotFits(key, event)
      requires cap >= 1 ==> |order| < cap
      modifies this
      ensures Valid()
      ensures Contents() == old(Contents()) + [(key, event)]
    {
      slots := slots[key := event];
      order := order + [key];
    }

    method TakeOne() returns (event: Option<Event>)
      requires Valid()
      modifies this
      ensures Valid()
      ensures old(Contents()) == [] ==> event == None && Contents() == []
      ensures old(Contents()) != [] ==> event == Some(old(Contents())[0].1) && Contents() == old(Contents())[1..]
      ensures event.Some? ==> IsMergeable(event.value)
      ensures order == if old(order) == [] then [] else old(order)[1..]
    {
      if order == [] {
        return None;
      }
      var key := order[0];
      ghost var before := Contents();
      event := Some(slots[key]);
      order := order[1..];
      slots := map k | k in slots && k != key :: slots[k];
      assert Contents() == before[1..];
    }

    method Clear()
      requires Valid()
      modifies this
      ensures Valid() && Contents() == []
    {
      slots, order := map[], [];
    }

    lemma SlotCount()
      requires Valid()
      ensures |slots| == |order|
    {
      assert slots.Keys == set k | k in order;
      SetOfDistinct(order);
    }
  }

  lemma {:induction false} SetOfDistinct(keys: seq<Key>)
    requires forall i, j :: 0 <= i < j < |keys| ==> keys[i] != keys[j]
    ensures |set k | k in keys| == |keys|
  {
    if keys != [] {
      SetOfDistinct(keys[1..]);
      assert (set k | k in keys) == {keys[0]} + set k | k in keys[1..];
    }
  }

  /** A slot holds an event of the kind its key names, for the same model call. */
  predicate SlotFits(key: Key, event: Event) {
    match key
    case TextKey(_, _) => event.Agent? && event.agent.TextDelta?
    case ReasoningKey(_, id) => event.Agent? && event.agent.ReasoningDelta? && event.agent.modelCallId == id
    case UsageKey(_, id) => event.Agent? && event.agent.ModelUsageUpdated? && event.agent.modelCallId == id
    case ToolProgressKey(_) => event.Agent? && event.agent.ToolExecutionProgress?
    case AvailabilityKey => event.AvailabilityChanged?
    case MaintenanceKey(id) => event.MaintenanceProgress? && event.id == id
  }

  // ---- the store as a list ----

  function IndexOf(c: seq<(Key, Event)>, key: Key): (i: int)
    ensures -1 <= i < |c|
    ensures i >= 0 ==> c[i].0 == key
    ensures i == -1 ==> forall j :: 0 <= j < |c| ==> c[j].0 != key
  {
    if c == [] then -1
    else if c[|c| - 1].0 == key then |c| - 1
    else IndexOf(c[..|c| - 1], key)
  }

  lemma IndexOfUnique(c: seq<(Key, Event)>, key: Key, i: int)
    requires forall a, b :: 0 <= a < b < |c| ==> c[a].0 != c[b].0
    requires 0 <= i < |c| && c[i].0 == key
    ensures IndexOf(c, key) == i
  {
  }

  lemma AbsentKey(c: seq<(Key, Event)>, key: Key)
    requires forall j :: 0 <= j < |c| ==> c[j].0 != key
    ensures IndexOf(c, key) == -1
  {
  }

  /** Publication on the list of held slots. */
  function Published(c: seq<(Key, Event)>, cap: nat, event: Event,
                     op: Option<OperationId>, call: Option<ModelCallId>): seq<(Key, Event)> {
    var key := KeyOf(event, op, call);
    if key.None? then c
    else
      var i := IndexOf(c, key.value);
      if i >= 0 then c[i := (key.value, Overwrite(c[i].1, event))]
      else (if |c| >= cap && c != [] then c[1..] else c) + [(key.value, event)]
  }

  // ---- the ideal store: every slot remembers all that was published into it ----

  datatype Group = Group(key: Key, events: seq<Event>)

  /** What a consumer should see of a group: text and reasoning concatenated and cut to the
      limit as soon as two pieces meet, the other kinds by their last event. */
  function Rendered(g: Group): (e: Event)
    requires g.events != []
  {
    var last := g.events[|g.events| - 1];
    match g.key
    case TextKey(_, _) => Agent(TextDelta(Joined(g.events)))
    case ReasoningKey(_, id) => Agent(ReasoningDelta(id, Joined(g.events)))
    case _ => last
  }

  function TextOf(e: Event): Text {
    if e.Agent? && e.agent.TextDelta? then e.agent.delta
    else if e.Agent? && e.agent.ReasoningDelta? then e.agent.text
    else []
  }

  function Concat(es: seq<Event>): Text {
    if es == [] then [] else Concat(es[..|es| - 1]) + TextOf(es[|es| - 1])
  }

  function Joined(es: seq<Event>): Text {
    if |es| >= 2 then Truncate(Concat(es)) else Concat(es)
  }

  predicate GroupOk(g: Group) {
    g.events != [] && forall e :: e in g.events ==> SlotFits(g.key, e)
  }

  function IndexOfGroup(gs: seq<Group>, key: Key): (i: int)
    ensures -1 <= i < |gs|
    ensures i >= 0 ==> gs[i].key == key
    ensures i == -1 ==> forall j :: 0 <= j < |gs| ==> gs[j].key != key
  {
    if gs == [] then -1
    else if gs[|gs| - 1].key == key then |gs| - 1
    else IndexOfGroup(gs[..|gs| - 1], key)
  }

  datatype Op = Publish(event: Event, op: Option<OperationId>, call: Option<ModelCallId>) | Take | Clear

  function IdealStep(gs: seq<Group>, cap: nat, op: Op): seq<Group> {
    match op
    case Publish(event, operation, call) =>
      (var key := KeyOf(event, operation, call);
       if key.None? then gs
       else
         var i := IndexOfGroup(gs, key.value);
         if i >= 0 then gs[i := gs[i].(events := gs[i].events + [event])]
         else (if |gs| >= cap && gs != [] then gs[1..] else gs) + [Group(key.value, [event])])
    case Take => if gs == [] then gs else gs[1..]
    case Clear => []
  }

  function ListStep(c: seq<(Key, Event)>, cap: nat, op: Op): seq<(Key, Event)> {
    match op
    case Publish(event, operation, call) => Published(c, cap, event, operation, call)
    case Take => if c == [] then c else c[1..]
    case Clear => []
  }

  function IdealRun(cap: nat, ops: seq<Op>): seq<Group> {
    if ops == [] then [] else IdealStep(IdealRun(cap, ops[..|ops| - 1]), cap, ops[|ops| - 1])
  }

  function ListRun(cap: nat, ops: seq<Op>): seq<(Key, Event)> {
    if ops == [] then [] else ListStep(ListRun(cap, ops[..|ops| - 1]), cap, ops[|ops| - 1])
  }

  ghost predicate Matches(c: seq<(Key, Event)>, gs: seq<Group>) {
    && |c| == |gs|
    && forall i :: 0 <= i < |gs| ==> GroupOk(gs[i]) && c[i] == (gs[i].key, Rendered(gs[i]))
  }

  lemma TruncateTwice(a: Text, b: Text)
    ensures Truncate(Truncate(a) + b) == Truncate(a + b)
  {
    if |a| > DELTA_MERGE_CHUNK_MAX {
      assert (Truncate(a) + b)[..DELTA_MERGE_CHUNK_MAX] == a[..DELTA_MERGE_CHUNK_MAX] == (a + b)[..DELTA_MERGE_CHUNK_MAX];
    }
  }

  lemma JoinedSnoc(es: seq<Event>, event: Event)
    requires es != []
    ensures Joined(es + [event]) == Truncate(Joined(es) + TextOf(event))
  {
    assert (es + [event])[..|es|] == es;
    TruncateTwice(Concat(es), TextOf(event));
  }

  lemma OverwriteRenders(g: Group, event: Event)
    requires GroupOk(g) && SlotFits(g.key, event)
    ensures Overwrite(Rendered(g), event) == Rendered(g.(events := g.events + [event]))
  {
    JoinedSnoc(g.events, event);
    assert SlotFits(g.key, g.events[|g.events| - 1]);
  }

  lemma {:induction false} SameIndex(c: seq<(Key, Event)>, gs: seq<Group>, key: Key)
    requires Matches(c, gs)
    ensures IndexOf(c, key) == IndexOfGroup(gs, key)
  {
    if c != [] {
      SameIndex(c[..|c| - 1], gs[..|gs| - 1], key);
    }
  }

  lemma KeyFits(event: Event, op: Option<OperationId>, call: Option<ModelCallId>)
    requires KeyOf(event, op, call).Some?
    ensures SlotFits(KeyOf(event, op, call).value, event)
  {
  }

  lemma FreshGroup(event: Event, op: Option<OperationId>, call: Option<ModelCallId>)
    requires KeyOf(event, op, call).Some?
    ensures GroupOk(Group(KeyOf(event, op, call).value, [event]))
    ensures Rendered(Group(KeyOf(event, op, call).value, [event])) == event
  {
    KeyFits(event, op, call);
    assert [event][..0] == [];
    assert Concat([event]) == [] + TextOf(event);
  }

  lemma RefineStep(cap: nat, c: seq<(Key, Event)>, gs: seq<Group>, op: Op)
    requires Matches(c, gs)
    ensures Matches(ListStep(c, cap, op), IdealStep(gs, cap, op))
  {
    if op.Publish? && KeyOf(op.event, op.op, op.call).Some? {
      var key := KeyOf(op.event, op.op, op.call).value;
      SameIndex(c, gs, key);
      KeyFits(op.event, op.op, op.call);
      var i := IndexOf(c, key);
      if i >= 0 {
        OverwriteRenders(gs[i], op.event);
      } else {
        FreshGroup(op.event, op.op, op.call);
      }
    }
  }

  /** Over every sequence of publications, takes and clears, the store holds exactly what the
      ideal store would show: keys in order of first publication, text cut to the first
      DELTA_MERGE_CHUNK_MAX bytes of everything published, other kinds by the last event. */
  lemma {:induction false} CoalescerRefines(cap: nat, ops: seq<Op>)
    ensures Matches(ListRun(cap, ops), IdealRun(cap, ops))
  {
    if ops != [] {
      CoalescerRefines(cap, ops[..|ops| - 1]);
      RefineStep(cap, ListRun(cap, ops[..|ops| - 1]), IdealRun(cap, ops[..|ops| - 1]), ops[|ops| - 1]);
    }
  }

  /** The keys held are pairwise different and never more than the cap. */
  lemma {:induction false} CoalescerBounded(cap: nat, ops: seq<Op>)
    requires cap >= 1
    ensures |IdealRun(cap, ops)| <= cap
    ensures forall i, j :: 0 <= i < j < |IdealRun(cap, ops)| ==> IdealRun(cap, ops)[i].key != IdealRun(cap, ops)[j].key
  {
    if ops != [] {
      CoalescerBounded(cap, ops[..|ops| - 1]);
    }
  }
}
