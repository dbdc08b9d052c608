/** The per-session cache: stamps in a map, evicting the smallest, against an ideal recency list. */
module GenerationCache {
  import opened Wrappers

  const U64_MAX: nat := 0xFFFF_FFFF_FFFF_FFFF

  datatype Slot<V> = Slot(stamp: nat, value: V)

  /** Keys and values, least recently touched first. */
  type Recency<V> = seq<(string, V)>

  function IndexOf<V>(list: Recency<V>, key: string): (i: int)
    ensures -1 <= i < |list|
    ensures i >= 0 ==> list[i].0 == key
    ensures i == -1 ==> forall j :: 0 <= j < |list| ==> list[j].0 != key
  {
    if list == [] then -1
    else if list[|list| - 1].0 == key then |list| - 1
    else IndexOf(list[..|list| - 1], key)
  }

  function Without<V>(list: Recency<V>, key: string): Recency<V> {
    var i := IndexOf(list, key);
    if i < 0 then list else list[..i] + list[i + 1..]
  }

  function Lookup<V>(list: Recency<V>, key: string): Option<V> {
    var i := IndexOf(list, key);
    if i < 0 then None else Some(list[i].1)
  }

  function Touched<V>(list: Recency<V>, key: string): Recency<V> {
    var i := IndexOf(list, key);
    if i < 0 then list else Without(list, key) + [list[i]]
  }

  /** A new key into a full cache drops the head of the list. */
  function Stored<V>(list: Recency<V>, key: string, value: V, capacity: nat): Recency<V> {
    if IndexOf(list, key) >= 0 then Without(list, key) + [(key, value)]
    else if |list| >= capacity && list != [] then list[1..] + [(key, value)]
    else list + [(key, value)]
  }

  ghost predicate Distinct<V>(list: Recency<V>) {
    forall i, j :: 0 <= i < j < |list| ==> list[i].0 != list[j].0
  }

  lemma WithoutFacts<V>(list: Recency<V>, key: string)
    requires Distinct(list)
    ensures Distinct(Without(list, key)) && IndexOf(Without(list, key), key) == -1
    ensures forall e :: e in Without(list, key) <==> e in list && e.0 != key
    ensures |Without(list, key)| == if IndexOf(list, key) >= 0 then |list| - 1 else |list|
  {
    var i := IndexOf(list, key);
    if i >= 0 {
      var rest := list[..i] + list[i + 1..];
      forall e | e in list && e.0 != key ensures e in rest {
        var j :| 0 <= j < |list| && list[j] == e;
        assert e == if j < i then rest[j] else rest[j - 1];
      }
    } else {
      assert forall e :: e in list ==> e.0 != key;
    }
  }

  /** The list holds exactly the map's entries. */
  ghost predicate Agrees<V>(entries: map<string, Slot<V>>, list: Recency<V>, tick: nat) {
    && Distinct(list)
    && (forall i :: 0 <= i < |list| ==> list[i].0 in entries && entries[list[i].0].value == list[i].1)
    && (forall k :: k in entries ==> entries[k].stamp <= tick && IndexOf(list, k) >= 0)
  }

  /** Along the list the stamps increase. */
  ghost predicate Ascending<V>(entries: map<string, Slot<V>>, list: Recency<V>) {
    forall i, j :: 0 <= i < j < |list| && list[i].0 in entries && list[j].0 in entries ==>
      entries[list[i].0].stamp < entries[list[j].0].stamp
  }

  lemma MemberAgrees<V>(entries: map<string, Slot<V>>, list: Recency<V>, tick: nat, key: string)
    requires Agrees(entries, list, tick)
    ensures key in entries <==> IndexOf(list, key) >= 0
    ensures key in entries ==> Lookup(list, key) == Some(entries[key].value)
    ensures list == [] ==> entries == map[]
  {
    hide IndexOf;
  }

  lemma {:induction false} CountAgrees<V>(entries: map<string, Slot<V>>, list: Recency<V>, tick: nat)
    requires Agrees(entries, list, tick)
    ensures |entries| == |list|
  {
    hide IndexOf;
    if list == [] {
      assert entries == map[];
    } else {
      var key := list[|list| - 1].0;
      var i := IndexOf(list, key);
      assert list[i].0 == list[|list| - 1].0;
      RemoveAgrees(entries, list, tick, key);
      assert Without(list, key) == list[..|list| - 1];
      CountAgrees(entries - {key}, list[..|list| - 1], tick);
      assert entries.Keys == (entries - {key}).Keys + {key};
    }
  }

  /** Where the elements of a shorter list come from. */
  lemma WithoutAt<V>(list: Recency<V>, key: string)
    ensures IndexOf(list, key) < 0 ==> Without(list, key) == list
    ensures IndexOf(list, key) >= 0 ==>
              var i, rest := IndexOf(list, key), Without(list, key);
              && |rest| == |list| - 1
              && (forall j :: 0 <= j < i ==> rest[j] == list[j])
              && (forall j :: i <= j < |rest| ==> rest[j] == list[j + 1])
  {
    hide IndexOf;
  }

  /** A key without its entry. */
  lemma RemoveAgrees<V>(entries: map<string, Slot<V>>, list: Recency<V>, tick: nat, key: string)
    requires Agrees(entries, list, tick)
    ensures Agrees(entries - {key}, Without(list, key), tick)
    ensures Ascending(entries, list) ==> Ascending(entries - {key}, Without(list, key))
  {
    hide IndexOf, Without;
    WithoutFacts(list, key);
    WithoutAt(list, key);
    var rest := Without(list, key);
    forall j | 0 <= j < |rest| ensures rest[j].0 in entries - {key} && entries[rest[j].0].value == rest[j].1 {
      assert rest[j] in rest;
    }
    forall k | k in entries && k != key ensures IndexOf(rest, k) >= 0 {
      assert list[IndexOf(list, k)] in list;
      assert list[IndexOf(list, k)] in rest;
    }
  }

  /** A new key with the newest stamp. */
  lemma InsertAgrees<V>(entries: map<string, Slot<V>>, list: Recency<V>, tick: nat, key: string, value: V)
    requires Agrees(entries, list, tick) && key !in entries
    ensures Agrees(entries[key := Slot(tick, value)], list + [(key, value)], tick)
    ensures Ascending(entries, list) && (forall k :: k in entries ==> entries[k].stamp < tick) ==>
              Ascending(entries[key := Slot(tick, value)], list + [(key, value)])
  {
    hide IndexOf;
    var after := list + [(key, value)];
    assert after[|list|].0 == key;
    forall k | k in entries ensures IndexOf(after, k) >= 0 {
      assert after[IndexOf(list, k)].0 == k;
    }
  }

  class SessionGenerationCache<V> {
    const capacity: nat
    var entries: map<string, Slot<V>>
    var tick: nat
    ghost var recency: Recency<V>

    ghost predicate Valid()
      reads this
    {
      && tick <= U64_MAX && Agrees(entries, recency, tick)
      && |recency| <= if capacity >= 1 then capacity else 1
    }

    /** Holds until the counter saturates. */
    ghost predicate Ordered()
      reads this
    {
      Ascending(entries, recency)
    }

    constructor (capacity: nat)
      ensures Valid() && Ordered() && recency == [] && this.capacity == capacity && tick == 0
    {
      this.capacity, entries, tick, recency := capacity, map[], 0, [];
    }

    method NextTick() returns (t: nat)
      requires Valid()
      modifies this`tick
      ensures Valid() && t == tick && tick == if old(tick) < U64_MAX then old(tick) + 1 else U64_MAX
    {
      if tick < U64_MAX {
        tick := tick + 1;
      }
      t := tick;
    }

    /** Looks a session up and makes it the most recently touched one. */
    method Get(key: string) returns (value: Option<V>)
      requires Valid()
      modifies this
      ensures Valid() && value == Lookup(old(recency), key) && recency == Touched(old(recency), key)
      ensures old(Ordered()) && old(tick) < U64_MAX ==> Ordered()
    {
      hide Agrees, Ascending;
      MemberAgrees(entries, recency, tick, key);
      StampsBelow();
      var t := NextTick();
      if key !in entries {
        return None;
      }
      value := Some(entries[key].value);
      Restamp(key, entries[key].value, t);
    }

    lemma StampsBelow()
      requires Valid()
      ensures forall k :: k in entries ==> entries[k].stamp <= tick
    {
    }

    method Restamp(key: string, value: V, t: nat)
      requires Valid() && key in entries && t == tick
      modifies this`entries, this`recency
      ensures Valid() && recency == Without(old(recency), key) + [(key, value)]
      ensures (old(Ordered()) && forall k :: k in old(entries) ==> old(entries)[k].stamp < t) ==> Ordered()
    {
      hide Agrees, Ascending;
      MemberAgrees(entries, recency, tick, key);
      WithoutFewer(recency, key);
      RemoveAgrees(entries, recency, tick, key);
      InsertAgrees(entries - {key}, Without(recency, key), tick, key, value);
      assert entries[key := Slot(t, value)] == (entries - {key})[key := Slot(t, value)];
      entries := entries[key := Slot(t, value)];
      recency := Without(recency, key) + [(key, value)];
    }

    /** Stores a session's value; a new session pushes the least recently touched one out of a
        full cache. */
    method Put(key: string, value: V)
      requires Valid()
      modifies this
      ensures Valid()
      ensures old(Ordered()) && old(tick) < U64_MAX ==> Ordered() && recency == Stored(old(recency), key, value, capacity)
    {
      hide Agrees, Ascending;
      MemberAgrees(entries, recency, tick, key);
      CountAgrees(entries, recency, tick);
      StampsBelow();
      if key in entries {
        var t := NextTick();
        Restamp(key, value, t);
        return;
      }
      if |entries| >= capacity {
        EvictLru();
      }
      StampsBelow();
      var t := NextTick();
      InsertNew(key, value, t);
    }

    method InsertNew(key: string, value: V, t: nat)
      requires Valid() && key !in entries && t == tick && |recency| < if capacity >= 1 then capacity else 1
      modifies this`entries, this`recency
      ensures Valid() && recency == old(recency) + [(key, value)]
      ensures (old(Ordered()) && forall k :: k in old(entries) ==> old(entries)[k].stamp < t) ==> Ordered()
    {
      hide Agrees, Ascending;
      InsertAgrees(entries, recency, tick, key, value);
      entries := entries[key := Slot(t, value)];
      recency := recency + [(key, value)];
    }

    /** Explicitly removes a session. */
    method Remove(key: string)
      requires Valid()
      modifies this`entries, this`recency
      ensures Valid() && recency == Without(old(recency), key)
      ensures old(Ordered()) ==> Ordered()
    {
      hide Agrees, Ascending, Without, IndexOf;
      RemoveAgrees(entries, recency, tick, key);
      WithoutFewer(recency, key);
      entries := entries - {key};
      recency := Without(recency, key);
    }

    /** Drops the entry with the smallest stamp. */
    method EvictLru()
      requires Valid()
      modifies this`entries, this`recency
      ensures Valid() && (old(entries) != map[] ==> |recency| == |old(recency)| - 1)
      ensures old(Ordered()) ==> Ordered() && recency == if old(recency) == [] then [] else old(recency)[1..]
      ensures old(recency) == [] ==> recency == []
      ensures forall k :: k in entries ==> k in old(entries) && entries[k] == old(entries)[k]
    {
      hide Agrees, Ascending, Without, IndexOf;
      if entries == map[] {
        EmptyAgrees(entries, recency, tick);
        return;
      }
      var least := LeastStamp();
      LeastIsFirst(entries, recency, tick, least);
      RemoveAgrees(entries, recency, tick, least);
      WithoutFewer(recency, least);
      MemberAgrees(entries, recency, tick, least);
      entries := entries - {least};
      recency := Without(recency, least);
    }

    /** The key whose stamp is smallest. */
    method LeastStamp() returns (least: string)
      requires entries != map[]
      ensures least in entries && forall k :: k in entries ==> entries[least].stamp <= entries[k].stamp
    {
      var keys := entries.Keys;
      least :| least in keys;
      var left := keys - {least};
      while left != {}
        invariant least in entries && left < keys
        invariant forall k :: k in keys && k !in left ==> entries[least].stamp <= entries[k].stamp
        decreases left
      {
        var k: string :| k in left;
        if entries[k].stamp < entries[least].stamp {
          least := k;
        }
        left := left - {k};
      }
    }
  }

  lemma EmptyAgrees<V>(entries: map<string, Slot<V>>, list: Recency<V>, tick: nat)
    requires Agrees(entries, list, tick) && entries == map[]
    ensures list == []
  {
    CountAgrees(entries, list, tick);
  }

  lemma WithoutFewer<V>(list: Recency<V>, key: string)
    ensures |Without(list, key)| == if IndexOf(list, key) >= 0 then |list| - 1 else |list|
  {
  }

  lemma LeastIsFirst<V>(entries: map<string, Slot<V>>, list: Recency<V>, tick: nat, least: string)
    requires Agrees(entries, list, tick) && least in entries
    requires forall k :: k in entries ==> entries[least].stamp <= entries[k].stamp
    ensures Ascending(entries, list) ==> list != [] && list[0].0 == least && Without(list, least) == list[1..]
  {
    hide IndexOf;
    MemberAgrees(entries, list, tick, least);
    if Ascending(entries, list) {
      var i := IndexOf(list, least);
      assert list[0].0 in entries && list[i].0 in entries;
      assert i == 0;
      WithoutAt(list, least);
      assert list[..0] + list[1..] == list[1..];
    }
  }

  // ---- what the list means ----

  datatype Op<V> = GetOp(key: string) | PutOp(key: string, value: V) | RemoveOp(key: string)

  function Apply<V>(list: Recency<V>, op: Op<V>, capacity: nat): Recency<V> {
    match op
    case GetOp(key) => Touched(list, key)
    case PutOp(key, value) => Stored(list, key, value, capacity)
    case RemoveOp(key) => Without(list, key)
  }

  /** The recency list after a history of operations. */
  function After<V>(ops: seq<Op<V>>, capacity: nat): Recency<V> {
    if ops == [] then [] else Apply(After(ops[..|ops| - 1], capacity), ops[|ops| - 1], capacity)
  }

  /** When a key was last used. */
  function LastUse<V>(ops: seq<Op<V>>, key: string): int {
    if ops == [] then -1
    else if ops[|ops| - 1].key == key then |ops| - 1
    else LastUse(ops[..|ops| - 1], key)
  }

  /** The value last put under a key and not removed since. */
  function LastPut<V>(ops: seq<Op<V>>, key: string): Option<V> {
    if ops == [] then None
    else match ops[|ops| - 1]
      case PutOp(k, value) => if k == key then Some(value) else LastPut(ops[..|ops| - 1], key)
      case RemoveOp(k) => if k == key then None else LastPut(ops[..|ops| - 1], key)
      case GetOp(_) => LastPut(ops[..|ops| - 1], key)
  }

  /** Distinct keys in the order of their last use, with the values last put. */
  ghost predicate Faithful<V>(list: Recency<V>, ops: seq<Op<V>>) {
    && Distinct(list)
    && (forall i, j :: 0 <= i < j < |list| ==> LastUse(ops, list[i].0) < LastUse(ops, list[j].0))
    && (forall i :: 0 <= i < |list| ==> LastUse(ops, list[i].0) < |ops| && LastPut(ops, list[i].0) == Some(list[i].1))
  }

  /** One more operation leaves what other keys mean alone. */
  lemma OtherKeys<V>(list: Recency<V>, ops: seq<Op<V>>, op: Op<V>)
    requires Faithful(list, ops) && (forall i :: 0 <= i < |list| ==> list[i].0 != op.key)
    ensures Faithful(list, ops + [op])
  {
    assert (ops + [op])[..|ops|] == ops;
  }

  lemma NewestLast<V>(list: Recency<V>, ops: seq<Op<V>>, op: Op<V>, value: V)
    requires Faithful(list, ops + [op]) && (forall i :: 0 <= i < |list| ==> list[i].0 != op.key)
    requires LastPut(ops + [op], op.key) == Some(value)
    ensures Faithful(list + [(op.key, value)], ops + [op])
  {
    hide LastPut;
    var after := list + [(op.key, value)];
    assert (ops + [op])[..|ops|] == ops;
    forall i | 0 <= i < |list| ensures LastUse(ops + [op], list[i].0) < |ops| {
      LastUseBound(ops, list[i].0);
    }
    assert forall i :: 0 <= i < |list| ==> after[i] == list[i];
  }

  lemma LastUseBound<V>(ops: seq<Op<V>>, key: string)
    ensures -1 <= LastUse(ops, key) < |ops|
  {
  }

  lemma WithoutFaithful<V>(list: Recency<V>, ops: seq<Op<V>>, key: string)
    requires Faithful(list, ops)
    ensures Faithful(Without(list, key), ops)
    ensures forall i :: 0 <= i < |Without(list, key)| ==> Without(list, key)[i].0 != key
  {
    hide LastUse, LastPut, Without, IndexOf;
    WithoutAt(list, key);
    WithoutFacts(list, key);
    forall i | 0 <= i < |Without(list, key)| ensures Without(list, key)[i].0 != key {
      assert Without(list, key)[i] in Without(list, key);
    }
  }

  /** The list is the history in short: each key at its last use, with the value last put, and
      what a full cache drops is the key whose last use is longest ago. */
  lemma {:induction false} AfterIsFaithful<V>(ops: seq<Op<V>>, capacity: nat)
    ensures Faithful(After(ops, capacity), ops)
  {
    hide LastUse, LastPut, Without, IndexOf, Faithful;
    if ops == [] {
      NothingIsFaithful<V>();
    } else {
      var init, op := ops[..|ops| - 1], ops[|ops| - 1];
      assert ops == init + [op];
      AfterIsFaithful(init, capacity);
      OneMoreFaithful(After(init, capacity), init, op, capacity);
    }
  }

  lemma NothingIsFaithful<V>()
    ensures Faithful<V>([], [])
  {
  }

  lemma OneMoreFaithful<V>(list: Recency<V>, ops: seq<Op<V>>, op: Op<V>, capacity: nat)
    requires Faithful(list, ops)
    ensures Faithful(Apply(list, op, capacity), ops + [op])
  {
    hide LastUse, Without, IndexOf;
    var rest, i := Without(list, op.key), IndexOf(list, op.key);
    WithoutFaithful(list, ops, op.key);
    OtherKeys(rest, ops, op);
    assert (ops + [op])[..|ops|] == ops;
    NoSuchKey(list, op.key);
    match op
    case RemoveOp(_) =>
    case GetOp(key) =>
      if i >= 0 {
        NewestLast(rest, ops, op, list[i].1);
      }
    case PutOp(key, value) =>
      NewestLast(rest, ops, op, value);
      if i < 0 && |list| >= capacity && list != [] {
        TailFaithful(list, ops + [op]);
        NewestLast(list[1..], ops, op, value);
      }
  }

  lemma NoSuchKey<V>(list: Recency<V>, key: string)
    ensures IndexOf(list, key) < 0 ==> Without(list, key) == list
  {
  }

  lemma TailFaithful<V>(list: Recency<V>, ops: seq<Op<V>>)
    requires Faithful(list, ops) && list != []
    ensures Faithful(list[1..], ops)
  {
    hide LastUse, LastPut;
    assert forall i :: 0 <= i < |list[1..]| ==> list[1..][i] == list[i + 1];
  }
}
