/** The operations accepted in this epoch and not yet settled, in admission order. */
module Ledger {
  import opened Wrappers
  import opened Identifiers
  import opened RuntimeEvents
  import opened EpochProtocol

  /** `order` without the one id. */
  function Retain(order: seq<OperationId>, id: OperationId): seq<OperationId> {
    if order == [] then []
    else
      var init := Retain(order[..|order| - 1], id);
      if order[|order| - 1] == id then init else init + [order[|order| - 1]]
  }

  /** The entries named by `order`. */
  function Entries(order: seq<OperationId>, states: map<OperationId, LedgerEntry>): (es: seq<LedgerEntry>)
    requires forall id :: id in order ==> id in states
    ensures |es| == |order|
    ensures forall i :: 0 <= i < |order| ==> es[i] == states[order[i]]
  {
    seq(|order|, i requires 0 <= i < |order| && order[i] in states => states[order[i]])
  }

  lemma {:induction false} RetainMembers(order: seq<OperationId>, id: OperationId, x: OperationId)
    ensures x in Retain(order, id) <==> x in order && x != id
    ensures |Retain(order, id)| <= |order|
    ensures id !in order ==> Retain(order, id) == order
  {
    if order != [] {
      RetainMembers(order[..|order| - 1], id, x);
      assert order == order[..|order| - 1] + [order[|order| - 1]];
    }
  }

  lemma {:induction false} RetainDistinct(order: seq<OperationId>, id: OperationId)
    requires forall i, j :: 0 <= i < j < |order| ==> order[i] != order[j]
    ensures forall i, j :: 0 <= i < j < |Retain(order, id)| ==> Retain(order, id)[i] != Retain(order, id)[j]
  {
    if order != [] {
      RetainDistinct(order[..|order| - 1], id);
      RetainMembers(order[..|order| - 1], id, order[|order| - 1]);
    }
  }

  lemma {:induction false} RetainEntries(order: seq<OperationId>, states: map<OperationId, LedgerEntry>, id: OperationId)
    requires forall x :: x in order ==> x in states && states[x].operationId == x
    requires forall x :: x in Retain(order, id) ==> x in order && x != id
    ensures Entries(Retain(order, id), states - {id}) == Drop(Entries(order, states), {id})
  {
    if order != [] {
      var init := order[..|order| - 1];
      forall x | x in Retain(init, id) ensures x in init && x != id {
        RetainMembers(init, id, x);
      }
      RetainEntries(init, states, id);
      assert Entries(order, states)[..|order| - 1] == Entries(init, states);
    }
  }

  class AcceptedLedger {
    const cap: nat
    var order: seq<OperationId>
    var states: map<OperationId, LedgerEntry>

    ghost predicate Valid()
      reads this
    {
      && |order| <= cap
      && (forall i, j :: 0 <= i < j < |order| ==> order[i] != order[j])
      && (forall id :: id in states <==> id in order)
      && (forall id :: id in states ==> states[id].operationId == id)
    }

    constructor (cap: nat)
      ensures Valid() && this.cap == cap && order == [] && states == map[]
    {
      this.cap := cap;
      order, states := [], map[];
    }

    ghost function Contents(): (es: seq<LedgerEntry>)
      reads this
      requires Valid()
      ensures |es| == |order|
      ensures forall i :: 0 <= i < |order| ==> es[i] == states[order[i]]
    {
      Entries(order, states)
    }

    lemma HoldsIsMember(id: OperationId)
      requires Valid()
      ensures Holds(Contents(), id) <==> id in states
    {
      if id in states {
        var i :| 0 <= i < |order| && order[i] == id;
        assert Contents()[i].operationId == id;
      }
    }

    lemma EntryOfId(entry: LedgerEntry)
      requires Valid() && entry in Contents()
      ensures entry.operationId in states && states[entry.operationId] == entry
    {
      var i :| 0 <= i < |order| && Contents()[i] == entry;
      assert order[i] in order;
    }

    method Insert(entry: LedgerEntry) returns (ok: bool)
      requires Valid()
      modifies this
      ensures Valid()
      ensures ok == (entry.operationId in old(states) || old(|order|) < cap)
      ensures states == if ok && entry.operationId !in old(states) then old(states)[entry.operationId := entry] else old(states)
      ensures Contents() == if ok && entry.operationId !in old(states) then old(Contents()) + [entry] else old(Contents())
    {
      if entry.operationId in states {
        return true;
      }
      if |order| >= cap {
        return false;
      }
      order := order + [entry.operationId];
      states := states[entry.operationId := entry];
      return true;
    }

    function SessionOf(id: OperationId): (session: Option<SessionId>)
      reads this
      ensures session.Some? <==> id in states
    {
      if id in states then Some(states[id].sessionId) else None
    }

    method Remove(id: OperationId) returns (existed: bool)
      requires Valid()
      modifies this
      ensures Valid()
      ensures existed == (id in old(states))
      ensures states == old(states) - {id}
      ensures Contents() == Drop(old(Contents()), {id})
    {
      existed := id in states;
      RetainEntriesOf(id);
      RetainDistinct(order, id);
      forall x ensures x in Retain(order, id) <==> x in order && x != id { RetainMembers(order, id, x); }
      RetainMembers(order, id, id);
      states := states - {id};
      if existed {
        order := Retain(order, id);
      }
    }

    lemma RetainEntriesOf(id: OperationId)
      requires Valid()
      ensures forall x :: x in Retain(order, id) ==> x in order && x != id
      ensures Entries(Retain(order, id), states - {id}) == Drop(Contents(), {id})
    {
      forall x | x in Retain(order, id) ensures x in order && x != id { RetainMembers(order, id, x); }
      RetainEntries(order, states, id);
    }

    /** Empties the ledger, handing out its entries in admission order. */
    method TakeAll() returns (entries: seq<LedgerEntry>)
      requires Valid()
      modifies this
      ensures Valid() && entries == old(Contents()) && Contents() == []
    {
      var ids, rest := order, states;
      ghost var all := states;
      order, states := [], map[];
      entries := [];
      for i := 0 to |ids|
        invariant |entries| == i
        invariant forall j :: 0 <= j < i ==> entries[j] == all[ids[j]]
        invariant forall j :: i <= j < |ids| ==> ids[j] in rest && rest[ids[j]] == all[ids[j]]
      {
        if ids[i] in rest {
          entries := entries + [rest[ids[i]]];
          rest := rest - {ids[i]};
        }
      }
    }
  }
}
