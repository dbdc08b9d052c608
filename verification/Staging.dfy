/** The bounded FIFO of reliable events shared by the coordinator and the supervisor. */
module Staging {
  import opened Wrappers
  import opened Identifiers
  import opened RuntimeEvents

  /** Most reliable events one producer handler stages. */
  const PRODUCER_STAGING_RESERVE: nat := 2

  class ReliableStaging {
    const cap: nat
    var queue: seq<Event>

    ghost predicate Valid()
      reads this
    {
      |queue| <= cap
    }

    constructor (cap: nat)
      ensures Valid() && this.cap == cap && queue == []
    {
      this.cap := cap;
      queue := [];
    }

    function Remaining(): (n: nat)
      reads this
      ensures Valid() ==> n + |queue| == cap
    {
      if |queue| <= cap then cap - |queue| else 0
    }

    predicate CanAcceptProducer()
      reads this
    {
      Remaining() >= PRODUCER_STAGING_RESERVE
    }

    method Push(event: Event) returns (ok: bool)
      requires Valid()
      modifies this
      ensures Valid()
      ensures ok == (old(|queue|) < cap)
      ensures queue == if ok then old(queue) + [event] else old(queue)
    {
      if |queue| >= cap {
        return false;
      }
      queue := queue + [event];
      return true;
    }

    method PopFront() returns (event: Option<Event>)
      requires Valid()
      modifies this
      ensures Valid()
      ensures old(queue) == [] ==> event == None && queue == []
      ensures old(queue) != [] ==> event == Some(old(queue)[0]) && queue == old(queue)[1..]
    {
      if queue == [] {
        return None;
      }
      event := Some(queue[0]);
      queue := queue[1..];
    }

    method PushFront(event: Event)
      requires Valid() && |queue| < cap
      modifies this
      ensures Valid() && queue == [event] + old(queue)
    {
      queue := [event] + queue;
    }

    method Clear()
      requires Valid()
      modifies this
      ensures Valid() && queue == []
    {
      queue := [];
    }

    method Drain() returns (events: seq<Event>)
      requires Valid()
      modifies this
      ensures Valid() && events == old(queue) && queue == []
    {
      events := queue;
      queue := [];
    }
  }
}
