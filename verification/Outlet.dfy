/**
 The bounded event channel to the consumer. The consumer is concurrent: it may take
 buffered events, or drop its receiver, between any two accesses of the runtime. One that is
 `patient` never drops it, and one that is `idle` takes only what `Take` gives it.
 */
module Outlet {
  import opened RuntimeEvents

  datatype SendResult = Sent | Full | Closed

  class EventOutlet {
    const cap: nat
    const patient: bool
    const idle: bool
    var buffer: seq<Event>
    var closed: bool
    ghost var sent: seq<Event>   // everything ever accepted, oldest first
    ghost var taken: seq<Event>  // what the consumer already received

    ghost predicate Valid()
      reads this
    {
      && |buffer| <= cap && sent == taken + buffer
      && (patient ==> !closed)
    }

    predicate IsFull()
      reads this
    {
      |buffer| >= cap
    }

    constructor (cap: nat, patient: bool, idle: bool)
      ensures Valid() && this.cap == cap && this.patient == patient && this.idle == idle
      ensures sent == [] && taken == [] && !closed
    {
      this.cap, this.patient, this.idle := cap, patient, idle;
      buffer, closed, sent, taken := [], false, [], [];
    }

    /** The consumer acts: it takes some events in order, and may close the channel. */
    method Consumer()
      requires Valid()
      modifies this
      ensures Valid() && sent == old(sent) && (old(closed) ==> closed)
      ensures old(taken) <= taken && |buffer| <= old(|buffer|) && (idle ==> taken == old(taken))
    {
      var n: int := *;
      if !idle && 0 <= n <= |buffer| {
        taken := taken + buffer[..n];
        buffer := buffer[n..];
        assert old(buffer) == old(buffer)[..n] + old(buffer)[n..];
      }
      var quit: bool := *;
      if quit && !patient {
        closed := true;
      }
    }

    /** An idle consumer takes everything there is. */
    method Take()
      requires Valid()
      modifies this
      ensures Valid() && sent == old(sent) && closed == old(closed) && buffer == []
      ensures taken == old(taken) + old(buffer)
    {
      taken, buffer := taken + buffer, [];
    }

    method TrySend(event: Event) returns (result: SendResult)
      requires Valid()
      modifies this
      ensures Valid() && (old(closed) ==> closed) && old(taken) <= taken && (idle ==> taken == old(taken))
      ensures closed == result.Closed?
      ensures sent == if result.Sent? then old(sent) + [event] else old(sent)
      ensures old(|buffer|) < cap ==> !result.Full?
      ensures result.Full? ==> IsFull()
    {
      Consumer();
      if closed {
        return Closed;
      }
      if |buffer| >= cap {
        return Full;
      }
      buffer, sent := buffer + [event], sent + [event];
      return Sent;
    }

    /** Waits for room until a deadline, which may already have passed; `Full` is the timeout. */
    method SendBefore(event: Event) returns (result: SendResult)
      requires Valid()
      modifies this
      ensures Valid() && (old(closed) ==> closed) && old(taken) <= taken && (idle ==> taken == old(taken))
      ensures closed == result.Closed?
      ensures sent == if result.Sent? then old(sent) + [event] else old(sent)
    {
      if closed {
        return Closed;
      }
      var expired: bool := *;
      if expired {
        return Full;
      }
      result := TrySend(event);
    }
  }
}
