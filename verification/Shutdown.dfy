/** Monotone shutdown: merging requests in the watch slot, and what the coordinator makes of them. */
module Shutdown {
  import opened Wrappers

  datatype Mode = DrainMode | ForcedMode
  datatype Request = Request(mode: Mode, deadline: int)
  datatype State = Running | Draining | Forced | Stopped

  /** The coordinator's shutdown fields. */
  datatype Level = Level(state: State, deadline: Option<int>)

  function Min(a: int, b: int): int {
    if a <= b then a else b
  }

  function StrongerMode(left: Mode, right: Mode): Mode {
    match (left, right)
    case (ForcedMode, _) => ForcedMode
    case (_, ForcedMode) => ForcedMode
    case (DrainMode, DrainMode) => DrainMode
  }

  function MergeShutdown(current: Option<Request>, incoming: Request): Request {
    match current
    case None => incoming
    case Some(existing) =>
      Request(StrongerMode(existing.mode, incoming.mode), Min(existing.deadline, incoming.deadline))
  }

  /** How one observed request moves the shutdown fields. */
  function Begin(level: Level, request: Request): Level {
    if level.state.Stopped? then level
    else
      var deadline := if level.deadline.Some? then Min(level.deadline.value, request.deadline) else request.deadline;
      match level.state
      case Running => Level(if request.mode.DrainMode? then Draining else Forced, Some(deadline))
      case Draining => Level(if request.mode.ForcedMode? then Forced else Draining, Some(deadline))
      case _ => Level(level.state, Some(deadline))
  }

  function Rank(state: State): nat {
    match state
    case Running => 0
    case Draining => 1
    case Forced => 2
    case Stopped => 3
  }

  /** The coordinator has climbed at least as far, under at most as late a deadline. */
  predicate AtLeast(later: Level, earlier: Level) {
    && Rank(later.state) >= Rank(earlier.state)
    && (earlier.deadline.Some? ==> later.deadline.Some? && later.deadline.value <= earlier.deadline.value)
  }

  /** The watch slot after all of `requests` were merged into it. */
  function Slot(requests: seq<Request>): Option<Request> {
    if requests == [] then None
    else Some(MergeShutdown(Slot(requests[..|requests| - 1]), requests[|requests| - 1]))
  }

  /** The coordinator looks at the slot after each of the given numbers of merges. */
  function Observe(level: Level, requests: seq<Request>, looks: seq<nat>): Level
    requires forall i :: 0 <= i < |looks| ==> looks[i] <= |requests|
  {
    if looks == [] then level
    else
      var before := Observe(level, requests, looks[..|looks| - 1]);
      var slot := Slot(requests[..looks[|looks| - 1]]);
      if slot.None? then before else Begin(before, slot.value)
  }

  /** Merging is the join of the stronger mode and the earlier deadline: associative and idempotent. */
  lemma {:induction false} SlotGrows(requests: seq<Request>, n: nat)
    requires n <= |requests|
    ensures Slot(requests[..n]).Some? ==>
      && Slot(requests).Some?
      && MergeShutdown(Slot(requests[..n]), Slot(requests).value) == Slot(requests).value
    decreases |requests| - n
  {
    if n == |requests| {
      assert requests[..n] == requests;
    } else {
      SlotGrows(requests, n + 1);
      assert requests[..n + 1][..n] == requests[..n];
    }
  }

  /** A request absorbs every weaker one: observing an earlier state of the slot first makes
      no difference. */
  lemma Absorbs(level: Level, weaker: Request, stronger: Request)
    requires MergeShutdown(Some(weaker), stronger) == stronger
    ensures Begin(Begin(level, weaker), stronger) == Begin(level, stronger)
  {
  }

  /** Skipping intermediate states of the slot gives the same result, however the coordinator's
      looks interleave with the merges, provided it looks once more at the end. */
  lemma {:induction false} SkippingLooksChangesNothing(level: Level, requests: seq<Request>, looks: seq<nat>)
    requires forall i :: 0 <= i < |looks| ==> looks[i] <= |requests|
    requires forall i, j :: 0 <= i < j < |looks| ==> looks[i] <= looks[j]
    requires requests != []
    ensures Begin(Observe(level, requests, looks), Slot(requests).value) == Begin(level, Slot(requests).value)
  {
    if looks != [] {
      var earlier, n := looks[..|looks| - 1], looks[|looks| - 1];
      var before := Observe(level, requests, earlier);
      SkippingLooksChangesNothing(level, requests, earlier);
      SlotGrows(requests, n);
      if Slot(requests[..n]).Some? {
        Absorbs(before, Slot(requests[..n]).value, Slot(requests).value);
      }
    }
  }

  /** Along any run the state only climbs and the deadline never moves back. */
  lemma {:induction false} ShutdownOnlyClimbs(level: Level, requests: seq<Request>, looks: seq<nat>, n: nat)
    requires forall i :: 0 <= i < |looks| ==> looks[i] <= |requests|
    requires n <= |looks|
    ensures AtLeast(Observe(level, requests, looks), Observe(level, requests, looks[..n]))
    decreases |looks| - n
  {
    if n == |looks| {
      assert looks[..n] == looks;
    } else {
      ShutdownOnlyClimbs(level, requests, looks, n + 1);
      assert looks[..n + 1][..n] == looks[..n];
    }
  }
}
