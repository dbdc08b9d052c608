/**
 The cancel token shared by tools and the runtime: any number of polls and requests, each
 split at its atomic loads, stores and lock sections, interleaved in any way.
 */
module CancelToken {
  import opened Wrappers

  type Actor = nat

  /** A poll: past the first look, its waker registered, or answered. */
  datatype PollState = Checked | Registered | Ready | Pending

  /** A request: flag stored, waking the wakers it took, or finished. */
  datatype RequestState = Stored | Waking(left: seq<Actor>) | Finished

  datatype State = State(requested: bool, wakers: seq<Actor>, woken: set<Actor>,
                         polls: map<Actor, PollState>, requests: map<Actor, RequestState>)

  const INITIAL := State(false, [], {}, map[], map[])

  datatype Step =
    | Look(p: Actor)       // first load of the flag
    | Register(p: Actor)   // push the waker under the lock
    | LookAgain(p: Actor)  // second load of the flag
    | Store(r: Actor)      // set the flag
    | TakeWakers(r: Actor) // take all wakers under the lock
    | Wake(r: Actor)       // wake the next one taken
    | Finish(r: Actor)     // none left

  predicate PollIs(s: State, p: Actor, state: PollState) { p in s.polls && s.polls[p] == state }
  predicate Takes(s: State, r: Actor) { r in s.requests && s.requests[r].Waking? }

  predicate Enabled(s: State, step: Step) {
    match step
    case Look(p) => p !in s.polls
    case Register(p) => PollIs(s, p, Checked)
    case LookAgain(p) => PollIs(s, p, Registered)
    case Store(r) => r !in s.requests
    case TakeWakers(r) => r in s.requests && s.requests[r].Stored?
    case Wake(r) => Takes(s, r) && s.requests[r].left != []
    case Finish(r) => Takes(s, r) && s.requests[r].left == []
  }

  function Next(s: State, step: Step): State
    requires Enabled(s, step)
  {
    match step
    case Look(p) => s.(polls := s.polls[p := if s.requested then Ready else Checked])
    case Register(p) => s.(wakers := s.wakers + [p], polls := s.polls[p := Registered])
    case LookAgain(p) => s.(polls := s.polls[p := if s.requested then Ready else Pending])
    case Store(r) => s.(requested := true, requests := s.requests[r := Stored])
    case TakeWakers(r) => s.(wakers := [], requests := s.requests[r := Waking(s.wakers)])
    case Wake(r) =>
      s.(woken := s.woken + {s.requests[r].left[0]}, requests := s.requests[r := Waking(s.requests[r].left[1..])])
    case Finish(r) => s.(requests := s.requests[r := Finished])
  }

  /** The state after `steps`, if each of them could be taken. */
  function Run(steps: seq<Step>): Option<State> {
    if steps == [] then Some(INITIAL)
    else
      var before := Run(steps[..|steps| - 1]);
      if before.Some? && Enabled(before.value, steps[|steps| - 1])
      then Some(Next(before.value, steps[|steps| - 1])) else None
  }

  predicate Holds(s: State, r: Actor, p: Actor) { Takes(s, r) && p in s.requests[r].left }

  ghost predicate Held(s: State, p: Actor) {
    exists r :: Holds(s, r, p)
  }

  /** Nothing registered is forgotten: a waker waits in the list, is being woken, or was. And once
      some request has taken the list, none in it belongs to a poll that found the flag unset. */
  ghost predicate Inv(s: State) {
    && (s.requests != map[] <==> s.requested)
    && (forall p :: p in s.polls && (s.polls[p].Registered? || s.polls[p].Pending?) ==> p in s.wakers || p in s.woken || Held(s, p))
    && (forall r :: r in s.requests && !s.requests[r].Stored? ==> forall p :: p in s.wakers ==> !PollIs(s, p, Pending))
  }

  lemma HeldKept(s: State, t: State, p: Actor, r: Actor)
    requires Held(s, p) && (forall q :: q in s.requests && q != r ==> q in t.requests && t.requests[q] == s.requests[q])
    requires Holds(s, r, p) ==> Holds(t, r, p)
    ensures Held(t, p)
  {
    var q :| Holds(s, q, p);
    assert Holds(t, q, p);
  }

  lemma InvStep(s: State, step: Step)
    requires Inv(s) && Enabled(s, step)
    ensures Inv(Next(s, step))
  {
    var t := Next(s, step);
    forall p | p in t.polls && (t.polls[p].Registered? || t.polls[p].Pending?)
      ensures p in t.wakers || p in t.woken || Held(t, p)
    {
      match step
      case TakeWakers(r) =>
        if p in s.wakers {
          assert Holds(t, r, p);
        } else if p !in s.woken {
          HeldKept(s, t, p, r);
        }
      case Wake(r) =>
        if p !in s.wakers && p !in t.woken {
          assert s.requests[r].left == [s.requests[r].left[0]] + s.requests[r].left[1..];
          HeldKept(s, t, p, r);
        }
      case Finish(r) =>
        if p !in s.wakers && p !in s.woken {
          HeldKept(s, t, p, r);
        }
      case Store(r) =>
        if p !in s.wakers && p !in s.woken {
          HeldKept(s, t, p, r);
        }
      case _ =>
        if p !in t.wakers && p !in s.woken {
          HeldKept(s, t, p, 0);
        }
    }
  }

  predicate Distinct(actors: seq<Actor>) {
    forall i, j :: 0 <= i < j < |actors| ==> actors[i] != actors[j]
  }

  predicate Entered(s: State, p: Actor) { p in s.polls && !s.polls[p].Checked? }

  /** A waker is in one place: once in the list, or once in the hands of one request, or woken. */
  ghost predicate OnePlace(s: State) {
    && Distinct(s.wakers)
    && (forall r :: Takes(s, r) ==> Distinct(s.requests[r].left))
    && (forall p :: p in s.wakers ==> Entered(s, p) && p !in s.woken)
    && (forall p :: p in s.woken ==> Entered(s, p))
    && (forall r, p :: Holds(s, r, p) ==> Entered(s, p) && p !in s.woken && p !in s.wakers)
    && (forall r, q, p :: Holds(s, r, p) && Holds(s, q, p) ==> r == q)
  }

  lemma OnePlaceStep(s: State, step: Step)
    requires OnePlace(s) && Enabled(s, step)
    ensures OnePlace(Next(s, step))
  {
    var t := Next(s, step);
    forall r, p | Holds(t, r, p)
      ensures if step == TakeWakers(r) then p in s.wakers else Holds(s, r, p)
      ensures step == Wake(r) ==> p != s.requests[r].left[0]
    {
      assert step.Wake? && step.r == r ==> s.requests[r].left == [s.requests[r].left[0]] + t.requests[r].left;
    }
    if step.Register? {
      assert forall i :: 0 <= i < |s.wakers| ==> s.wakers[i] in s.wakers;
      assert Distinct(t.wakers);
    }
    if step.Wake? {
      var left := s.requests[step.r].left;
      assert Holds(s, step.r, left[0]);
      assert forall r :: Takes(t, r) ==> Distinct(t.requests[r].left) by {
        assert forall i, j :: 0 <= i < j < |left[1..]| ==> left[1..][i] == left[i + 1] && left[1..][j] == left[j + 1];
      }
    }
  }

  lemma {:induction false} ReachableInv(steps: seq<Step>)
    requires Run(steps).Some?
    ensures Inv(Run(steps).value) && OnePlace(Run(steps).value)
  {
    if steps != [] {
      ReachableInv(steps[..|steps| - 1]);
      InvStep(Run(steps[..|steps| - 1]).value, steps[|steps| - 1]);
      OnePlaceStep(Run(steps[..|steps| - 1]).value, steps[|steps| - 1]);
    }
  }

  /** No request is still waking what it took. */
  predicate NoneWaking(s: State) {
    forall r :: r in s.requests ==> !s.requests[r].Waking?
  }

  /** No wakeup is lost: in every reachable state with a finished request, a pending poll has been
      woken exactly if no other request still holds its waker, and so always once none is waking. */
  lemma NoLostWakeup(steps: seq<Step>, r: Actor, p: Actor)
    requires Run(steps).Some? && r in Run(steps).value.requests && Run(steps).value.requests[r].Finished?
    requires PollIs(Run(steps).value, p, Pending)
    ensures p in Run(steps).value.woken <==> !Held(Run(steps).value, p)
    ensures NoneWaking(Run(steps).value) ==> p in Run(steps).value.woken
  {
    ReachableInv(steps);
    var s := Run(steps).value;
    if q :| Holds(s, q, p) {
      assert p !in s.woken;
    }
  }

  /** After the flag is set no poll that begins is left pending, and none that is under way. */
  lemma LaterPollsAreReady(s: State, p: Actor)
    requires s.requested
    ensures Enabled(s, Look(p)) ==> PollIs(Next(s, Look(p)), p, Ready)
    ensures Enabled(s, LookAgain(p)) ==> PollIs(Next(s, LookAgain(p)), p, Ready)
    ensures forall step :: Enabled(s, step) ==> Next(s, step).requested
  {
  }

  /** With two requests one may finish while the other has not yet woken what it took. */
  const TWO_REQUESTS := [Look(0), Register(0), LookAgain(0), Store(1), Store(2), TakeWakers(1), TakeWakers(2), Finish(2)]

  lemma RunMore(steps: seq<Step>, n: nat, before: State)
    requires n < |steps| && Run(steps[..n]) == Some(before) && Enabled(before, steps[n])
    ensures Run(steps[..n + 1]) == Some(Next(before, steps[n]))
  {
    assert steps[..n + 1][..n] == steps[..n];
  }

  const MIDWAY := State(true, [0], {}, map[0 := Pending], map[1 := Stored])

  lemma PendingThenStored()
    ensures Run(TWO_REQUESTS[..4]) == Some(MIDWAY)
  {
    var steps := TWO_REQUESTS;
    var s1 := State(false, [], {}, map[0 := Checked], map[]);
    var s2 := State(false, [0], {}, map[0 := Registered], map[]);
    var s3 := State(false, [0], {}, map[0 := Pending], map[]);
    assert Run(steps[..0]) == Some(INITIAL);
    hide Run;
    RunMore(steps, 0, INITIAL);
    RunMore(steps, 1, s1);
    assert Next(s1, Register(0)).polls == s2.polls && Next(s1, Register(0)).wakers == s2.wakers;
    RunMore(steps, 2, s2);
    assert Next(s2, LookAgain(0)).polls == s3.polls;
    RunMore(steps, 3, s3);
  }

  lemma FinishedIsNotEnough()
    ensures Run(TWO_REQUESTS).Some?
    ensures var s := Run(TWO_REQUESTS).value;
            2 in s.requests && s.requests[2].Finished? && PollIs(s, 0, Pending) && 0 !in s.woken
  {
    hide Run;
    var steps := TWO_REQUESTS;
    var s5 := State(true, [0], {}, map[0 := Pending], map[1 := Stored, 2 := Stored]);
    var s6 := State(true, [], {}, map[0 := Pending], map[1 := Waking([0]), 2 := Stored]);
    var s7 := State(true, [], {}, map[0 := Pending], map[1 := Waking([0]), 2 := Waking([])]);
    PendingThenStored();
    RunMore(steps, 4, MIDWAY);
    RunMore(steps, 5, s5);
    assert Next(s5, TakeWakers(1)).requests == s6.requests;
    RunMore(steps, 6, s6);
    assert Next(s6, TakeWakers(2)).requests == s7.requests;
    RunMore(steps, 7, s7);
    assert steps[..8] == steps;
  }
}
